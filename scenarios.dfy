/** Two short games over a two-question list, played event by event. */
module Scenarios {
  import opened Questions
  import opened Quiz

  const TwoQuestions: seq<Question> := [Question("A?", true, "a"), Question("B?", false, "b")]

  /** Both questions answered correctly: the game ends with score 2. */
  lemma BothRight()
    ensures Run(Initial, [Arrive(TwoQuestions), Press(true), CorrectTimer, Press(false), CorrectTimer])
         == Some(Game(Finished, TwoQuestions, 1, 2))
  {
    var g1 := Step(Initial, Arrive(TwoQuestions));
    var g2 := Step(g1, Press(true));
    var g3 := Step(g2, CorrectTimer);
    var g4 := Step(g3, Press(false));
    var es := [Arrive(TwoQuestions), Press(true), CorrectTimer, Press(false), CorrectTimer];
    assert Run(Initial, es) == Run(g1, es[1..]);
    assert Run(g1, es[1..]) == Run(g2, es[2..]);
    assert Run(g2, es[2..]) == Run(g3, es[3..]);
    assert Run(g3, es[3..]) == Run(g4, es[4..]);
  }

  /** A miss on the first question: it comes back at once with score 0,
      and answering it then moves on to the second with score 1. */
  lemma MissThenRight()
    ensures Run(Initial, [Arrive(TwoQuestions), Press(false), IncorrectTimer, Press(true), CorrectTimer])
         == Some(Game(Playing, TwoQuestions, 1, 1))
    ensures Run(Initial, [Arrive(TwoQuestions), Press(false), IncorrectTimer])
         == Some(Game(Playing, TwoQuestions, 0, 0))
  {
    var g1 := Step(Initial, Arrive(TwoQuestions));
    var g2 := Step(g1, Press(false));
    var g3 := Step(g2, IncorrectTimer);
    var g4 := Step(g3, Press(true));
    var es := [Arrive(TwoQuestions), Press(false), IncorrectTimer, Press(true), CorrectTimer];
    assert g3 == Game(Playing, TwoQuestions, 0, 0);
    assert Run(Initial, es) == Run(g1, es[1..]);
    assert Run(g1, es[1..]) == Run(g2, es[2..]);
    assert Run(g2, es[2..]) == Run(g3, es[3..]);
    assert Run(g3, es[3..]) == Run(g4, es[4..]);
    var ps := [Arrive(TwoQuestions), Press(false), IncorrectTimer];
    assert Run(Initial, ps) == Run(g1, ps[1..]);
    assert Run(g1, ps[1..]) == Run(g2, ps[2..]);
    assert Run(g2, ps[2..]) == Run(g3, ps[3..]);
    assert ps[3..] == [];
  }
}
