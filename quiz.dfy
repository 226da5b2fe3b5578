/** The game state machine of the App component (App.tsx) as a value: the
    four state cells, one function per transition, the invariant every
    transition keeps, and runs of events with what they guarantee. */
module Quiz {
  import opened Questions

  /** The `GameState` union. */
  datatype Phase = Loading | Playing | Correct | Incorrect | Finished

  /** The four React state cells: `gameState`, `questions`,
      `currentQuestionIndex` and `score`. */
  datatype Game = Game(phase: Phase, questions: seq<Question>, index: nat, score: nat)

  /** The cells' initial values: no questions, index 0, score 0, loading. */
  const Initial: Game := Game(Loading, [], 0, 0)

  /** The phases in which a question card is on screen. */
  predicate OnQuestion(p: Phase) {
    p == Playing || p == Correct || p == Incorrect
  }

  /** What holds in every state the component can reach: while a question
      is on screen the index points into the list, and the score is the
      number of questions already answered correctly, counting the current
      one once it has been answered correctly. A finished game has answered
      every question. */
  predicate Inv(g: Game) {
    match g.phase
    case Loading => g.index == 0 && g.score == 0
    case Playing => g.index < |g.questions| && g.score == g.index
    case Incorrect => g.index < |g.questions| && g.score == g.index
    case Correct => g.index < |g.questions| && g.score == g.index + 1
    case Finished => |g.questions| >= 1 && g.index == |g.questions| - 1 && g.score == |g.questions|
  }

  // ---------------------------------------------------------------- transitions

  /** The synchronous head of loadQuestions: loading, score and index reset.
      The previous question list stays until the new one arrives. */
  function BeginLoad(g: Game): (r: Game)
    ensures Inv(r) && r.phase == Loading
    ensures r.questions == g.questions
  {
    g.(phase := Loading, score := 0, index := 0)
  }

  /** The tail of loadQuestions once the supplier has answered: the new
      list is installed and play starts at the question the index names.
      An empty list is accepted as the code accepts it, but then no
      question is on screen and the invariant is lost. */
  function FinishLoad(g: Game, qs: seq<Question>): (r: Game)
    requires g.phase == Loading
    ensures r.phase == Playing && r.questions == qs
    ensures r.index == g.index && r.score == g.score
    ensures Inv(g) ==> (Inv(r) <==> qs != [])
  {
    g.(questions := qs, phase := Playing)
  }

  /** handleAnswer: ignored unless playing; otherwise a match with the
      current question's answer scores one point and shows the correct
      screen, and a mismatch shows the incorrect screen. Neither moves the
      index nor touches the list. */
  function Answer(g: Game, b: bool): (r: Game)
    requires g.phase == Playing ==> g.index < |g.questions|
    ensures g.phase != Playing ==> r == g
    ensures g.phase == Playing ==> r.questions == g.questions && r.index == g.index
    ensures g.phase == Playing ==> (r.phase == Correct <==> b == g.questions[g.index].answer)
    ensures g.phase == Playing ==> (r.phase == Incorrect <==> b != g.questions[g.index].answer)
    ensures g.phase == Playing ==> r.score == if r.phase == Correct then g.score + 1 else g.score
    ensures Inv(g) ==> Inv(r)
  {
    if g.phase != Playing then g
    else if b == g.questions[g.index].answer then g.(score := g.score + 1, phase := Correct)
    else g.(phase := Incorrect)
  }

  /** The 2000 ms callback armed by a correct answer: on to the next
      question if there is one, otherwise the game is over at the same index. */
  function CorrectElapsed(g: Game): (r: Game)
    requires g.phase == Correct
    ensures r.questions == g.questions && r.score == g.score
    ensures g.index + 1 < |g.questions| ==> r.phase == Playing && r.index == g.index + 1
    ensures g.index + 1 >= |g.questions| ==> r.phase == Finished && r.index == g.index
    ensures Inv(g) ==> Inv(r)
  {
    var next := g.index + 1;
    if next < |g.questions| then g.(index := next, phase := Playing)
    else g.(phase := Finished)
  }

  /** The 500 ms callback armed by a wrong answer: back to playing on the
      same question, score unchanged. */
  function IncorrectElapsed(g: Game): (r: Game)
    requires g.phase == Incorrect
    ensures r.phase == Playing
    ensures r.questions == g.questions && r.index == g.index && r.score == g.score
    ensures Inv(g) ==> Inv(r)
  {
    g.(phase := Playing)
  }

  // ---------------------------------------------------------------- runs

  /** Everything that can change the four cells: the replay button, the
      supplier's answer, a Yes/No click and the two timer callbacks. */
  datatype Event = Start | Arrive(list: seq<Question>) | Press(choice: bool) | CorrectTimer | IncorrectTimer

  /** When each event can occur. Replay is offered only on the game-over
      screen; the supplier answers once per load; a timer fires only in the
      phase that armed it, since nothing else leaves that phase. A click is
      allowed in every phase, although the buttons are disabled outside play
      and absent when no card is drawn: this over-approximates the clicks
      the screen lets through, and is harmless because the handler itself
      ignores a click outside play. Runs are restricted to non-empty
      question lists. */
  predicate Enabled(g: Game, e: Event) {
    match e
    case Start => g.phase == Finished
    case Arrive(qs) => g.phase == Loading && qs != []
    case Press(_) => true
    case CorrectTimer => g.phase == Correct
    case IncorrectTimer => g.phase == Incorrect
  }

  /** One event, applied atomically. */
  function Step(g: Game, e: Event): (r: Game)
    requires Inv(g) && Enabled(g, e)
    ensures Inv(r)
  {
    match e
    case Start => BeginLoad(g)
    case Arrive(qs) => FinishLoad(g, qs)
    case Press(b) => Answer(g, b)
    case CorrectTimer => CorrectElapsed(g)
    case IncorrectTimer => IncorrectElapsed(g)
  }

  /** The state after a sequence of events, or None when one of them could
      not have occurred at its point. */
  function Run(g: Game, es: seq<Event>): (r: Option<Game>)
    requires Inv(g)
    ensures r.Some? ==> Inv(r.value)
    decreases |es|
  {
    if es == [] then Some(g)
    else if Enabled(g, es[0]) then Run(Step(g, es[0]), es[1..])
    else None
  }

  /** A click that lands on a live question with its right answer. */
  predicate IsHit(g: Game, e: Event)
    requires Inv(g)
  {
    e.Press? && g.phase == Playing && e.choice == g.questions[g.index].answer
  }

  /** The number of correct answers given along a run. */
  function Hits(g: Game, es: seq<Event>): nat
    requires Inv(g)
    decreases |es|
  {
    if es == [] || !Enabled(g, es[0]) then 0
    else (if IsHit(g, es[0]) then 1 else 0) + Hits(Step(g, es[0]), es[1..])
  }

  /** A run within one game: no replay. */
  predicate NoRestart(es: seq<Event>) {
    forall i :: 0 <= i < |es| ==> !es[i].Start?
  }

  // ---------------------------------------------------------------- lemmas

  lemma NoRestartTail(es: seq<Event>)
    requires es != [] && NoRestart(es)
    ensures NoRestart(es[1..]) && !es[0].Start?
  {
    assert forall i :: 0 <= i < |es[1..]| ==> es[1..][i] == es[i + 1];
  }

  /** The score moves by one exactly on a hit, and otherwise not at all,
      for every event but replay. */
  lemma StepScore(g: Game, e: Event)
    requires Inv(g) && Enabled(g, e) && !e.Start?
    ensures Step(g, e).score == g.score + (if IsHit(g, e) then 1 else 0)
  {
  }

  /** Within one game the score is the number of correct answers given. */
  lemma {:induction false} ScoreCountsHits(g: Game, es: seq<Event>)
    requires Inv(g) && NoRestart(es) && Run(g, es).Some?
    ensures Run(g, es).value.score == g.score + Hits(g, es)
    decreases |es|
  {
    if es != [] {
      NoRestartTail(es);
      StepScore(g, es[0]);
      ScoreCountsHits(Step(g, es[0]), es[1..]);
    }
  }

  /** Within one game the score never drops. */
  lemma ScoreNeverDrops(g: Game, es: seq<Event>)
    requires Inv(g) && NoRestart(es) && Run(g, es).Some?
    ensures Run(g, es).value.score >= g.score
  {
    ScoreCountsHits(g, es);
  }

  /** Once the questions have arrived, a game keeps its list and never
      goes back to loading. */
  lemma {:induction false} QuestionsStay(g: Game, es: seq<Event>)
    requires Inv(g) && g.phase != Loading && NoRestart(es) && Run(g, es).Some?
    ensures Run(g, es).value.questions == g.questions
    ensures Run(g, es).value.phase != Loading
    decreases |es|
  {
    if es != [] {
      NoRestartTail(es);
      QuestionsStay(Step(g, es[0]), es[1..]);
    }
  }

  /** A whole game, from the arrival of the list to the game-over screen:
      the final score is the length of the list and the number of correct
      answers given. */
  lemma GameOverScore(g: Game, qs: seq<Question>, rest: seq<Event>)
    requires Inv(g) && g.phase == Loading && NoRestart([Arrive(qs)] + rest)
    requires Run(g, [Arrive(qs)] + rest).Some?
    requires Run(g, [Arrive(qs)] + rest).value.phase == Finished
    ensures Run(g, [Arrive(qs)] + rest).value.score == |qs|
    ensures Run(g, [Arrive(qs)] + rest).value.score == Hits(g, [Arrive(qs)] + rest)
  {
    var es := [Arrive(qs)] + rest;
    assert es[1..] == rest;
    ScoreCountsHits(g, es);
    NoRestartTail(es);
    QuestionsStay(Step(g, es[0]), rest);
  }

  /** The sequence of events that answers every question from index i on
      correctly and waits out each correct screen. */
  function PerfectRound(qs: seq<Question>, i: nat): seq<Event>
    decreases |qs| - i
  {
    if i >= |qs| then [] else [Press(qs[i].answer), CorrectTimer] + PerfectRound(qs, i + 1)
  }

  /** From any question, answering every remaining question correctly ends
      the game with the full score. */
  lemma {:induction false} PerfectPlayWins(g: Game)
    requires Inv(g) && g.phase == Playing
    ensures Run(g, PerfectRound(g.questions, g.index))
         == Some(Game(Finished, g.questions, |g.questions| - 1, |g.questions|))
    decreases |g.questions| - g.index
  {
    var qs, i := g.questions, g.index;
    var es := PerfectRound(qs, i);
    var tail := PerfectRound(qs, i + 1);
    assert es == [Press(qs[i].answer), CorrectTimer] + tail;
    assert es[1..] == [CorrectTimer] + tail;
    assert es[1..][1..] == tail;
    var c := Step(g, es[0]);
    assert c.phase == Correct;
    var h := Step(c, CorrectTimer);
    assert Run(g, es) == Run(h, tail);
    if i + 1 < |qs| {
      PerfectPlayWins(h);
    } else {
      assert tail == [];
    }
  }

  /** A wrong answer costs nothing but the delay: after the incorrect
      screen the same question is back with the same score. */
  lemma MissedQuestionReshown(g: Game, b: bool)
    requires Inv(g) && g.phase == Playing && b != g.questions[g.index].answer
    ensures Run(g, [Press(b), IncorrectTimer]) == Some(g)
  {
    var es := [Press(b), IncorrectTimer];
    assert es[1..] == [IncorrectTimer];
    assert es[1..][1..] == [];
    var w := Step(g, Press(b));
    assert w.phase == Incorrect;
    assert Run(g, es) == Run(w, [IncorrectTimer]);
    assert Step(w, IncorrectTimer) == g;
  }

  /** Replay from the game-over screen: once the new list has arrived the
      game is at its first question with score 0, whatever the last game
      scored. */
  lemma RestartResets(g: Game, qs: seq<Question>)
    requires Inv(g) && g.phase == Finished && qs != []
    ensures Run(g, [Start, Arrive(qs)]) == Some(Game(Playing, qs, 0, 0))
  {
    var es := [Start, Arrive(qs)];
    assert es[1..] == [Arrive(qs)];
    assert es[1..][1..] == [];
    var l := Step(g, Start);
    assert Run(g, es) == Run(l, [Arrive(qs)]);
  }
}
