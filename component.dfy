/** The App component as an object whose four fields are its state cells
    and whose methods are its handlers, each run as one atomic update. */
module Component {
  import opened Questions
  import Supplier
  import Quiz
  import Render

  class App {
    var state: Quiz.Phase
    var questions: seq<Question>
    var index: nat
    var score: nat

    /** The cells as a game value. */
    function Model(): Quiz.Game
      reads this
    {
      Quiz.Game(state, questions, index, score)
    }

    ghost predicate Valid()
      reads this
    {
      Quiz.Inv(Model())
    }

    /** The useState initial values. */
    constructor ()
      ensures Valid() && Model() == Quiz.Initial
    {
      state, questions, index, score := Quiz.Loading, [], 0, 0;
    }

    /** The three assignments before loadQuestions awaits the supplier. */
    method BeginLoad()
      modifies this
      ensures Valid() && Model() == Quiz.BeginLoad(old(Model()))
      ensures state == Quiz.Loading && score == 0 && index == 0 && questions == old(questions)
    {
      state := Quiz.Loading;
      score := 0;
      index := 0;
    }

    /** The two assignments after the supplier has answered. */
    method QuestionsArrived(qs: seq<Question>)
      requires Valid() && state == Quiz.Loading && qs != []
      modifies this
      ensures Valid() && Model() == Quiz.FinishLoad(old(Model()), qs)
      ensures state == Quiz.Playing && questions == qs && index == 0 && score == 0
    {
      questions := qs;
      state := Quiz.Playing;
    }

    /** loadQuestions, with the supplier's reply as a parameter: whatever
        the state and score before, a fresh game at its first question. */
    method Load(reply: Supplier.Reply)
      requires Supplier.Fetch(reply) != []
      modifies this
      ensures Valid() && Model() == Quiz.FinishLoad(Quiz.BeginLoad(old(Model())), Supplier.Fetch(reply))
      ensures state == Quiz.Playing && score == 0 && index == 0 && questions == Supplier.Fetch(reply)
    {
      BeginLoad();
      var qs := Supplier.Fetch(reply);
      QuestionsArrived(qs);
    }

    /** handleAnswer. */
    method Answer(b: bool)
      requires Valid()
      modifies this
      ensures Valid() && Model() == Quiz.Answer(old(Model()), b)
    {
      if state != Quiz.Playing {
        return;
      }
      if b == questions[index].answer {
        score := score + 1;
        state := Quiz.Correct;
      } else {
        state := Quiz.Incorrect;
      }
    }

    /** The callback of the 2000 ms timer armed by a correct answer. */
    method CorrectTimerElapsed()
      requires Valid() && state == Quiz.Correct
      modifies this
      ensures Valid() && Model() == Quiz.CorrectElapsed(old(Model()))
    {
      var nextIndex := index + 1;
      if nextIndex < |questions| {
        index := nextIndex;
        state := Quiz.Playing;
      } else {
        state := Quiz.Finished;
      }
    }

    /** The callback of the 500 ms timer armed by a wrong answer. */
    method IncorrectTimerElapsed()
      requires Valid() && state == Quiz.Incorrect
      modifies this
      ensures Valid() && Model() == Quiz.IncorrectElapsed(old(Model()))
    {
      state := Quiz.Playing;
    }

    /** What is on screen now. */
    function Screen(): (s: Render.Screen)
      reads this
      requires Valid()
      ensures s == Render.View(Model())
      ensures Quiz.OnQuestion(state) ==> s.content.Card? && s.content.questionNumber == index + 1
      ensures Quiz.OnQuestion(state) ==> (s.content.disabled <==> state != Quiz.Playing)
      ensures s.scoreBadge.Some? <==> Quiz.OnQuestion(state)
    {
      Render.ViewOfReachable(Model());
      Render.View(Model())
    }
  }
}
