/** What the App component draws for a state (renderContent, the header
    and the two overlays), as a value computed from the four cells. */
module Render {
  import opened Questions
  import opened Quiz

  /** The main area: the spinner, the game-over panel with the final
      score, or the question card with its props. */
  datatype Content =
    | Spinner
    | GameOver(finalScore: nat)
    | Card(question: Option<string>, questionNumber: nat, totalQuestions: nat, disabled: bool)

  /** The whole screen: the main area, the score badge in the header (if
      shown), the explanation on the correct overlay (if shown) and whether
      the red incorrect overlay is opaque. */
  datatype Screen = Screen(content: Content, scoreBadge: Option<nat>, correctOverlay: Option<string>, incorrectFlash: bool)

  /** `questions[currentQuestionIndex]`, which is undefined past the end. */
  function CurrentQuestion(g: Game): (r: Option<Question>)
    ensures r.Some? <==> g.index < |g.questions|
    ensures r.Some? ==> r.value == g.questions[g.index]
  {
    if g.index < |g.questions| then Some(g.questions[g.index]) else None
  }

  /** The correct overlay reads the current question's explanation without
      a guard, so it needs the index to be in range. */
  function View(g: Game): (s: Screen)
    requires g.phase == Correct ==> g.index < |g.questions|
    ensures s.content.Spinner? <==> g.phase == Loading
    ensures s.content.GameOver? <==> g.phase == Finished
    ensures s.content.GameOver? ==> s.content.finalScore == g.score
    ensures s.content.Card? <==> OnQuestion(g.phase)
    ensures s.content.Card? ==> && s.content.questionNumber == g.index + 1
                                && s.content.totalQuestions == |g.questions|
                                && (s.content.disabled <==> g.phase != Playing)
                                && (s.content.question.Some? <==> g.index < |g.questions|)
    ensures s.scoreBadge == if g.phase != Loading && g.phase != Finished then Some(g.score) else None
    ensures s.correctOverlay.Some? <==> g.phase == Correct
    ensures s.incorrectFlash <==> g.phase == Incorrect
  {
    var content :=
      match g.phase
      case Loading => Spinner
      case Finished => GameOver(g.score)
      case _ =>
        var text := match CurrentQuestion(g) case Some(q) => Some(q.question) case None => None;
        Card(text, g.index + 1, |g.questions|, g.phase != Playing);
    var badge := if g.phase != Loading && g.phase != Finished then Some(g.score) else None;
    var overlay := if g.phase == Correct then Some(g.questions[g.index].explanation) else None;
    Screen(content, badge, overlay, g.phase == Incorrect)
  }

  /** In every reachable state the card shows the current question as
      "Question index+1 / total" with a number in range, and is clickable
      exactly while playing; the score badge is shown exactly while a
      question is on screen; the game-over panel shows the full score. */
  lemma ViewOfReachable(g: Game)
    requires Inv(g)
    ensures View(g).content.Card? <==> OnQuestion(g.phase)
    ensures View(g).content.Card? ==>
              && View(g).content.question == Some(g.questions[g.index].question)
              && 1 <= View(g).content.questionNumber <= View(g).content.totalQuestions
              && View(g).content.questionNumber == g.index + 1
              && View(g).content.totalQuestions == |g.questions|
              && (View(g).content.disabled <==> g.phase != Playing)
    ensures View(g).scoreBadge.Some? <==> OnQuestion(g.phase)
    ensures View(g).scoreBadge.Some? ==> View(g).scoreBadge.value == g.score
    ensures View(g).content.GameOver? <==> g.phase == Finished
    ensures View(g).content.GameOver? ==> View(g).content.finalScore == |g.questions|
    ensures View(g).correctOverlay.Some? <==> g.phase == Correct
    ensures View(g).correctOverlay.Some? ==>
              View(g).correctOverlay.value == g.questions[g.index].explanation
  {
  }
}
