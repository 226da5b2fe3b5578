# Yes/No trivia: the game state machine

This project models the game logic of a single-player yes/no trivia quiz, and proves properties of that model. The logic lives in the `App` component (App.tsx). It has four state cells:

- the question list;
- the current question index;
- the score;
- the game state: `loading`, `playing`, `correct`, `incorrect` or `finished`.

The cells change in five places: the load of a question list, the answer handler, the two timer callbacks the handler arms, and the replay button. The question supplier (services/geminiService.ts) is modelled only as a function of what the provider call came to.

Modules:

- `Questions` (questions.dfy): the question record, `Question(question, answer, explanation)`. The `types` file that declares it is not part of this model; the field names are taken from their uses.
- `Supplier` (supplier.dfy): `fetchQuestions` as the total function `Fetch`. It passes a parsed list through, and replaces any failure by the three hard-coded fallback questions.
- `Quiz` (quiz.dfy): the four cells as a value `Game`. It has one function per transition and the invariant `Inv` that every transition keeps. An `Event` type covers the replay click, the supplier's answer, a Yes/No click and the two timer callbacks. `Run` plays a sequence of events, and the lemmas about whole games are stated over runs.
- `Render` (render.dfy): what is drawn for a state, as a value. That is the spinner, the game-over panel, the question card's props, the score badge and the two overlays.
- `Component` (component.dfy): the component as the class `App`. Its fields are the four cells and its methods are the handlers. Each method is tied to its `Quiz` function through `Model()`, and keeps `Valid()`, the invariant.
- `Scenarios` (scenarios.dfy): two short two-question games, played event by event.

Each handler is one atomic transition. The two `setTimeout` delays (2000 ms after a correct answer, 500 ms after a wrong one) are events, `CorrectTimer` and `IncorrectTimer`. Each is enabled only in the phase that armed it: nothing else leaves `correct` or `incorrect`, because clicks are ignored there and the replay button exists only on the game-over screen. Replay (`Start`) is enabled only in `finished`, and the supplier's answer (`Arrive`) only in `loading`.

How the code behaves at its edges, which the model follows:

- The supplier returns the parsed list unchecked: nothing checks its length or the shape of its items.
- The fallback list has exactly three questions.
- An empty list enters `playing` with nothing to show.
- Replay exists only on the game-over screen, and no timer is ever cancelled.

## Model

| member | source | states |
|---|---|---|
| Supplier.Fetch | services/geminiService.ts:13-67 | a parsed reply is returned as it is, unchecked; any failure gives exactly the three fallback questions, all with non-empty text and explanation, with answers yes, no, no |
| Quiz.BeginLoad | App.tsx:17-19 | whatever the state before, loading with score 0 and index 0 satisfies the invariant; the old list is kept until the new one arrives |
| Quiz.FinishLoad | App.tsx:21-23 | the new list is installed and play starts, with index and score untouched; from a valid loading state the result keeps the invariant exactly when the list is non-empty |
| Quiz.Answer | App.tsx:34-50 | outside `playing` nothing changes; in `playing` the result is `correct` iff the choice matches the current answer and `incorrect` iff it does not; the score rises by one exactly on a match; index and list are unchanged; the invariant is kept |
| Quiz.CorrectElapsed | App.tsx:40-47 | if another question follows, the index moves to it and play resumes; otherwise the game finishes at the same index; list and score unchanged; the invariant is kept |
| Quiz.IncorrectElapsed | App.tsx:51-53 | back to `playing` with index, score and list unchanged; the invariant is kept |
| Quiz.Step | App.tsx:16-55 | every enabled event keeps the invariant: the index is in range while a question is shown, score equals index in `playing` and `incorrect`, index+1 in `correct`, and the list length in `finished` |
| Quiz.Run | App.tsx:11-55 | every state a run of enabled events reaches satisfies the invariant |
| Quiz.StepScore | App.tsx:37-53 | apart from replay, an event raises the score by one if it is a correct answer to a live question, and otherwise leaves it unchanged |
| Quiz.ScoreCountsHits | App.tsx:37-38 | within one game the score grows by exactly the number of correct answers given |
| Quiz.ScoreNeverDrops | App.tsx:34-55 | within one game the score never decreases |
| Quiz.QuestionsStay | App.tsx:21-23 | once the list has arrived, a game keeps that list and never returns to `loading` without a replay |
| Quiz.GameOverScore | App.tsx:40-47 | a game that reaches `finished` has a final score equal to the number of questions, and equal to the number of correct answers given |
| Quiz.PerfectPlayWins | App.tsx:37-47 | from any question, answering each remaining question correctly and waiting out each correct screen ends the game with the full score |
| Quiz.MissedQuestionReshown | App.tsx:49-53 | a wrong answer followed by its timer gives back exactly the state before: same question, same score |
| Quiz.RestartResets | App.tsx:16-23 | replay from the game-over screen, once the new list arrives, gives the first question with score 0, whatever the last game's score |
| Render.CurrentQuestion | App.tsx:57 | there is a current question exactly when the index is inside the list, and it is the question at that index |
| Render.View | App.tsx:59-127 | the spinner exactly while loading, the game-over panel with the score exactly when finished, and otherwise the card numbered index+1 out of the list length, disabled exactly when not `playing`; the score badge exactly when neither loading nor finished; the explanation overlay exactly in `correct`; the red overlay exactly in `incorrect` |
| Render.ViewOfReachable | App.tsx:59-127 | in a valid state the card is shown exactly while a question is on screen; it shows the current question as number index+1 out of the list length, and is disabled exactly when not `playing`. The score badge is shown exactly when neither loading nor finished. The game-over panel shows the full score, and the correct overlay shows the current explanation exactly in `correct` |
| Component.App.constructor | App.tsx:11-14 | the initial cell values: no questions, index 0, score 0, loading |
| Component.App.BeginLoad | App.tsx:17-19 | loading with score and index reset and the list kept; the invariant holds |
| Component.App.QuestionsArrived | App.tsx:21-23 | in `playing` at index 0 with score 0 on the given non-empty list; the invariant holds |
| Component.App.Load | App.tsx:16-28 | from any state, a fresh game on the supplier's list at its first question with score 0 |
| Component.App.Answer | App.tsx:34-50 | the new cells are those `Quiz.Answer` gives for the old cells; the invariant holds |
| Component.App.CorrectTimerElapsed | App.tsx:40-47 | the new cells are those `Quiz.CorrectElapsed` gives for the old cells; the invariant holds |
| Component.App.IncorrectTimerElapsed | App.tsx:51-53 | the new cells are those `Quiz.IncorrectElapsed` gives for the old cells; the invariant holds |
| Component.App.Screen | App.tsx:57-127 | the screen is `Render.View` of the four cells, so every fact of `Render.ViewOfReachable` holds of it: the card is numbered index+1 out of the list length, shows the current question and is disabled exactly outside `playing`; the score badge is shown exactly while a question is on screen; the game-over panel shows the full score |
| Scenarios.BothRight | App.tsx:34-55 | two questions, both answered correctly: `finished` with score 2 |
| Scenarios.MissThenRight | App.tsx:34-55 | a miss on the first question, once its timer fires, re-shows that question in `playing` with score 0; the right answer then moves to the second question with score 1 |

## Left out

- The provider call itself is left out: the vendor SDK, the prompt, the response schema, `JSON.parse` and the `API_KEY` check at module load are all foreign code. `Supplier.Reply` stands for their outcome.
- A parsed response whose `questions` field is missing or not a list is not modelled: `Reply.Parsed` always carries a list.
- The `catch` in `loadQuestions` (App.tsx:24-27) is left out. It only logs and leaves the state at `loading`, and it cannot be reached, because `fetchQuestions` never rejects.
- The empty question list is left out of runs and of the class. `Quiz.FinishLoad` accepts it as the code does, and proves that the invariant is then lost. But `Arrive([])` is not an enabled event, and `Component.App.QuestionsArrived` and `Component.App.Load` require a non-empty list. In the code the card would render nothing (components/QuestionCard.tsx:13), so no answer could be given at all.
- Time is left out: the 2000 ms and 500 ms delays are events without durations. Each timer event is enabled only in the phase that armed it. There is no cancellation, since the code has none and replay is reachable only after the timer has fired.
- Async/await and React hook mechanics are left out: `useEffect`, `useCallback`, batched and functional `setState`, and closures capturing the cells. Each handler is one atomic update. The initial mount's `loadQuestions` is the state `Quiz.Initial`, which its reset leaves unchanged. A second mount-time load, as in a development double mount, is not modelled.
- components/QuestionCard.tsx, the overlays' styling, the CSS keyframes and `console.error` logging are left out as presentation only. The card's props and the overlays' visibility are modelled in `Render`.
