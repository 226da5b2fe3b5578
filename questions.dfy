/** The question record shared by the supplier, the game and the view. */
module Questions {

  /** A yes/no trivia item: the prompt, the true answer (true is "Yes") and
      the explanation shown after a correct answer. */
  datatype Question = Question(question: string, answer: bool, explanation: string)

  /** The shape the supplier's schema asks the provider for: non-empty
      prompt and explanation. Nothing in the code checks it. */
  predicate WellFormed(q: Question) {
    q.question != "" && q.explanation != ""
  }

  datatype Option<T> = None | Some(value: T)
}
