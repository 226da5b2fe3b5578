/** The question supplier (services/geminiService.ts): one request to a
    generative provider, answered by the parsed question list or, on any
    failure, by a fixed list of three questions. */
module Supplier {
  import opened Questions

  /** What the provider call came to. `Parsed` is a response whose text
      parsed to an object with a `questions` list; `Failed` covers a
      rejected request, an empty response text, a parse error and a
      response that parses to `null` (reading its `questions` field
      throws). */
  datatype Reply = Parsed(questions: seq<Question>) | Failed

  /** The hard-coded questions returned from the catch branch. */
  const Fallback: seq<Question> := [
    Question("Is the sky blue?", true,
      "The sky appears blue because of how the Earth's atmosphere scatters sunlight."),
    Question("Is water a good conductor of electricity?", false,
      "Pure water is a poor conductor. It's the impurities and minerals in it that conduct electricity."),
    Question("Was Cleopatra Egyptian?", false,
      "Cleopatra was of Greek descent, a member of the Ptolemaic dynasty.")
  ]

  /** fetchQuestions: never fails outward. A parsed list is passed through
      as it is, without any check of its length or shape; a failure is
      replaced by the three well-formed fallback questions. */
  function Fetch(reply: Reply): (qs: seq<Question>)
    ensures reply.Parsed? ==> qs == reply.questions
    ensures reply.Failed? ==> |qs| == 3
    ensures reply.Failed? ==> forall i :: 0 <= i < |qs| ==> WellFormed(qs[i])
    ensures reply.Failed? ==> qs[0].answer && !qs[1].answer && !qs[2].answer
  {
    match reply
    case Parsed(questions) => questions
    case Failed => Fallback
  }
}
