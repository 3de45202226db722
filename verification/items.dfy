/** A question record as the service handles it: a JSON object whose keys may
    be missing. Dataset rows, bank entries, retrieval picks (which gain a
    `"score"` key) and model-mode quiz entries are all such objects. */
module Items {
  import opened Base
  import opened PyStr

  const Mcq: string := "mcq"
  const ShortAnswer: string := "short_answer"

  /** The keys the service reads or writes; `None` is a missing key. Keys the
      code never reads are copied unchanged by `dict(q)` and are not modelled. */
  datatype Item = Item(
    context: Option<string>,
    question: Option<string>,
    correctAnswer: Option<string>,
    answer: Option<string>,
    options: Option<seq<string>>,
    distractors: Option<seq<string>>,
    topic: Option<string>,
    difficulty: Option<string>,
    goal: Option<string>,
    qtype: Option<string>,
    score: Option<real>)

  /** `q.get(key, "")` for a string-valued key. */
  function Get(field: Option<string>): string {
    field.GetOr("")
  }

  /** The object with no keys. */
  const EmptyItem: Item :=
    Item(None, None, None, None, None, None, None, None, None, None, None)

  /** The entry's goal, empty when missing, equals `goal` ignoring case. */
  predicate GoalIs(q: Item, goal: string) {
    Lower(Get(q.goal)) == Lower(goal)
  }

  /** The text a bank entry is indexed under, and the text a seed question is
      read as: its context and its question (each empty when missing) joined
      by a space, with surrounding whitespace stripped. */
  function QuestionText(q: Item): string {
    Strip(Get(q.context) + " " + Get(q.question))
  }
}
