/** The model-mode dataset: the shape rule `load_dataset` applies to the parsed
    JSON document, and `filter_dataset`, which keeps the rows of one goal and
    one difficulty. */
module DataModel {
  import opened Base
  import opened Seqs
  import opened PyStr
  import opened Items

  /** A parsed JSON document, as far as `load_dataset` looks at it: a list of
      rows, an object with named members, or anything else. */
  datatype Doc = ListDoc(rows: seq<Item>) | ObjectDoc(members: map<string, Doc>) | ScalarDoc

  /** The shape rule `load_dataset` applies to the parsed document: a list is
      the dataset itself, an object contributes its `"data"` member (an empty
      list when it has none), and on any other value the member lookup raises. */
  function LoadShape(doc: Doc): (r: Result<Doc, PyError>)
    ensures r.Ok? <==> !doc.ScalarDoc?
    ensures doc.ListDoc? ==> r == Ok(doc)
    ensures doc.ObjectDoc? && "data" !in doc.members ==> r == Ok(ListDoc([]))
    ensures doc.ObjectDoc? && "data" in doc.members ==> r == Ok(doc.members["data"])
  {
    match doc
    case ListDoc(_) => Ok(doc)
    case ObjectDoc(m) => Ok(if "data" in m then m["data"] else ListDoc([]))
    case ScalarDoc => Err(AttributeError("get"))
  }

  /** A list of rows loads the same whether it is the whole document or the
      `"data"` member of an object. */
  lemma LoadShapeDataWrapper(rows: seq<Item>, others: map<string, Doc>)
    ensures LoadShape(ObjectDoc(others["data" := ListDoc(rows)])) == LoadShape(ListDoc(rows))
  {
  }

  /** The row test of `filter_dataset` for the normalised goal `g`: the row's
      goal, lowercased, equals `g`, and its difficulty, lowercased, equals
      `diff`. A missing key counts as the empty string. */
  function Keeps(g: string, diff: string): Item -> bool {
    (q: Item) => Lower(Get(q.goal)) == g && Lower(Get(q.difficulty)) == diff
  }

  /** `filter_dataset(dataset, goal, diff)`. The requested goal is lowercased
      and stripped; the requested difficulty is used exactly as given. */
  function FilterDataset(dataset: seq<Item>, goal: string, diff: string): (r: seq<Item>)
    ensures forall i :: 0 <= i < |r| ==>
      r[i] in dataset &&
      Lower(Get(r[i].goal)) == Strip(Lower(goal)) &&
      Lower(Get(r[i].difficulty)) == diff
    ensures forall i ::
      (0 <= i < |dataset| &&
       Lower(Get(dataset[i].goal)) == Strip(Lower(goal)) &&
       Lower(Get(dataset[i].difficulty)) == diff) ==> dataset[i] in r
    ensures IsSubsequence(r, dataset)
    ensures forall q :: Count(r, q) ==
                        if Lower(Get(q.goal)) == Strip(Lower(goal)) && Lower(Get(q.difficulty)) == diff
                        then Count(dataset, q) else 0
  {
    FilterCounts(dataset, Keeps(Strip(Lower(goal)), diff));
    Filter(dataset, Keeps(Strip(Lower(goal)), diff))
  }

  /** Filtering the result again with the same arguments changes nothing. */
  lemma FilterDatasetIdempotent(dataset: seq<Item>, goal: string, diff: string)
    ensures FilterDataset(FilterDataset(dataset, goal, diff), goal, diff) == FilterDataset(dataset, goal, diff)
  {
    FilterIdempotent(dataset, Keeps(Strip(Lower(goal)), diff));
  }

  /** A difficulty with an upper-case letter matches no row, since it is
      compared with lowercased row difficulties without being lowercased. */
  lemma UpperCaseDifficultyMatchesNothing(dataset: seq<Item>, goal: string, diff: string, i: nat)
    requires i < |diff| && IsUpper(diff[i])
    ensures FilterDataset(dataset, goal, diff) == []
  {
    var r := FilterDataset(dataset, goal, diff);
    if |r| > 0 {
      UpperIsNoLowerForm(Get(r[0].difficulty), diff, i);
    }
  }

  /** The requested goal matters only through its lowercased, stripped form:
      `" AWS Cloud "` and `"aws cloud"` select the same rows. */
  lemma GoalIsNormalised(dataset: seq<Item>, goal1: string, goal2: string, diff: string)
    requires Strip(Lower(goal1)) == Strip(Lower(goal2))
    ensures FilterDataset(dataset, goal1, diff) == FilterDataset(dataset, goal2, diff)
  {
  }

  /** Filtering distributes over concatenated datasets. */
  lemma FilterDatasetAppend(a: seq<Item>, b: seq<Item>, goal: string, diff: string)
    ensures FilterDataset(a + b, goal, diff) == FilterDataset(a, goal, diff) + FilterDataset(b, goal, diff)
  {
    FilterAppend(a, b, Keeps(Strip(Lower(goal)), diff));
  }
}
