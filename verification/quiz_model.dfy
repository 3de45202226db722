/** Model mode (`quiz_model.py`): sample dataset rows, split them into
    multiple-choice and short-answer questions, and assemble each quiz entry.
    The neural models are parameters: question generation and grammar
    correction are string functions, each question-answering pipeline maps a
    (question, context) pair to an answer with a confidence or a failure, and
    sentence embeddings enter only through a similarity function. */
module QuizModel {
  import opened Base
  import opened Seqs
  import opened Draws
  import opened Ranking
  import opened PyStr
  import opened Items
  import opened DataModel

  /** A QA answer replaces the dataset answer only above this confidence. */
  const QaThreshold: real := 0.3
  /** `get_distractors`' default `top_k`. */
  const DistractorTopK: nat := 3
  const NoSamples: string := "No matching samples found"
  const SampleRangeMessage: string := "Sample larger than population or is negative"

  // ---------------------------------------------------------------------------
  // Question types

  /** Six tenths of the count, truncated toward zero as `int` does, in integer
      arithmetic. */
  function SixTenths(numQ: int): int {
    if numQ >= 0 then numQ * 6 / 10 else -((-numQ) * 6 / 10)
  }

  /** How many questions are multiple choice: six tenths of the count,
      truncated, but at least one. */
  function McqCount(numQ: int): (m: int)
    ensures m >= 1
    ensures numQ >= 1 ==> m <= numQ
    ensures numQ >= 2 ==> m < numQ
  {
    Max(1, SixTenths(numQ))
  }

  /** From two questions on, the multiple-choice share is the largest whole
      number not above six tenths of the count. */
  lemma McqCountIsSixTenths(numQ: int)
    requires numQ >= 2
    ensures 10 * McqCount(numQ) <= 6 * numQ < 10 * (McqCount(numQ) + 1)
  {
  }

  /** `[x] * k`: empty for `k <= 0`. */
  function Repeat(x: string, k: int): (r: seq<string>)
    ensures |r| == Max(0, k)
    ensures forall i :: 0 <= i < |r| ==> r[i] == x
    decreases Max(0, k)
  {
    if k <= 0 then [] else [x] + Repeat(x, k - 1)
  }

  lemma {:induction false} RepeatCount(x: string, k: int, y: string)
    ensures Count(Repeat(x, k), y) == if y == x then Max(0, k) else 0
    decreases Max(0, k)
  {
    if k > 0 {
      RepeatCount(x, k - 1, y);
      assert Repeat(x, k) == [x] + Repeat(x, k - 1);
    }
  }

  /** The unshuffled type list: `McqCount(numQ)` copies of "mcq" followed by
      the remaining count of "short_answer". */
  function TypeList(numQ: int): (r: seq<string>)
    ensures Count(r, Mcq) == McqCount(numQ)
    ensures Count(r, ShortAnswer) == Max(0, numQ - McqCount(numQ))
    ensures numQ >= 1 ==> |r| == numQ
    ensures forall i :: 0 <= i < |r| ==> r[i] == Mcq || r[i] == ShortAnswer
  {
    var m := McqCount(numQ);
    RunsCount(m, numQ - m);
    Repeat(Mcq, m) + Repeat(ShortAnswer, numQ - m)
  }

  /** A run of `m` "mcq" followed by a run of `k` "short_answer" holds exactly
      those many of each, and nothing else. */
  lemma RunsCount(m: int, k: int)
    ensures var r := Repeat(Mcq, m) + Repeat(ShortAnswer, k);
      && |r| == Max(0, m) + Max(0, k)
      && Count(r, Mcq) == Max(0, m) && Count(r, ShortAnswer) == Max(0, k)
      && forall i :: 0 <= i < |r| ==> r[i] == Mcq || r[i] == ShortAnswer
  {
    var r := Repeat(Mcq, m) + Repeat(ShortAnswer, k);
    RepeatCount(Mcq, m, Mcq);
    RepeatCount(Mcq, m, ShortAnswer);
    RepeatCount(ShortAnswer, k, Mcq);
    RepeatCount(ShortAnswer, k, ShortAnswer);
    CountAppend(Repeat(Mcq, m), Repeat(ShortAnswer, k), Mcq);
    CountAppend(Repeat(Mcq, m), Repeat(ShortAnswer, k), ShortAnswer);
  }

  /** After `random.shuffle(types)` the list still holds `McqCount(numQ)`
      multiple-choice types and the rest short-answer ones. */
  lemma ShuffledTypeCounts(numQ: int, order: seq<nat>)
    ensures Count(Shuffle(TypeList(numQ), order), Mcq) == McqCount(numQ)
    ensures Count(Shuffle(TypeList(numQ), order), ShortAnswer) == Max(0, numQ - McqCount(numQ))
    ensures numQ >= 1 ==> |Shuffle(TypeList(numQ), order)| == numQ
  {
  }

  // ---------------------------------------------------------------------------
  // Question generation

  /** The question-generation prompt filled in for one row; a short-answer
      question is generated with the context itself as its answer. */
  function Prompt(goal: string, context: string, answer: string, qtype: string): string {
    "generate question: domain: " + goal + " context: " + context + " answer: " +
    (if qtype == ShortAnswer then context else answer)
  }

  // ---------------------------------------------------------------------------
  // QA answer extraction

  /** What one QA pipeline does on one (question, context) pair. */
  datatype QaOutcome = QaFailed | QaAnswer(answer: string, score: real)

  /** What each QA pipeline answers for the question and context, in pipeline
      order. */
  function Outcomes(models: seq<(string, string) -> QaOutcome>, q: string, ctx: string): (r: seq<QaOutcome>)
    ensures |r| == |models|
  {
    seq(|models|, j requires 0 <= j < |models| => models[j](q, ctx))
  }

  /** The loop over the QA models: an answer replaces the best so far only
      when its score is strictly higher; failing models are skipped. */
  function BestOf(outs: seq<QaOutcome>, best: string, bestScore: real): (string, real) {
    if |outs| == 0 then (best, bestScore)
    else match outs[0]
      case QaAnswer(a, s) =>
        if s > bestScore then BestOf(outs[1..], a, s) else BestOf(outs[1..], best, bestScore)
      case QaFailed => BestOf(outs[1..], best, bestScore)
  }

  /** The highest score among the answers and `floor`. */
  function Peak(outs: seq<QaOutcome>, floor: real): real {
    if |outs| == 0 then floor
    else Peak(outs[1..], if outs[0].QaAnswer? && outs[0].score > floor then outs[0].score else floor)
  }

  /** The answer of the first outcome scoring exactly `v`. */
  function FirstScoring(outs: seq<QaOutcome>, v: real): Option<string> {
    if |outs| == 0 then None
    else if outs[0].QaAnswer? && outs[0].score == v then Some(outs[0].answer)
    else FirstScoring(outs[1..], v)
  }

  /** `Peak` is the maximum: no answer scores above it, and unless it is the
      floor some answer reaches it. */
  lemma {:induction false} PeakIsMax(outs: seq<QaOutcome>, floor: real)
    ensures Peak(outs, floor) >= floor
    ensures forall j :: 0 <= j < |outs| && outs[j].QaAnswer? ==> outs[j].score <= Peak(outs, floor)
    ensures Peak(outs, floor) > floor ==> FirstScoring(outs, Peak(outs, floor)).Some?
  {
    if |outs| > 0 {
      var f := if outs[0].QaAnswer? && outs[0].score > floor then outs[0].score else floor;
      PeakIsMax(outs[1..], f);
      forall j | 0 <= j < |outs| && outs[j].QaAnswer? ensures outs[j].score <= Peak(outs, floor) {
        if j > 0 {
          assert outs[j] == outs[1..][j - 1];
        }
      }
    }
  }

  /** The loop ends holding the first answer with the top score when that
      score beats the starting one, and its starting values otherwise. */
  lemma {:induction false} BestOfIsFirstPeak(outs: seq<QaOutcome>, best: string, floor: real)
    ensures var p := Peak(outs, floor);
      && (p > floor ==> FirstScoring(outs, p).Some? && BestOf(outs, best, floor) == (FirstScoring(outs, p).value, p))
      && (p <= floor ==> BestOf(outs, best, floor) == (best, floor))
  {
    PeakIsMax(outs, floor);
    if |outs| > 0 {
      var o := outs[0];
      if o.QaAnswer? && o.score > floor {
        BestOfIsFirstPeak(outs[1..], o.answer, o.score);
        PeakIsMax(outs[1..], o.score);
      } else {
        BestOfIsFirstPeak(outs[1..], best, floor);
        PeakIsMax(outs[1..], floor);
      }
    }
  }

  /** The answer kept for one question: the first answer with the highest
      score if that score exceeds the threshold, otherwise the dataset answer. */
  function ChooseAnswer(models: seq<(string, string) -> QaOutcome>, ctx: string, q: string, orig: string): (r: string)
    ensures var outs := Outcomes(models, q, ctx); var p := Peak(outs, 0.0);
      && (p > QaThreshold ==> FirstScoring(outs, p) == Some(r))
      && (p <= QaThreshold ==> r == orig)
  {
    var outs := Outcomes(models, q, ctx);
    BestOfIsFirstPeak(outs, orig, 0.0);
    var (best, bestScore) := BestOf(outs, orig, 0.0);
    if bestScore > QaThreshold then best else orig
  }

  /** `extract_answers_with_qa`: one answer per zipped (context, question,
      original) triple. */
  function ExtractAnswersWithQa(contexts: seq<string>, questions: seq<string>, originals: seq<string>,
                                models: seq<(string, string) -> QaOutcome>): (r: seq<string>)
    ensures |r| == Min(|contexts|, Min(|questions|, |originals|))
    ensures forall i :: 0 <= i < |r| ==>
      var outs := Outcomes(models, questions[i], contexts[i]); var p := Peak(outs, 0.0);
      && (p > QaThreshold ==> FirstScoring(outs, p) == Some(r[i]))
      && (p <= QaThreshold ==> r[i] == originals[i])
  {
    var n := Min(|contexts|, Min(|questions|, |originals|));
    seq(n, i requires 0 <= i < n => ChooseAnswer(models, contexts[i], questions[i], originals[i]))
  }

  // ---------------------------------------------------------------------------
  // Distractors

  /** Similarity of each pool entry to the answer. */
  function SimScores(answer: string, pool: seq<string>, sim: (string, string) -> real): (r: seq<real>)
    ensures |r| == |pool|
  {
    seq(|pool|, j requires 0 <= j < |pool| => sim(answer, pool[j]))
  }

  /** The `k` pool entries most similar to the answer, best first; ties keep
      pool order. */
  function Nearest(answer: string, pool: seq<string>, sim: (string, string) -> real, k: nat): (r: seq<string>)
    ensures |r| == Min(k, |pool|)
    ensures forall i :: 0 <= i < |r| ==> r[i] in pool
    ensures multiset(r) <= multiset(pool)
    ensures forall i, y :: 0 <= i < |r| && y in pool && y !in r ==> sim(answer, y) <= sim(answer, r[i])
  {
    var scores := SimScores(answer, pool, sim);
    var top := TopK(scores, k);
    var r := seq(|top|, i requires 0 <= i < |top| => pool[top[i]]);
    TopKOrder(scores, k);
    PickSubMultiset(pool, top, r);
    NearestDominates(answer, pool, sim, top, r);
    r
  }

  lemma NearestDominates(answer: string, pool: seq<string>, sim: (string, string) -> real, top: seq<nat>, r: seq<string>)
    requires forall i :: 0 <= i < |top| ==> top[i] < |pool|
    requires |r| == |top| && forall i :: 0 <= i < |top| ==> r[i] == pool[top[i]]
    requires var scores := SimScores(answer, pool, sim);
      forall a, y :: 0 <= a < |top| && 0 <= y < |scores| && y !in top ==> Before(scores, top[a], y)
    ensures forall i, y :: 0 <= i < |r| && y in pool && y !in r ==> sim(answer, y) <= sim(answer, r[i])
  {
    var scores := SimScores(answer, pool, sim);
    forall i, y | 0 <= i < |r| && y in pool && y !in r ensures sim(answer, y) <= sim(answer, r[i]) {
      var q :| 0 <= q < |pool| && pool[q] == y;
      forall a | 0 <= a < |top| ensures top[a] != q {
        assert r[a] in r;
      }
      assert q < |scores| && q !in top;
      assert Before(scores, top[i], q);
    }
  }

  /** `get_distractors(answers, pools)`: an empty pool gives no distractors;
      any other pool gives its entries most similar to the matching answer.
      A non-empty pool without a matching answer raises `IndexError`. */
  function GetDistractors(answers: seq<string>, pools: seq<seq<string>>, sim: (string, string) -> real, k: nat)
    : (r: Result<seq<seq<string>>, PyError>)
    ensures r.Ok? <==> forall i :: 0 <= i < |pools| && |pools[i]| > 0 ==> i < |answers|
    ensures r.Err? ==> r.error.IndexError?
    ensures r.Ok? ==> |r.value| == |pools|
    ensures r.Ok? ==> forall i :: 0 <= i < |pools| && |pools[i]| == 0 ==> r.value[i] == []
    ensures r.Ok? ==> forall i :: 0 <= i < |pools| && |pools[i]| > 0 ==>
      && |r.value[i]| == Min(k, |pools[i]|)
      && (forall a :: 0 <= a < |r.value[i]| ==> r.value[i][a] in pools[i])
      && multiset(r.value[i]) <= multiset(pools[i])
      && (forall a, y :: 0 <= a < |r.value[i]| && y in pools[i] && y !in r.value[i] ==>
            sim(answers[i], y) <= sim(answers[i], r.value[i][a]))
  {
    if exists i :: 0 <= i < |pools| && |pools[i]| > 0 && i >= |answers| then
      Err(IndexError("index out of range"))
    else
      Ok(seq(|pools|, i requires 0 <= i < |pools| =>
        if |pools[i]| == 0 then [] else Nearest(answers[i], pools[i], sim, k)))
  }

  // ---------------------------------------------------------------------------
  // Options

  /** The options of a multiple-choice entry: the distractors followed by the
      answer, duplicates dropped keeping first occurrences, then shuffled. */
  function Options(dists: seq<string>, answer: string, order: seq<nat>): (r: seq<string>)
    ensures answer in r
    ensures Distinct(r)
    ensures forall i :: 0 <= i < |r| ==> r[i] in dists || r[i] == answer
    ensures forall i :: 0 <= i < |dists| ==> dists[i] in r
    ensures |r| >= 2 <==> exists i :: 0 <= i < |dists| && dists[i] != answer
  {
    var all := dists + [answer];
    DictFromKeysIsFirstOccurrences(all);
    var keys := DictFromKeys(all);
    assert all[|dists|] == answer;
    var r := Shuffle(keys, order);
    OptionsMembers(dists, answer, keys, r);
    OptionsCount(dists, answer, r);
    r
  }

  lemma OptionsMembers(dists: seq<string>, answer: string, keys: seq<string>, r: seq<string>)
    requires forall i :: 0 <= i < |keys| ==> keys[i] in dists + [answer]
    requires forall i :: 0 <= i < |dists + [answer]| ==> (dists + [answer])[i] in keys
    requires multiset(r) == multiset(keys)
    ensures answer in r
    ensures forall i :: 0 <= i < |r| ==> r[i] in dists || r[i] == answer
    ensures forall i :: 0 <= i < |dists| ==> dists[i] in r
  {
    var all := dists + [answer];
    assert all[|dists|] == answer;
    assert answer in multiset(keys);
    forall i | 0 <= i < |r| ensures r[i] in dists || r[i] == answer {
      assert r[i] in multiset(keys);
    }
    forall i | 0 <= i < |dists| ensures dists[i] in r {
      assert all[i] == dists[i];
      assert dists[i] in multiset(keys);
    }
  }

  lemma OptionsCount(dists: seq<string>, answer: string, r: seq<string>)
    requires answer in r && Distinct(r)
    requires forall i :: 0 <= i < |r| ==> r[i] in dists || r[i] == answer
    requires forall i :: 0 <= i < |dists| ==> dists[i] in r
    ensures |r| >= 2 <==> exists i :: 0 <= i < |dists| && dists[i] != answer
  {
    if exists i :: 0 <= i < |dists| && dists[i] != answer {
      var i :| 0 <= i < |dists| && dists[i] != answer;
      TwoMembers(r, dists[i], answer);
    }
    if |r| >= 2 {
      var x := if r[0] != answer then r[0] else r[1];
      assert x != answer;
      assert x in dists;
      var i :| 0 <= i < |dists| && dists[i] == x;
    }
  }

  // ---------------------------------------------------------------------------
  // Quiz assembly

  /** The neural models the quiz pipeline calls. */
  datatype Ml = Ml(
    generate: string -> string,
    correct: string -> string,
    qa: seq<(string, string) -> QaOutcome>,
    sim: (string, string) -> real)

  /** The random draws of one `run_model_quiz` call: the sample of rows, the
      shuffle of the type list, and one shuffle of options per entry. */
  datatype ModelDraws = ModelDraws(sample: seq<nat>, typeOrder: seq<nat>, optionOrders: seq<seq<nat>>)

  function OptionOrder(draws: ModelDraws, i: nat): seq<nat> {
    if i < |draws.optionOrders| then draws.optionOrders[i] else []
  }

  /** The response dictionary `{"goal", "difficulty", "questions"}`. */
  datatype ModelQuiz = ModelQuiz(goal: string, difficulty: string, questions: seq<Item>)

  /** One quiz entry built from `row`. A multiple-choice entry carries the
      QA answer and the options; a short-answer entry carries the stripped
      context as its answer and has no `"options"` key. */
  function BuildEntry(row: Item, qtype: string, question: string, answer: string,
                      dists: seq<string>, order: seq<nat>): (e: Item)
    requires row.context.Some?
    requires forall a :: 0 <= a < |dists| ==> dists[a] in row.distractors.GetOr([])
    ensures Built(e, row, qtype)
    ensures e.question == Some(question)
    ensures qtype == Mcq ==>
      && e.answer == Some(answer) && e.options.Some?
      && (forall a :: 0 <= a < |dists| ==> dists[a] in e.options.value)
      && (forall o :: o in e.options.value ==> o in dists || o == answer)
  {
    var e := EmptyItem.(
      qtype := Some(qtype),
      question := Some(question),
      answer := Some(if qtype == Mcq then answer else Strip(row.context.value)),
      topic := Some(Get(row.topic)),
      difficulty := Some(Get(row.difficulty)),
      options := if qtype == Mcq then Some(Options(dists, answer, order)) else None);
    assert qtype == Mcq ==> forall o :: o in e.options.value ==> o in row.distractors.GetOr([]) || o == answer;
    e
  }

  /** Every selected row has the two keys read with `q[...]`. */
  predicate HasRequiredKeys(q: Item) {
    q.context.Some? && q.correctAnswer.Some?
  }

  /** An entry carries the generated question; a multiple-choice one answers
      with the given answer and offers every given distractor. */
  predicate Generated(e: Item, qtype: string, question: string, answer: string, dists: seq<string>) {
    && e.question == Some(question)
    && (qtype == Mcq ==>
          && e.answer == Some(answer) && e.options.Some?
          && forall a :: 0 <= a < |dists| ==> dists[a] in e.options.value)
  }

  /** The stripped contexts of the selected rows. */
  function Contexts(selected: seq<Item>): (r: seq<string>)
    requires forall i :: 0 <= i < |selected| ==> selected[i].context.Some?
    ensures |r| == |selected|
  {
    seq(|selected|, i requires 0 <= i < |selected| => Strip(selected[i].context.value))
  }

  /** The stripped dataset answers of the selected rows. */
  function OriginalAnswers(selected: seq<Item>): (r: seq<string>)
    requires forall i :: 0 <= i < |selected| ==> selected[i].correctAnswer.Some?
    ensures |r| == |selected|
  {
    seq(|selected|, i requires 0 <= i < |selected| => Strip(selected[i].correctAnswer.value))
  }

  /** The distractor pools of the selected rows, empty when a row has none. */
  function Pools(selected: seq<Item>): (r: seq<seq<string>>)
    ensures |r| == |selected|
  {
    seq(|selected|, i requires 0 <= i < |selected| => selected[i].distractors.GetOr([]))
  }

  /** The generated questions after grammar correction, one per row. */
  function Questions(goal: string, selected: seq<Item>, types: seq<string>, ml: Ml): (r: seq<string>)
    requires |types| >= |selected|
    requires forall i :: 0 <= i < |selected| ==> selected[i].context.Some? && selected[i].correctAnswer.Some?
    ensures |r| == |selected|
  {
    var contexts := Contexts(selected);
    var origAns := OriginalAnswers(selected);
    seq(|selected|, i requires 0 <= i < |selected| =>
      ml.correct("gec: " + ml.generate(Prompt(goal, contexts[i], origAns[i], types[i]))))
  }

  /** The answers `extract_answers_with_qa` gives for the rows' contexts,
      the generated questions and the dataset answers. */
  function Answers(goal: string, selected: seq<Item>, types: seq<string>, ml: Ml): (r: seq<string>)
    requires |types| >= |selected|
    requires forall i :: 0 <= i < |selected| ==> selected[i].context.Some? && selected[i].correctAnswer.Some?
    ensures |r| == |selected|
  {
    ExtractAnswersWithQa(Contexts(selected), Questions(goal, selected, types, ml), OriginalAnswers(selected), ml.qa)
  }

  /** The distractors `get_distractors` picks for those answers from the
      rows' pools. */
  function Distractors(goal: string, selected: seq<Item>, types: seq<string>, ml: Ml): (r: seq<seq<string>>)
    requires |types| >= |selected|
    requires forall i :: 0 <= i < |selected| ==> selected[i].context.Some? && selected[i].correctAnswer.Some?
    ensures |r| == |selected|
    ensures GetDistractors(Answers(goal, selected, types, ml), Pools(selected), ml.sim, DistractorTopK) == Ok(r)
    ensures forall i :: 0 <= i < |r| ==> forall a :: 0 <= a < |r[i]| ==> r[i][a] in Pools(selected)[i]
  {
    var d := GetDistractors(Answers(goal, selected, types, ml), Pools(selected), ml.sim, DistractorTopK);
    assert d.Ok?;
    d.value
  }

  /** The entries built for the selected rows, from the shuffled types on.
      Entry `i` carries the `i`-th generated question; a multiple-choice entry
      answers with the `i`-th QA answer and offers the `i`-th distractors. */
  function Assemble(goal: string, selected: seq<Item>, types: seq<string>, ml: Ml, draws: ModelDraws): (r: seq<Item>)
    requires |types| >= |selected|
    requires forall i :: 0 <= i < |selected| ==> selected[i].context.Some? && selected[i].correctAnswer.Some?
    ensures |r| == |selected|
    ensures forall i :: 0 <= i < |r| ==> Built(r[i], selected[i], types[i])
    ensures forall i :: 0 <= i < |r| ==>
      Generated(r[i], types[i], Questions(goal, selected, types, ml)[i],
                Answers(goal, selected, types, ml)[i], Distractors(goal, selected, types, ml)[i])
  {
    var n := |selected|;
    var questions := Questions(goal, selected, types, ml);
    var answers := Answers(goal, selected, types, ml);
    var dists := Distractors(goal, selected, types, ml);
    seq(n, i requires 0 <= i < n =>
      BuildEntry(selected[i], types[i], questions[i], answers[i], dists[i], OptionOrder(draws, i)))
  }

  /** `e` is the entry of type `t` built from `row`: it copies the row's topic
      and difficulty; a multiple-choice entry answers with one of its distinct
      options, all drawn from the row's distractors and the answer; any other
      entry answers with the row's stripped context and has no options. */
  predicate Built(e: Item, row: Item, t: string) {
    && e.qtype == Some(t)
    && e.question.Some?
    && e.topic == Some(Get(row.topic))
    && e.difficulty == Some(Get(row.difficulty))
    && (t == Mcq ==>
          && e.answer.Some? && e.options.Some?
          && e.answer.value in e.options.value
          && Distinct(e.options.value)
          && (forall o :: o in e.options.value ==> o in row.distractors.GetOr([]) || o == e.answer.value))
    && (t != Mcq ==>
          row.context.Some? && e.answer == Some(Strip(row.context.value)) && e.options == None)
  }

  /** The type list shuffled by the type draws: entry `i` of a quiz gets
      type `i`. */
  function ShuffledTypes(numQ: nat, draws: ModelDraws): seq<string> {
    Shuffle(TypeList(numQ), draws.typeOrder)
  }

  /** Entry `i` of `r` is built from row `i` with type `i`, and carries the
      `i`-th generated question and, when multiple-choice, the `i`-th QA
      answer and every one of the `i`-th distractors. */
  predicate AssembledFrom(r: seq<Item>, goal: string, selected: seq<Item>, types: seq<string>, ml: Ml) {
    && |r| == |selected| <= |types|
    && (forall i :: 0 <= i < |selected| ==> selected[i].context.Some? && selected[i].correctAnswer.Some?)
    && (forall i :: 0 <= i < |r| ==> Built(r[i], selected[i], types[i]))
    && (forall i :: 0 <= i < |r| ==>
          Generated(r[i], types[i], Questions(goal, selected, types, ml)[i],
                    Answers(goal, selected, types, ml)[i], Distractors(goal, selected, types, ml)[i]))
  }

  /** The rows `random.sample(pool, k)` returns for the sample draws. */
  function Selected(pool: seq<Item>, k: nat, draws: ModelDraws): (r: seq<Item>)
    requires k <= |pool|
    ensures |r| == k
  {
    var p := SamplePositions(|pool|, k, draws.sample);
    seq(k, i requires 0 <= i < k => pool[p[i]])
  }

  /** The shape every quiz entry has: it has a question, a topic and a
      difficulty, and its type is one of the two. */
  predicate EntryShape(e: Item) {
    && e.question.Some? && e.topic.Some? && e.difficulty.Some?
    && EntryKind(e)
  }

  /** A multiple-choice entry has an answer among its distinct options; a
      short-answer entry has an answer and no options. */
  predicate EntryKind(e: Item) {
    || (e.qtype == Some(Mcq) && e.answer.Some? && e.options.Some? &&
        e.answer.value in e.options.value && Distinct(e.options.value))
    || (e.qtype == Some(ShortAnswer) && e.answer.Some? && e.options == None)
  }

  /** The entries for rows that have both required keys: the type list is
      shuffled and the entries are assembled in sample order. */
  function Entries(goal: string, numQ: nat, selected: seq<Item>, ml: Ml, draws: ModelDraws): (r: seq<Item>)
    requires |selected| <= numQ
    requires forall i :: 0 <= i < |selected| ==> selected[i].context.Some? && selected[i].correctAnswer.Some?
    ensures |r| == |selected|
    ensures forall i :: 0 <= i < |r| ==> EntryShape(r[i])
    ensures forall i :: 0 <= i < |r| ==> FromRow(r[i], selected[i])
    ensures 1 <= numQ == |selected| ==> multiset(TypeNames(r)) == multiset(TypeList(numQ))
    ensures AssembledFrom(r, goal, selected, ShuffledTypes(numQ, draws), ml)
  {
    var types := Shuffle(TypeList(numQ), draws.typeOrder);
    ShuffledTypesValid(numQ, draws.typeOrder);
    AssembledShapes(goal, selected, types, ml, draws);
    AssembledTypes(goal, numQ, selected, types, ml, draws);
    Assemble(goal, selected, types, ml, draws)
  }

  /** A full sample uses every shuffled type once, in order. */
  lemma AssembledTypes(goal: string, numQ: nat, selected: seq<Item>, types: seq<string>, ml: Ml, draws: ModelDraws)
    requires |types| >= |selected|
    requires multiset(types) == multiset(TypeList(numQ))
    requires forall i :: 0 <= i < |selected| ==> selected[i].context.Some? && selected[i].correctAnswer.Some?
    requires forall i :: 0 <= i < |Assemble(goal, selected, types, ml, draws)| ==>
      Get(Assemble(goal, selected, types, ml, draws)[i].qtype) == types[i]
    ensures 1 <= numQ == |selected| ==>
      multiset(TypeNames(Assemble(goal, selected, types, ml, draws))) == multiset(TypeList(numQ))
  {
    if 1 <= numQ == |selected| {
      var r := Assemble(goal, selected, types, ml, draws);
      assert |types| == numQ by {
        assert |multiset(types)| == |types|;
      }
      assert TypeNames(r) == types;
    }
  }

  /** The names of the entries' types. */
  function TypeNames(qs: seq<Item>): (r: seq<string>)
    ensures |r| == |qs|
  {
    seq(|qs|, i requires 0 <= i < |qs| => Get(qs[i].qtype))
  }

  /** An entry built from `row`: it copies the row's topic and difficulty,
      and a short-answer entry answers with the row's stripped context. */
  predicate FromRow(e: Item, row: Item) {
    && e.topic == Some(Get(row.topic))
    && e.difficulty == Some(Get(row.difficulty))
    && (e.qtype == Some(ShortAnswer) ==> row.context.Some? && e.answer == Some(Strip(row.context.value)))
  }

  /** The part of `run_model_quiz` after filtering, on a non-empty pool:
      sample, read the two required keys (all contexts first), and assemble
      the entries. */
  function QuizFromPool(goal: string, numQ: nat, pool: seq<Item>, ml: Ml, draws: ModelDraws): (r: Result<seq<Item>, PyError>)
    ensures (forall i :: 0 <= i < |pool| ==> HasRequiredKeys(pool[i])) ==> r.Ok?
    ensures r.Err? ==> r.error == KeyError("context") || r.error == KeyError("correct_answer")
    ensures r.Ok? ==> |r.value| == Min(numQ, |pool|)
    ensures r.Ok? ==> forall i :: 0 <= i < |r.value| ==> EntryShape(r.value[i])
    ensures r.Ok? ==> forall i :: 0 <= i < |r.value| ==> FromRow(r.value[i], Selected(pool, Min(numQ, |pool|), draws)[i])
    ensures r.Ok? && 1 <= numQ <= |pool| ==> multiset(TypeNames(r.value)) == multiset(TypeList(numQ))
    ensures r.Ok? ==> AssembledFrom(r.value, goal, Selected(pool, Min(numQ, |pool|), draws), ShuffledTypes(numQ, draws), ml)
    ensures var s := Selected(pool, Min(numQ, |pool|), draws);
      && (r.Ok? <==> forall i :: 0 <= i < |s| ==> HasRequiredKeys(s[i]))
      && ((exists i :: 0 <= i < |s| && s[i].context.None?) ==> r == Err(KeyError("context")))
  {
    SelectedKeys(pool, Min(numQ, |pool|), draws);
    QuizFromRows(goal, numQ, Selected(pool, Min(numQ, |pool|), draws), ml, draws)
  }

  /** The quiz for the sampled rows, or the `KeyError` of a missing key. */
  function QuizFromRows(goal: string, numQ: nat, selected: seq<Item>, ml: Ml, draws: ModelDraws): (r: Result<seq<Item>, PyError>)
    requires |selected| <= numQ
    ensures r.Ok? <==> forall i :: 0 <= i < |selected| ==> HasRequiredKeys(selected[i])
    ensures r.Err? ==> r.error == KeyError("context") || r.error == KeyError("correct_answer")
    ensures (exists i :: 0 <= i < |selected| && selected[i].context.None?) ==> r == Err(KeyError("context"))
    ensures r.Ok? ==> |r.value| == |selected|
    ensures r.Ok? ==> forall i :: 0 <= i < |r.value| ==> EntryShape(r.value[i]) && FromRow(r.value[i], selected[i])
    ensures r.Ok? && 1 <= numQ == |selected| ==> multiset(TypeNames(r.value)) == multiset(TypeList(numQ))
    ensures r.Ok? ==> AssembledFrom(r.value, goal, selected, ShuffledTypes(numQ, draws), ml)
  {
    match MissingKey(selected)
    case Some(e) => Err(e)
    case None => Ok(Entries(goal, numQ, selected, ml, draws))
  }

  /** The `KeyError` of the first comprehension that reads a missing key:
      all contexts are read before any answer. */
  function MissingKey(rows: seq<Item>): (r: Option<PyError>)
    ensures r.None? <==> forall i :: 0 <= i < |rows| ==> HasRequiredKeys(rows[i])
    ensures r.Some? ==> r.value == KeyError("context") || r.value == KeyError("correct_answer")
    ensures (exists i :: 0 <= i < |rows| && rows[i].context.None?) ==> r == Some(KeyError("context"))
    ensures r == Some(KeyError("correct_answer")) ==> forall i :: 0 <= i < |rows| ==> rows[i].context.Some?
  {
    if exists i :: 0 <= i < |rows| && rows[i].context.None? then Some(KeyError("context"))
    else if exists i :: 0 <= i < |rows| && rows[i].correctAnswer.None? then Some(KeyError("correct_answer"))
    else None
  }

  /** Rows sampled from a pool whose rows all have both keys have both keys. */
  lemma SelectedKeys(pool: seq<Item>, k: nat, draws: ModelDraws)
    requires k <= |pool|
    ensures (forall i :: 0 <= i < |pool| ==> HasRequiredKeys(pool[i])) ==>
      forall i :: 0 <= i < |Selected(pool, k, draws)| ==> HasRequiredKeys(Selected(pool, k, draws)[i])
  {
    SelectedFromPool(pool, k, draws);
  }

  lemma ShuffledTypesValid(numQ: nat, order: seq<nat>)
    ensures |Shuffle(TypeList(numQ), order)| >= numQ
    ensures forall i :: 0 <= i < |Shuffle(TypeList(numQ), order)| ==>
      Shuffle(TypeList(numQ), order)[i] == Mcq || Shuffle(TypeList(numQ), order)[i] == ShortAnswer
  {
    var t := TypeList(numQ);
    var s := Shuffle(t, order);
    forall i | 0 <= i < |s| ensures s[i] == Mcq || s[i] == ShortAnswer {
      assert s[i] in t;
    }
  }

  lemma AssembledShapes(goal: string, selected: seq<Item>, types: seq<string>, ml: Ml, draws: ModelDraws)
    requires |types| >= |selected|
    requires forall i :: 0 <= i < |selected| ==> selected[i].context.Some? && selected[i].correctAnswer.Some?
    requires forall i :: 0 <= i < |types| ==> types[i] == Mcq || types[i] == ShortAnswer
    ensures forall i :: 0 <= i < |Assemble(goal, selected, types, ml, draws)| ==>
      EntryShape(Assemble(goal, selected, types, ml, draws)[i]) &&
      FromRow(Assemble(goal, selected, types, ml, draws)[i], selected[i])
    ensures forall i :: 0 <= i < |Assemble(goal, selected, types, ml, draws)| ==>
      Get(Assemble(goal, selected, types, ml, draws)[i].qtype) == types[i]
  {
    var r := Assemble(goal, selected, types, ml, draws);
    forall i | 0 <= i < |r| ensures EntryShape(r[i]) && FromRow(r[i], selected[i]) {
      assert Built(r[i], selected[i], types[i]);
    }
  }

  lemma SelectedFromPool(pool: seq<Item>, k: nat, draws: ModelDraws)
    requires k <= |pool|
    ensures forall i :: 0 <= i < |Selected(pool, k, draws)| ==> Selected(pool, k, draws)[i] in pool
  {
  }

  /** `run_model_quiz(goal, difficulty, num_q)` on the rows of the dataset file,
      for the supported goals and difficulties of the configuration. */
  function RunModelQuiz(goal: string, difficulty: string, numQ: int,
                        goals: set<string>, difficulties: set<string>,
                        dataset: seq<Item>, ml: Ml, draws: ModelDraws): (r: Result<ModelQuiz, PyError>)
    ensures goal !in goals || difficulty !in difficulties ==>
      r == Err(ValueError("Invalid goal or difficulty: " + goal + ", " + difficulty))
    ensures goal in goals && difficulty in difficulties && FilterDataset(dataset, goal, difficulty) == [] ==>
      r == Err(RuntimeError(NoSamples))
    ensures goal in goals && difficulty in difficulties && FilterDataset(dataset, goal, difficulty) != [] && numQ < 0 ==>
      r == Err(ValueError(SampleRangeMessage))
    ensures (goal in goals && difficulty in difficulties && numQ >= 0 && FilterDataset(dataset, goal, difficulty) != [] &&
             forall i :: 0 <= i < |FilterDataset(dataset, goal, difficulty)| ==>
               HasRequiredKeys(FilterDataset(dataset, goal, difficulty)[i])) ==> r.Ok?
    ensures r.Ok? ==>
      && r.value.goal == goal && r.value.difficulty == difficulty
      && |r.value.questions| == Min(numQ, |FilterDataset(dataset, goal, difficulty)|)
      && forall i :: 0 <= i < |r.value.questions| ==> EntryShape(r.value.questions[i])
    ensures goal in goals && difficulty in difficulties && FilterDataset(dataset, goal, difficulty) != [] && numQ >= 0 && r.Err? ==>
      r.error == KeyError("context") || r.error == KeyError("correct_answer")
    ensures var pool := FilterDataset(dataset, goal, difficulty);
      r.Ok? ==> numQ >= 0 && AssembledFrom(r.value.questions, goal, Selected(pool, Min(numQ, |pool|), draws), ShuffledTypes(numQ, draws), ml)
  {
    if goal !in goals || difficulty !in difficulties then
      Err(ValueError("Invalid goal or difficulty: " + goal + ", " + difficulty))
    else
      var pool := FilterDataset(dataset, goal, difficulty);
      if |pool| == 0 then Err(RuntimeError(NoSamples))
      else if numQ < 0 then Err(ValueError(SampleRangeMessage))
      else
        match QuizFromPool(goal, numQ, pool, ml, draws)
        case Ok(qs) => Ok(ModelQuiz(goal, difficulty, qs))
        case Err(e) => Err(e)
  }

  /** Past the goal, pool and count checks, the quiz succeeds exactly when the
      sampled rows all have both keys; rows left out of the sample are never
      read, and a sampled row without a context gives `KeyError("context")`. */
  lemma RunModelQuizSucceeds(goal: string, difficulty: string, numQ: int,
                             goals: set<string>, difficulties: set<string>,
                             dataset: seq<Item>, ml: Ml, draws: ModelDraws)
    requires goal in goals && difficulty in difficulties && numQ >= 0
    requires FilterDataset(dataset, goal, difficulty) != []
    ensures var pool := FilterDataset(dataset, goal, difficulty);
      var s := Selected(pool, Min(numQ, |pool|), draws);
      var r := RunModelQuiz(goal, difficulty, numQ, goals, difficulties, dataset, ml, draws);
      && (r.Ok? <==> forall i :: 0 <= i < |s| ==> HasRequiredKeys(s[i]))
      && ((exists i :: 0 <= i < |s| && s[i].context.None?) ==> r == Err(KeyError("context")))
  {
    var pool := FilterDataset(dataset, goal, difficulty);
    var q := QuizFromPool(goal, numQ, pool, ml, draws);
    var r := RunModelQuiz(goal, difficulty, numQ, goals, difficulties, dataset, ml, draws);
    assert r == if q.Ok? then Ok(ModelQuiz(goal, difficulty, q.value)) else Err(q.error);
  }

  /** With at least as many matching rows as requested questions, the quiz has
      exactly `McqCount(numQ)` multiple-choice questions and the rest are
      short-answer. */
  lemma ModelQuizTypeSplit(goal: string, difficulty: string, numQ: int,
                           goals: set<string>, difficulties: set<string>,
                           dataset: seq<Item>, ml: Ml, draws: ModelDraws)
    requires RunModelQuiz(goal, difficulty, numQ, goals, difficulties, dataset, ml, draws).Ok?
    requires 1 <= numQ <= |FilterDataset(dataset, goal, difficulty)|
    ensures var qs := RunModelQuiz(goal, difficulty, numQ, goals, difficulties, dataset, ml, draws).value.questions;
      && Count(TypeNames(qs), Mcq) == McqCount(numQ)
      && Count(TypeNames(qs), ShortAnswer) == numQ - McqCount(numQ)
  {
    var pool := FilterDataset(dataset, goal, difficulty);
    var r := QuizFromPool(goal, numQ, pool, ml, draws);
    assert r.Ok?;
  }

  /** The entries come from distinct rows of the filtered pool, sampled
      without replacement, one entry per row in sample order. */
  lemma ModelQuizSamplesDistinctRows(goal: string, difficulty: string, numQ: int,
                                     goals: set<string>, difficulties: set<string>,
                                     dataset: seq<Item>, ml: Ml, draws: ModelDraws)
    requires RunModelQuiz(goal, difficulty, numQ, goals, difficulties, dataset, ml, draws).Ok?
    ensures var pool := FilterDataset(dataset, goal, difficulty);
      var qs := RunModelQuiz(goal, difficulty, numQ, goals, difficulties, dataset, ml, draws).value.questions;
      && numQ >= 0
      && var p := SamplePositions(|pool|, |qs|, draws.sample);
      && Distinct(p)
      && forall i :: 0 <= i < |qs| ==> p[i] < |pool| && FromRow(qs[i], pool[p[i]])
  {
    var pool := FilterDataset(dataset, goal, difficulty);
    var r := QuizFromPool(goal, numQ, pool, ml, draws);
    assert r.Ok?;
  }
}
