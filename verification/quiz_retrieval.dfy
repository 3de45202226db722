/** Retrieval mode (`quiz_retrieval.py`): pick a seed question of the goal,
    extract topics from it, and let the matcher choose the quiz. The topic
    extractor is a parameter mapping a text to its topics. */
module QuizRetrieval {
  import opened Base
  import opened Seqs
  import opened PyStr
  import opened Items
  import opened QuestionMatcher

  /** The types a retrieval quiz asks the matcher for. */
  const QuizTypes: seq<string> := [Mcq, ShortAnswer]

  function GoalTest(goal: string): Item -> bool {
    (q: Item) => GoalIs(q, goal)
  }

  /** `goal_questions`: the bank entries of the goal, ignoring case, in bank
      order. */
  function GoalQuestions(bank: seq<Item>, goal: string): (r: seq<Item>)
    ensures forall i :: 0 <= i < |r| ==> r[i] in bank && GoalIs(r[i], goal)
    ensures forall i :: 0 <= i < |bank| && GoalIs(bank[i], goal) ==> bank[i] in r
  {
    Filter(bank, GoalTest(goal))
  }

  /** The seed question: a uniform choice among the goal's questions, fixed by
      the draw `c`. */
  function ChooseSeed(questions: seq<Item>, c: nat): (r: Item)
    requires |questions| > 0
    ensures r in questions
  {
    questions[c % |questions|]
  }

  /** The topics of the seed question, or the lowercased goal when the
      extractor finds none. */
  function SeedTopics(seed: Item, goal: string, extract: string -> seq<string>): (r: seq<string>)
    ensures |r| > 0
    ensures |extract(QuestionText(seed))| > 0 ==> r == extract(QuestionText(seed))
  {
    var found := extract(QuestionText(seed));
    if |found| > 0 then found else [Lower(goal)]
  }

  /** The random draws of one `retrieve_quiz` call. */
  datatype RetrievalDraws = RetrievalDraws(seed: nat, matching: MatchDraws)

  /** The arguments `retrieve_quiz` passes to `match`. */
  datatype MatchCall = MatchCall(topics: seq<string>, goal: string, maxQ: int,
                                 difficulty: Option<string>, qTypes: Option<seq<string>>)

  /** The call to `match`, or `None` when the goal has no questions. The
      requested count becomes `max_q`, the difficulty is always passed, and
      the types are always the two quiz types. */
  function Plan(bank: seq<Item>, goal: string, difficulty: string, num: int,
                extract: string -> seq<string>, draws: RetrievalDraws): (r: Option<MatchCall>)
    ensures r.None? <==> forall i :: 0 <= i < |bank| ==> !GoalIs(bank[i], goal)
    ensures r.Some? ==> r.value.goal == goal && r.value.maxQ == num && r.value.difficulty == Some(difficulty) &&
                        r.value.qTypes == Some(QuizTypes) && |r.value.topics| > 0
  {
    var questions := GoalQuestions(bank, goal);
    if |questions| == 0 then None
    else
      var seed := ChooseSeed(questions, draws.seed);
      Some(MatchCall(SeedTopics(seed, goal, extract), goal, num, Some(difficulty), Some(QuizTypes)))
  }

  /** What an entry of a retrieval quiz satisfies: it is of the goal, of the
      difficulty when that is not empty, and of one of the two quiz types. */
  predicate Fits(q: Item, goal: string, difficulty: string) {
    && GoalIs(q, goal)
    && (difficulty != "" ==> Lower(Get(q.difficulty)) == Lower(difficulty))
    && Lower(Get(q.qtype)) in QuizTypes
  }

  lemma QuizTypesAreLower()
    ensures LowerAll(QuizTypes) == QuizTypes
  {
    assert Lower(Mcq) == Mcq;
    assert Lower(ShortAnswer) == ShortAnswer;
  }

  /** A first-phase-eligible entry fits the quiz. */
  lemma EligibleFits(q: Item, goal: string, difficulty: string)
    requires Eligible(MetaOf(q), goal, Some(difficulty), Some(QuizTypes))
    ensures Fits(q, goal, difficulty)
  {
    EligibleGoal(q, goal, Some(difficulty), Some(QuizTypes));
    QuizTypesAreLower();
  }

  /** `x` is a copy of some bank entry that carries a score. */
  predicate ScoredCopy(x: Item, bank: seq<Item>) {
    x.score.Some? && exists p :: 0 <= p < |bank| && CopyOf(x, bank[p])
  }

  predicate AllScoredCopies(xs: seq<Item>, bank: seq<Item>) {
    forall i :: 0 <= i < |xs| ==> ScoredCopy(xs[i], bank)
  }

  /** `retrieve_quiz(goal, difficulty, num_questions)` as written, on the
      matcher's bank: an empty quiz when the goal has no questions, and
      otherwise whatever `match` returns for the planned call, which succeeds
      exactly when the shuffled candidates hold enough fitting entries. */
  function RetrieveQuiz(bank: seq<Item>, goal: string, difficulty: string, num: int,
                        extract: string -> seq<string>, tfidf: (string, seq<string>, nat) -> real,
                        draws: RetrievalDraws): (r: Result<seq<Item>, PyError>)
    ensures (forall i :: 0 <= i < |bank| ==> !GoalIs(bank[i], goal)) ==> r == Ok([])
    ensures r.Err? ==> r.error == NameError("logger")
    ensures r.Ok? ==> |r.value| <= Max(1, num)
    ensures var p := Plan(bank, goal, difficulty, num, extract, draws);
      p.Some? ==> r == Match(bank, p.value.topics, goal, num, Some(difficulty), Some(QuizTypes), tfidf, draws.matching)
    ensures r.Ok? ==> AllScoredCopies(r.value, bank)
    ensures r.Ok? && (exists i :: 0 <= i < |bank| && GoalIs(bank[i], goal)) ==>
      |r.value| == Max(1, num) && forall i :: 0 <= i < |r.value| ==> Fits(r.value[i], goal, difficulty)
  {
    match Plan(bank, goal, difficulty, num, extract, draws)
    case None => Ok([])
    case Some(c) =>
      var r := Match(bank, c.topics, c.goal, c.maxQ, c.difficulty, c.qTypes, tfidf, draws.matching);
      if r.Ok? then
        FitAll(r.value, goal, difficulty);
        MatchCopies(bank, c.topics, goal, num, Some(difficulty), Some(QuizTypes), tfidf, draws.matching);
        r
      else
        r
  }

  /** Every entry `match` returns is a scored copy of a bank entry. */
  lemma MatchCopies(bank: seq<Item>, topics: seq<string>, goal: string, maxQ: int,
                    difficulty: Option<string>, qTypes: Option<seq<string>>,
                    tfidf: (string, seq<string>, nat) -> real, draws: MatchDraws)
    ensures var r := Match(bank, topics, goal, maxQ, difficulty, qTypes, tfidf, draws);
      r.Ok? ==> AllScoredCopies(r.value, bank)
  {
    var r := Match(bank, topics, goal, maxQ, difficulty, qTypes, tfidf, draws);
    MatchPicks(bank, topics, goal, maxQ, difficulty, qTypes, tfidf, draws);
    if r.Ok? {
      var scores := Scores(bank, topics, tfidf);
      var e := Filter(Candidates(scores, draws.candidates), EligibleAt(bank, goal, difficulty, qTypes));
      var ps := e[..Max(1, maxQ)];
      forall i | 0 <= i < |r.value| ensures ScoredCopy(r.value[i], bank) {
        assert ps[i] == e[i];
        assert CopyOf(r.value[i], bank[ps[i]]);
      }
    }
  }

  /** `retrieve_quiz` succeeds exactly when the goal has no questions or the
      shuffled candidates of the planned call hold `max(1, num)` entries
      eligible for the goal, the difficulty and the two quiz types. */
  lemma RetrieveQuizSucceeds(bank: seq<Item>, goal: string, difficulty: string, num: int,
                             extract: string -> seq<string>, tfidf: (string, seq<string>, nat) -> real,
                             draws: RetrievalDraws)
    ensures var p := Plan(bank, goal, difficulty, num, extract, draws);
      RetrieveQuiz(bank, goal, difficulty, num, extract, tfidf, draws).Ok? <==> (p.None? ||
        |Filter(Candidates(Scores(bank, p.value.topics, tfidf), draws.matching.candidates),
                EligibleAt(bank, goal, Some(difficulty), Some(QuizTypes)))| >= Max(1, num))
  {
    var p := Plan(bank, goal, difficulty, num, extract, draws);
    if p.Some? {
      var m := Match(bank, p.value.topics, goal, num, Some(difficulty), Some(QuizTypes), tfidf, draws.matching);
    }
  }

  lemma FitAll(qs: seq<Item>, goal: string, difficulty: string)
    requires forall i :: 0 <= i < |qs| ==> Eligible(MetaOf(qs[i]), goal, Some(difficulty), Some(QuizTypes))
    ensures forall i :: 0 <= i < |qs| ==> Fits(qs[i], goal, difficulty)
  {
    forall i | 0 <= i < |qs| ensures Fits(qs[i], goal, difficulty) {
      EligibleFits(qs[i], goal, difficulty);
    }
  }

  /** `retrieve_quiz` on the repaired matcher. It always returns a quiz: at
      most `num` entries, each fitting the request, and, for a non-empty
      difficulty, exactly `num` when the bank has that many fitting entries. */
  function RetrieveQuizCorrected(bank: seq<Item>, goal: string, difficulty: string, num: int,
                                 extract: string -> seq<string>, tfidf: (string, seq<string>, nat) -> real,
                                 draws: RetrievalDraws): (r: Result<seq<Item>, PyError>)
    ensures r.Ok?
    ensures (forall i :: 0 <= i < |bank| ==> !GoalIs(bank[i], goal)) ==> r.value == []
    ensures num >= 1 ==> |r.value| <= num
    ensures forall i :: 0 <= i < |r.value| ==> GoalIs(r.value[i], goal)
    ensures forall i :: 0 <= i < |r.value| ==> Fits(r.value[i], goal, difficulty)
    ensures difficulty != "" && 1 <= num <= |EligiblePositions(bank, goal, Some(difficulty), Some(QuizTypes))| ==>
      |r.value| == num
  {
    match Plan(bank, goal, difficulty, num, extract, draws)
    case None => Ok([])
    case Some(c) =>
      CorrectedMatchCall(bank, c.topics, goal, num, difficulty, tfidf, draws.matching);
      MatchCorrected(bank, c.topics, goal, num, Some(difficulty), Some(QuizTypes), tfidf, draws.matching)
  }

  /** What the repaired matcher returns for the call `retrieve_quiz` makes. */
  lemma CorrectedMatchCall(bank: seq<Item>, topics: seq<string>, goal: string, num: int, difficulty: string,
                           tfidf: (string, seq<string>, nat) -> real, draws: MatchDraws)
    ensures var r := MatchCorrected(bank, topics, goal, num, Some(difficulty), Some(QuizTypes), tfidf, draws);
      && r.Ok?
      && (num >= 1 ==> |r.value| <= num)
      && (forall i :: 0 <= i < |r.value| ==> GoalIs(r.value[i], goal))
      && (forall i :: 0 <= i < |r.value| ==> Fits(r.value[i], goal, difficulty))
      && (difficulty != "" && 1 <= num <= |EligiblePositions(bank, goal, Some(difficulty), Some(QuizTypes))| ==>
            |r.value| == num)
  {
    CorrectedFits(bank, topics, goal, num, difficulty, tfidf, draws);
  }

  lemma CorrectedFits(bank: seq<Item>, topics: seq<string>, goal: string, num: int, difficulty: string,
                      tfidf: (string, seq<string>, nat) -> real, draws: MatchDraws)
    ensures var r := MatchCorrected(bank, topics, goal, num, Some(difficulty), Some(QuizTypes), tfidf, draws);
      r.Ok? ==> forall i :: 0 <= i < |r.value| ==> Fits(r.value[i], goal, difficulty)
  {
    var r := MatchCorrected(bank, topics, goal, num, Some(difficulty), Some(QuizTypes), tfidf, draws);
    var m := MatchPositions(bank, topics, goal, num, Some(difficulty), Some(QuizTypes), tfidf, draws);
    if r.Ok? {
      forall i | 0 <= i < |r.value| ensures Fits(r.value[i], goal, difficulty) {
        var q := bank[m.value.0[i]];
        assert MetaOf(r.value[i]) == MetaOf(q);
        EligibleFits(q, goal, difficulty);
      }
    }
  }
}
