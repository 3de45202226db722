/** The retrieval-mode question bank and its matcher (`question_matcher.py`).
    The bank is built from the per-goal question files; `match` ranks the bank
    by TF-IDF similarity to the topics plus a topic bonus, shuffles the top
    fifty, and takes the eligible entries in that order, falling back to a
    shuffled scan of the whole bank when too few are eligible.

    TF-IDF is a parameter: it gives the cosine similarity between the query
    and the bank entry at a position, for a corpus of entry texts. */
module QuestionMatcher {
  import opened Base
  import opened Seqs
  import opened Draws
  import opened Ranking
  import opened PyStr
  import opened Items

  const EmptyBankMessage: string := "No questions loaded. Check domain_files & data directory."
  /** Added to the score of an entry whose topic is related to a query topic. */
  const TopicBonus: real := 0.2
  /** How many of the best-scoring positions `match` considers first. */
  const CandidateCount: nat := 50

  // ---------------------------------------------------------------------------
  // Building the bank

  /** What reading one question file gives: no such file, a file that does
      not load as a list of questions, or the questions it holds. */
  datatype FileLoad = Missing | Unreadable | Loaded(questions: seq<Item>)

  /** The questions one `domain_files` entry adds to the bank: none for a goal
      outside the retrieval goals or a file that is missing or unreadable. */
  function Contribution(goal: string, filename: string, retrievalGoals: set<string>,
                        files: string -> FileLoad): seq<Item>
  {
    if Lower(goal) in retrievalGoals && files(filename).Loaded? then files(filename).questions else []
  }

  /** The bank: the contributions of the `domain_files` entries, in order. */
  function Collect(domainFiles: seq<(string, string)>, retrievalGoals: set<string>,
                   files: string -> FileLoad): seq<Item>
  {
    if |domainFiles| == 0 then []
    else Contribution(domainFiles[0].0, domainFiles[0].1, retrievalGoals, files) +
         Collect(domainFiles[1..], retrievalGoals, files)
  }

  /** Entry `k` of `domainFiles` names a retrieval goal and a file that loaded. */
  predicate Accepted(domainFiles: seq<(string, string)>, k: int, retrievalGoals: set<string>,
                     files: string -> FileLoad)
  {
    0 <= k < |domainFiles| && Lower(domainFiles[k].0) in retrievalGoals && files(domainFiles[k].1).Loaded?
  }

  lemma {:induction false} CollectAppend(a: seq<(string, string)>, b: seq<(string, string)>,
                                         retrievalGoals: set<string>, files: string -> FileLoad)
    ensures Collect(a + b, retrievalGoals, files) == Collect(a, retrievalGoals, files) + Collect(b, retrievalGoals, files)
  {
    if |a| == 0 {
      assert a + b == b;
    } else {
      assert (a + b)[1..] == a[1..] + b;
      CollectAppend(a[1..], b, retrievalGoals, files);
    }
  }

  /** The bank holds exactly the questions of the accepted entries' files. */
  lemma {:induction false} CollectSources(domainFiles: seq<(string, string)>, retrievalGoals: set<string>,
                                          files: string -> FileLoad)
    ensures forall x :: x in Collect(domainFiles, retrievalGoals, files) ==>
      exists k :: Accepted(domainFiles, k, retrievalGoals, files) && x in files(domainFiles[k].1).questions
    ensures forall k, x :: Accepted(domainFiles, k, retrievalGoals, files) && x in files(domainFiles[k].1).questions ==>
      x in Collect(domainFiles, retrievalGoals, files)
  {
    if |domainFiles| > 0 {
      var rest := domainFiles[1..];
      CollectSources(rest, retrievalGoals, files);
      forall x | x in Collect(domainFiles, retrievalGoals, files)
        ensures exists k :: Accepted(domainFiles, k, retrievalGoals, files) && x in files(domainFiles[k].1).questions
      {
        if x in Contribution(domainFiles[0].0, domainFiles[0].1, retrievalGoals, files) {
          assert Accepted(domainFiles, 0, retrievalGoals, files);
        } else {
          var k :| Accepted(rest, k, retrievalGoals, files) && x in files(rest[k].1).questions;
          assert rest[k] == domainFiles[k + 1];
          assert Accepted(domainFiles, k + 1, retrievalGoals, files);
        }
      }
      forall k, x | Accepted(domainFiles, k, retrievalGoals, files) && x in files(domainFiles[k].1).questions
        ensures x in Collect(domainFiles, retrievalGoals, files)
      {
        if k > 0 {
          assert rest[k - 1] == domainFiles[k];
          assert Accepted(rest, k - 1, retrievalGoals, files);
        }
      }
    }
  }

  /** An entry whose goal is not a retrieval goal adds nothing, wherever it
      stands in `domain_files`. */
  lemma SkippedGoalAddsNothing(before: seq<(string, string)>, goal: string, filename: string,
                               after: seq<(string, string)>, retrievalGoals: set<string>, files: string -> FileLoad)
    requires Lower(goal) !in retrievalGoals
    ensures Collect(before + [(goal, filename)] + after, retrievalGoals, files) ==
            Collect(before + after, retrievalGoals, files)
  {
    CollectAppend(before + [(goal, filename)], after, retrievalGoals, files);
    CollectAppend(before, [(goal, filename)], retrievalGoals, files);
    CollectAppend(before, after, retrievalGoals, files);
  }

  lemma {:induction false} NothingLoaded(domainFiles: seq<(string, string)>, retrievalGoals: set<string>,
                                         files: string -> FileLoad)
    requires Collect(domainFiles, retrievalGoals, files) == []
    ensures forall k :: Accepted(domainFiles, k, retrievalGoals, files) ==> files(domainFiles[k].1).questions == []
    decreases |domainFiles|
  {
    if |domainFiles| > 0 {
      NothingLoaded(domainFiles[1..], retrievalGoals, files);
      forall k | Accepted(domainFiles, k, retrievalGoals, files) ensures files(domainFiles[k].1).questions == [] {
        if k > 0 {
          assert domainFiles[1..][k - 1] == domainFiles[k];
          assert Accepted(domainFiles[1..], k - 1, retrievalGoals, files);
        }
      }
    }
  }

  /** `QuestionMatcher.__init__` up to the vectoriser: the bank, or the
      `RuntimeError` raised when no question was loaded. */
  function BuildBank(domainFiles: seq<(string, string)>, retrievalGoals: set<string>,
                     files: string -> FileLoad): (r: Result<seq<Item>, PyError>)
    ensures r.Err? <==> forall k :: Accepted(domainFiles, k, retrievalGoals, files) ==> files(domainFiles[k].1).questions == []
    ensures r.Err? ==> r.error == RuntimeError(EmptyBankMessage)
    ensures r.Ok? ==> |r.value| > 0
    ensures r.Ok? ==> forall x :: x in r.value ==>
      exists k :: Accepted(domainFiles, k, retrievalGoals, files) && x in files(domainFiles[k].1).questions
    ensures r.Ok? ==> forall k, x :: Accepted(domainFiles, k, retrievalGoals, files) && x in files(domainFiles[k].1).questions ==>
      x in r.value
  {
    var bank := Collect(domainFiles, retrievalGoals, files);
    CollectSources(domainFiles, retrievalGoals, files);
    if |bank| == 0 then
      NothingLoaded(domainFiles, retrievalGoals, files);
      Err(RuntimeError(EmptyBankMessage))
    else
      assert bank[0] in bank;
      Ok(bank)
  }

  // ---------------------------------------------------------------------------
  // Scores

  /** `self.meta[i]`: topic and goal lowercased, type and difficulty as given. */
  datatype Meta = Meta(topic: string, goal: string, qtype: string, difficulty: string)

  function MetaOf(q: Item): Meta {
    Meta(Lower(Get(q.topic)), Lower(Get(q.goal)), Get(q.qtype), Get(q.difficulty))
  }

  /** The TF-IDF corpus: one text per bank entry. */
  function Texts(bank: seq<Item>): (r: seq<string>)
    ensures |r| == |bank|
    ensures forall i :: 0 <= i < |r| ==> r[i] == QuestionText(bank[i])
  {
    seq(|bank|, i requires 0 <= i < |bank| => QuestionText(bank[i]))
  }

  /** A requested topic and an entry's topic are related when either contains
      the other. */
  predicate Related(t: string, metaTopic: string) {
    IsSubstring(t, metaTopic) || IsSubstring(metaTopic, t)
  }

  function Bonus(topics: seq<string>, metaTopic: string): real {
    if exists k :: 0 <= k < |topics| && Related(topics[k], metaTopic) then TopicBonus else 0.0
  }

  /** An entry without a topic is related to every topic, so it gets the
      bonus as soon as there is a topic. */
  lemma EmptyTopicGetsBonus(topics: seq<string>)
    requires |topics| > 0
    ensures Bonus(topics, "") == TopicBonus
  {
    EmptyIsSubstring(topics[0]);
  }

  /** Without topics no entry gets the bonus. */
  lemma NoTopicsNoBonus(metaTopic: string)
    ensures Bonus([], metaTopic) == 0.0
  {
  }

  /** The score of every bank entry: its TF-IDF similarity to the joined
      topics, raised by the bonus exactly when a topic is related to the
      entry's topic. */
  function Scores(bank: seq<Item>, topics: seq<string>, tfidf: (string, seq<string>, nat) -> real): (r: seq<real>)
    ensures |r| == |bank|
    ensures forall i :: 0 <= i < |r| ==>
      var base := tfidf(Join(" ", topics), Texts(bank), i);
      && base <= r[i] <= base + TopicBonus
      && (r[i] > base <==> exists k :: 0 <= k < |topics| && Related(topics[k], MetaOf(bank[i]).topic))
  {
    var query := Join(" ", topics);
    var texts := Texts(bank);
    seq(|bank|, i requires 0 <= i < |bank| => tfidf(query, texts, i) + Bonus(topics, MetaOf(bank[i]).topic))
  }

  /** The candidate positions: the 50 best by score (stable descending sort),
      then shuffled. */
  function Candidates(scores: seq<real>, order: seq<nat>): (r: seq<nat>)
    ensures |r| == Min(CandidateCount, |scores|)
    ensures Distinct(r)
    ensures forall i :: 0 <= i < |r| ==> r[i] < |scores|
    ensures forall i, y :: 0 <= i < |r| && 0 <= y < |scores| && y !in r ==> scores[y] <= scores[r[i]]
  {
    var top := TopK(scores, CandidateCount);
    TopKOrder(scores, CandidateCount);
    ShuffledTopDominates(scores, top, order);
    Shuffle(top, order)
  }

  /** Which positions become candidates follows the stable sort: among equal
      scores the earlier positions are kept, so every position left out comes
      after every candidate, ties included. */
  lemma CandidatesKeepBest(scores: seq<real>, order: seq<nat>)
    ensures KeepsBest(scores, Candidates(scores, order))
  {
    var top := TopK(scores, CandidateCount);
    TopKOrder(scores, CandidateCount);
    ShuffledTopDominates(scores, top, order);
  }

  lemma ShuffledTopDominates(scores: seq<real>, top: seq<nat>, order: seq<nat>)
    requires forall i :: 0 <= i < |top| ==> top[i] < |scores|
    requires KeepsBest(scores, top)
    ensures forall i :: 0 <= i < |Shuffle(top, order)| ==> Shuffle(top, order)[i] < |scores|
    ensures KeepsBest(scores, Shuffle(top, order))
  {
    var r := Shuffle(top, order);
    forall i, y | 0 <= i < |r| && 0 <= y < |scores| && y !in r ensures Before(scores, r[i], y) {
      ShuffleMembers(top, order, y);
      ShuffleMembers(top, order, r[i]);
      var a :| 0 <= a < |top| && top[a] == r[i];
    }
  }

  // ---------------------------------------------------------------------------
  // Eligibility

  /** A Python string argument that is truthy: given and not empty. */
  predicate Truthy(s: Option<string>) {
    s.Some? && s.value != ""
  }

  /** A Python list argument that is truthy: given and not empty. */
  predicate AnyTypes(qTypes: Option<seq<string>>) {
    qTypes.Some? && |qTypes.value| > 0
  }

  /** Each requested type, lowercased. */
  function LowerAll(ts: seq<string>): (r: seq<string>)
    ensures |r| == |ts|
  {
    seq(|ts|, i requires 0 <= i < |ts| => Lower(ts[i]))
  }

  /** The three tests of the first phase: the goal matches ignoring case; a
      given difficulty matches ignoring case; the type, lowercased, is one of
      the given types, lowercased. */
  predicate Eligible(m: Meta, goal: string, difficulty: Option<string>, qTypes: Option<seq<string>>) {
    && Lower(m.goal) == Lower(goal)
    && (Truthy(difficulty) ==> Lower(m.difficulty) == Lower(difficulty.value))
    && (AnyTypes(qTypes) ==> Lower(m.qtype) in LowerAll(qTypes.value))
  }

  function EligibleAt(bank: seq<Item>, goal: string, difficulty: Option<string>, qTypes: Option<seq<string>>): nat -> bool {
    (p: nat) => p < |bank| && Eligible(MetaOf(bank[p]), goal, difficulty, qTypes)
  }

  /** Lowercasing the stored goal again changes nothing: an eligible entry is
      one of the goal. */
  lemma EligibleGoal(q: Item, goal: string, difficulty: Option<string>, qTypes: Option<seq<string>>)
    ensures Eligible(MetaOf(q), goal, difficulty, qTypes) ==> GoalIs(q, goal)
    ensures !Truthy(difficulty) && !AnyTypes(qTypes) ==> (Eligible(MetaOf(q), goal, difficulty, qTypes) <==> GoalIs(q, goal))
  {
    LowerIsLower(Get(q.goal));
  }

  // ---------------------------------------------------------------------------
  // The first phase

  /** The loop over the shuffled candidates: each eligible one is appended,
      and the loop returns as soon as `maxQ` have been appended. The flag says
      whether it returned from inside the loop. */
  function Scan(cands: seq<nat>, ok: nat -> bool, maxQ: int, acc: seq<nat>): (seq<nat>, bool)
    decreases |cands|
  {
    if |cands| == 0 then (acc, false)
    else if !ok(cands[0]) then Scan(cands[1..], ok, maxQ, acc)
    else
      var acc' := acc + [cands[0]];
      if |acc'| >= maxQ then (acc', true) else Scan(cands[1..], ok, maxQ, acc')
  }

  /** The loop takes the eligible candidates in order until it has
      `max(1, maxQ)` of them; it returns early exactly when there are that
      many. */
  lemma {:induction false} ScanIsFilterPrefix(cands: seq<nat>, ok: nat -> bool, maxQ: int, acc: seq<nat>)
    requires |acc| < Max(1, maxQ)
    ensures var e := Filter(cands, ok); var need := Max(1, maxQ) - |acc|;
      Scan(cands, ok, maxQ, acc) == if |e| >= need then (acc + e[..need], true) else (acc + e, false)
    decreases |cands|
  {
    if |cands| == 0 {
      assert acc + [] == acc;
    } else if !ok(cands[0]) {
      ScanIsFilterPrefix(cands[1..], ok, maxQ, acc);
    } else {
      var acc' := acc + [cands[0]];
      FilterHead(cands, ok);
      if |acc'| < maxQ {
        ScanIsFilterPrefix(cands[1..], ok, maxQ, acc');
        ShiftOne(acc, cands[0], Filter(cands[1..], ok), Max(1, maxQ) - |acc|);
      } else {
        assert ([cands[0]] + Filter(cands[1..], ok))[..1] == [cands[0]];
      }
    }
  }

  lemma FilterHead(s: seq<nat>, p: nat -> bool)
    requires |s| > 0 && p(s[0])
    ensures Filter(s, p) == [s[0]] + Filter(s[1..], p)
  {
  }

  /** Moving one element from the front of `e` to the end of `acc`. */
  lemma ShiftOne(acc: seq<nat>, c: nat, e: seq<nat>, need: int)
    requires need >= 1
    ensures |[c] + e| >= need ==> (acc + [c]) + e[..need - 1] == acc + ([c] + e)[..need]
    ensures (acc + [c]) + e == acc + ([c] + e)
  {
    if |[c] + e| >= need {
      assert ([c] + e)[..need] == [c] + e[..need - 1];
    }
  }

  /** The random draws of one `match` call: the shuffle of the candidates
      and the shuffle of the fallback entries. */
  datatype MatchDraws = MatchDraws(candidates: seq<nat>, additional: seq<nat>)

  /** The positions the first phase picks, and whether it filled the quiz. */
  function FirstPhase(bank: seq<Item>, scores: seq<real>, goal: string, maxQ: int,
                      difficulty: Option<string>, qTypes: Option<seq<string>>, order: seq<nat>): (r: (seq<nat>, bool))
    requires |scores| == |bank|
    ensures Distinct(r.0)
    ensures forall i :: 0 <= i < |r.0| ==> r.0[i] < |bank| && Eligible(MetaOf(bank[r.0[i]]), goal, difficulty, qTypes)
    ensures forall i :: 0 <= i < |r.0| ==> r.0[i] in Candidates(scores, order)
    ensures r.1 <==> |r.0| == Max(1, maxQ)
    ensures !r.1 ==> |r.0| < Max(1, maxQ)
    ensures !r.1 ==> forall i :: (0 <= i < |Candidates(scores, order)| &&
      EligibleAt(bank, goal, difficulty, qTypes)(Candidates(scores, order)[i])) ==> Candidates(scores, order)[i] in r.0
  {
    var cands := Candidates(scores, order);
    var ok := EligibleAt(bank, goal, difficulty, qTypes);
    ScanProperties(cands, ok, maxQ);
    Scan(cands, ok, maxQ, [])
  }

  /** What the loop returns from an empty start, on distinct candidates. */
  lemma ScanProperties(cands: seq<nat>, ok: nat -> bool, maxQ: int)
    requires Distinct(cands)
    ensures var r := Scan(cands, ok, maxQ, []);
      && Distinct(r.0)
      && (forall i :: 0 <= i < |r.0| ==> ok(r.0[i]) && r.0[i] in cands)
      && (r.1 <==> |r.0| == Max(1, maxQ))
      && (!r.1 ==> |r.0| < Max(1, maxQ))
      && (!r.1 ==> forall i :: 0 <= i < |cands| && ok(cands[i]) ==> cands[i] in r.0)
  {
    ScanIsFilterPrefix(cands, ok, maxQ, []);
    var e := Filter(cands, ok);
    assert [] + e == e;
    var need := Max(1, maxQ);
    if |e| >= need {
      assert [] + e[..need] == e[..need];
      PrefixDistinct(e, need);
      forall i | 0 <= i < need ensures ok(e[..need][i]) && e[..need][i] in cands {
        assert e[..need][i] == e[i];
      }
    }
  }

  /** The picked entries, each a copy carrying its score under `"score"`. */
  function Scored(bank: seq<Item>, scores: seq<real>, ps: seq<nat>): (r: seq<Item>)
    requires |scores| == |bank| && forall i :: 0 <= i < |ps| ==> ps[i] < |bank|
    ensures |r| == |ps|
    ensures forall i :: 0 <= i < |r| ==> CopyOf(r[i], bank[ps[i]]) && r[i].score == Some(scores[ps[i]])
  {
    seq(|ps|, i requires 0 <= i < |ps| => bank[ps[i]].(score := Some(scores[ps[i]])))
  }

  /** `match` as written: the first phase's scored picks when it fills the
      quiz; otherwise the warning before the fallback goes through a `logger`
      that the module never defines, which raises `NameError`. */
  function Match(bank: seq<Item>, topics: seq<string>, goal: string, maxQ: int,
                 difficulty: Option<string>, qTypes: Option<seq<string>>,
                 tfidf: (string, seq<string>, nat) -> real, draws: MatchDraws): (r: Result<seq<Item>, PyError>)
    ensures r.Err? ==> r.error == NameError("logger")
    ensures var scores := Scores(bank, topics, tfidf);
      r.Ok? <==> |Filter(Candidates(scores, draws.candidates), EligibleAt(bank, goal, difficulty, qTypes))| >= Max(1, maxQ)
    ensures r.Ok? ==> |r.value| == Max(1, maxQ)
    ensures r.Ok? ==> ScoredAndEligible(r.value, goal, difficulty, qTypes)
  {
    var scores := Scores(bank, topics, tfidf);
    var first := FirstPhase(bank, scores, goal, maxQ, difficulty, qTypes, draws.candidates);
    FirstPhaseScored(bank, scores, goal, maxQ, difficulty, qTypes, draws.candidates);
    if first.1 then Ok(Scored(bank, scores, first.0)) else Err(NameError("logger"))
  }

  /** What `match` returns when it returns: the scored copies of the first
      `max(1, max_q)` eligible candidates, in shuffled candidate order. */
  lemma MatchPicks(bank: seq<Item>, topics: seq<string>, goal: string, maxQ: int,
                   difficulty: Option<string>, qTypes: Option<seq<string>>,
                   tfidf: (string, seq<string>, nat) -> real, draws: MatchDraws)
    ensures var r := Match(bank, topics, goal, maxQ, difficulty, qTypes, tfidf, draws);
      var scores := Scores(bank, topics, tfidf);
      var eligible := Filter(Candidates(scores, draws.candidates), EligibleAt(bank, goal, difficulty, qTypes));
      r.Ok? ==> |eligible| >= Max(1, maxQ) && r.value == Scored(bank, scores, eligible[..Max(1, maxQ)])
  {
    FirstPhaseScored(bank, Scores(bank, topics, tfidf), goal, maxQ, difficulty, qTypes, draws.candidates);
  }

  /** When the first phase fills the quiz, its scored picks are the scored
      copies of the first eligible candidates, and each is eligible. */
  lemma FirstPhaseScored(bank: seq<Item>, scores: seq<real>, goal: string, maxQ: int,
                         difficulty: Option<string>, qTypes: Option<seq<string>>, order: seq<nat>)
    requires |scores| == |bank|
    ensures var e := Filter(Candidates(scores, order), EligibleAt(bank, goal, difficulty, qTypes));
      var f := FirstPhase(bank, scores, goal, maxQ, difficulty, qTypes, order);
      && (f.1 <==> |e| >= Max(1, maxQ))
      && (f.1 ==> |e| >= Max(1, maxQ) && f.0 == e[..Max(1, maxQ)])
      && (f.1 ==> |Scored(bank, scores, f.0)| == Max(1, maxQ))
      && (f.1 ==> ScoredAndEligible(Scored(bank, scores, f.0), goal, difficulty, qTypes))
  {
    var f := FirstPhase(bank, scores, goal, maxQ, difficulty, qTypes, order);
    FirstPhaseIsPrefix(bank, scores, goal, maxQ, difficulty, qTypes, order);
    ScoredMeta(bank, scores, f.0);
  }

  /** Every entry of `xs` carries a score and passes the first phase's tests. */
  predicate ScoredAndEligible(xs: seq<Item>, goal: string, difficulty: Option<string>, qTypes: Option<seq<string>>) {
    forall i :: 0 <= i < |xs| ==> xs[i].score.Some? && Eligible(MetaOf(xs[i]), goal, difficulty, qTypes)
  }

  /** The first phase fills the quiz exactly when there are enough eligible
      candidates, and then picks the first of them in shuffled order. */
  lemma FirstPhaseIsPrefix(bank: seq<Item>, scores: seq<real>, goal: string, maxQ: int,
                           difficulty: Option<string>, qTypes: Option<seq<string>>, order: seq<nat>)
    requires |scores| == |bank|
    ensures var e := Filter(Candidates(scores, order), EligibleAt(bank, goal, difficulty, qTypes));
      var r := FirstPhase(bank, scores, goal, maxQ, difficulty, qTypes, order);
      (r.1 <==> |e| >= Max(1, maxQ)) && (r.1 ==> r.0 == e[..Max(1, maxQ)])
  {
    var cands := Candidates(scores, order);
    var ok := EligibleAt(bank, goal, difficulty, qTypes);
    ScanIsFilterPrefix(cands, ok, maxQ, []);
    var e := Filter(cands, ok);
    assert [] + e == e;
    if |e| >= Max(1, maxQ) {
      assert [] + e[..Max(1, maxQ)] == e[..Max(1, maxQ)];
    }
  }

  /** A scored copy keeps the entry's topic, goal, type and difficulty. */
  lemma ScoredMeta(bank: seq<Item>, scores: seq<real>, ps: seq<nat>)
    requires |scores| == |bank| && forall i :: 0 <= i < |ps| ==> ps[i] < |bank|
    ensures forall i :: 0 <= i < |ps| ==> MetaOf(Scored(bank, scores, ps)[i]) == MetaOf(bank[ps[i]])
  {
  }

  // ---------------------------------------------------------------------------
  // The fallback

  const NoneLowerMessage: string := "'NoneType' object has no attribute 'lower'"

  /** The tests of the fallback comprehension before its duplicate guard: the
      goal matches ignoring case, the difficulty matches ignoring case (also
      when it is empty), and the type is one of the given ones if any are. */
  predicate FallbackEligible(q: Item, goal: string, difficulty: string, qTypes: Option<seq<string>>) {
    && GoalIs(q, goal)
    && Lower(Get(q.difficulty)) == Lower(difficulty)
    && (AnyTypes(qTypes) ==> Lower(Get(q.qtype)) in LowerAll(qTypes.value))
  }

  /** The comprehension's whole test. Its guard `q not in selected` compares
      a bank entry with the picked copies as whole dictionaries. */
  function Unselected(goal: string, difficulty: string, qTypes: Option<seq<string>>, selected: seq<Item>): Item -> bool {
    (q: Item) => FallbackEligible(q, goal, difficulty, qTypes) && q !in selected
  }

  /** `difficulty.lower()` on a missing difficulty raises, and it is reached
      only for an entry that passed the goal test. */
  predicate RaisesOnNoDifficulty(bank: seq<Item>, goal: string, difficulty: Option<string>) {
    difficulty.None? && exists i :: 0 <= i < |bank| && GoalIs(bank[i], goal)
  }

  /** The fallback as written: `selected` extended with a shuffled prefix of
      the eligible bank entries that are not in `selected`. */
  function Fallback(bank: seq<Item>, goal: string, maxQ: int, difficulty: Option<string>,
                    qTypes: Option<seq<string>>, selected: seq<Item>, order: seq<nat>): (r: Result<seq<Item>, PyError>)
    ensures r.Err? <==> RaisesOnNoDifficulty(bank, goal, difficulty)
    ensures r.Err? ==> r.error == AttributeError(NoneLowerMessage)
    ensures r.Ok? ==> |r.value| >= |selected| && r.value[..|selected|] == selected
    ensures r.Ok? && |selected| <= maxQ ==> |r.value| <= maxQ
    ensures r.Ok? && difficulty.None? ==> r.value == selected
    ensures r.Ok? && difficulty.Some? && |selected| <= maxQ ==>
      |r.value| == |selected| + Min(maxQ - |selected|, |Filter(bank, Unselected(goal, difficulty.value, qTypes, selected))|)
    ensures r.Ok? && difficulty.Some? ==> FallbackEntries(r.value, |selected|, bank, goal, difficulty.value, qTypes, selected)
  {
    if difficulty.None? then
      if exists i :: 0 <= i < |bank| && GoalIs(bank[i], goal) then Err(AttributeError(NoneLowerMessage))
      else Ok(selected)
    else
      Ok(Extend(bank, goal, maxQ, difficulty.value, qTypes, selected, order))
  }

  /** The fallback on a given difficulty: `selected` followed by the first
      `max_q - len(selected)` entries of the shuffled comprehension. */
  function Extend(bank: seq<Item>, goal: string, maxQ: int, difficulty: string,
                  qTypes: Option<seq<string>>, selected: seq<Item>, order: seq<nat>): (r: seq<Item>)
    ensures |r| >= |selected| && r[..|selected|] == selected
    ensures |selected| <= maxQ ==> |r| <= maxQ
    ensures var n := |Filter(bank, Unselected(goal, difficulty, qTypes, selected))|;
      |r| == |selected| + if |selected| <= maxQ then Min(maxQ - |selected|, n) else Max(0, n + maxQ - |selected|)
    ensures FallbackEntries(r, |selected|, bank, goal, difficulty, qTypes, selected)
  {
    ExtendLength(selected, Filter(bank, Unselected(goal, difficulty, qTypes, selected)), order, maxQ);
    ExtendShape(bank, goal, difficulty, qTypes, selected, order, maxQ);
    selected + PyPrefix(Shuffle(Filter(bank, Unselected(goal, difficulty, qTypes, selected)), order), maxQ - |selected|)
  }

  /** What the fallback appends is drawn from the comprehension without
      repetition, so no bank entry is appended more often than it occurs. */
  lemma FallbackDraws(bank: seq<Item>, goal: string, maxQ: int, difficulty: Option<string>,
                      qTypes: Option<seq<string>>, selected: seq<Item>, order: seq<nat>)
    ensures var r := Fallback(bank, goal, maxQ, difficulty, qTypes, selected, order);
      r.Ok? && difficulty.Some? ==>
        DrawnOnce(r.value, |selected|, Filter(bank, Unselected(goal, difficulty.value, qTypes, selected)))
  {
    if difficulty.Some? {
      ExtendDraws(bank, goal, maxQ, difficulty.value, qTypes, selected, order);
    }
  }

  /** Extend appends a slice of a shuffle of the comprehension, so each of its
      entries is used at most as often as it occurs there. */
  lemma ExtendDraws(bank: seq<Item>, goal: string, maxQ: int, difficulty: string,
                    qTypes: Option<seq<string>>, selected: seq<Item>, order: seq<nat>)
    ensures DrawnOnce(Extend(bank, goal, maxQ, difficulty, qTypes, selected, order), |selected|,
                      Filter(bank, Unselected(goal, difficulty, qTypes, selected)))
  {
    var pool := Filter(bank, Unselected(goal, difficulty, qTypes, selected));
    PrefixDrawnOnce(pool, order, maxQ - |selected|);
    AppendDrawn(selected, PyPrefix(Shuffle(pool, order), maxQ - |selected|), pool);
  }

  /** The entries of `xs` from position `from` on are bank entries that pass
      the fallback's tests for the goal and difficulty and are not in
      `selected`. */
  predicate FallbackEntries(xs: seq<Item>, from: int, bank: seq<Item>, goal: string, difficulty: string,
                            qTypes: Option<seq<string>>, selected: seq<Item>) {
    forall i :: from <= i < |xs| && 0 <= i ==>
      xs[i] in bank && xs[i] !in selected && FallbackEligible(xs[i], goal, difficulty, qTypes)
  }

  /** The entries of `xs` from position `from` on are drawn from `pool`
      without repetition: each occurs there at most as often as in `pool`. */
  predicate DrawnOnce<T(==)>(xs: seq<T>, from: nat, pool: seq<T>) {
    from <= |xs| && multiset(xs[from..]) <= multiset(pool)
  }

  /** How long `selected` is once the slice `[:max_q - len(selected)]` of the
      shuffled pool is appended; a negative bound drops entries from the end. */
  lemma ExtendLength<T>(selected: seq<T>, pool: seq<T>, order: seq<nat>, maxQ: int)
    ensures var r := selected + PyPrefix(Shuffle(pool, order), maxQ - |selected|);
      && |r| >= |selected|
      && (|selected| <= maxQ ==> |r| <= maxQ)
      && |r| == |selected| + (if |selected| <= maxQ then Min(maxQ - |selected|, |pool|) else Max(0, |pool| + maxQ - |selected|))
  {
    ExtraFromPool(pool, order, maxQ - |selected|);
  }

  /** `selected` followed by what the fallback appends keeps `selected` as
      its prefix and appends only eligible bank entries not in `selected`. */
  lemma ExtendShape(bank: seq<Item>, goal: string, difficulty: string, qTypes: Option<seq<string>>,
                    selected: seq<Item>, order: seq<nat>, maxQ: int)
    ensures var r := selected + PyPrefix(Shuffle(Filter(bank, Unselected(goal, difficulty, qTypes, selected)), order), maxQ - |selected|);
      && r[..|selected|] == selected
      && FallbackEntries(r, |selected|, bank, goal, difficulty, qTypes, selected)
  {
    var extra := PyPrefix(Shuffle(Filter(bank, Unselected(goal, difficulty, qTypes, selected)), order), maxQ - |selected|);
    ExtraUnselected(bank, goal, difficulty, qTypes, selected, order, maxQ - |selected|);
    AppendParts(selected, extra, (x: Item) => x in bank && x !in selected && FallbackEligible(x, goal, difficulty, qTypes));
  }

  /** What the fallback appends: eligible bank entries that are not in
      `selected`. */
  lemma ExtraUnselected(bank: seq<Item>, goal: string, difficulty: string, qTypes: Option<seq<string>>,
                        selected: seq<Item>, order: seq<nat>, k: int)
    ensures var extra := PyPrefix(Shuffle(Filter(bank, Unselected(goal, difficulty, qTypes, selected)), order), k);
      forall i :: 0 <= i < |extra| ==>
        extra[i] in bank && extra[i] !in selected && FallbackEligible(extra[i], goal, difficulty, qTypes)
  {
    var additional := Filter(bank, Unselected(goal, difficulty, qTypes, selected));
    var extra := PyPrefix(Shuffle(additional, order), k);
    ExtraFromPool(additional, order, k);
    forall i | 0 <= i < |extra|
      ensures extra[i] in bank && extra[i] !in selected && FallbackEligible(extra[i], goal, difficulty, qTypes)
    {
      var j :| 0 <= j < |additional| && additional[j] == extra[i];
      assert Unselected(goal, difficulty, qTypes, selected)(additional[j]);
    }
  }

  /** A shuffled prefix draws from the pool without repetition: each pool
      element occurs in it at most as often as in the pool. */
  lemma ExtraFromPool<T>(pool: seq<T>, order: seq<nat>, k: int)
    ensures |PyPrefix(Shuffle(pool, order), k)| == if k >= 0 then Min(k, |pool|) else Max(0, |pool| + k)
    ensures forall i :: 0 <= i < |PyPrefix(Shuffle(pool, order), k)| ==> PyPrefix(Shuffle(pool, order), k)[i] in pool
    ensures multiset(PyPrefix(Shuffle(pool, order), k)) <= multiset(pool)
  {
    var sh := Shuffle(pool, order);
    var pre := PyPrefix(sh, k);
    PrefixDrawnOnce(pool, order, k);
    forall i | 0 <= i < |pre| ensures pre[i] in pool {
      assert pre[i] == sh[i];
      ShuffleMembers(pool, order, sh[i]);
    }
  }

  /** A prefix of a shuffle is a sub-multiset of what was shuffled. */
  lemma PrefixDrawnOnce<T>(pool: seq<T>, order: seq<nat>, k: int)
    ensures multiset(PyPrefix(Shuffle(pool, order), k)) <= multiset(pool)
  {
    var sh := Shuffle(pool, order);
    PrefixMultiset(sh, |PyPrefix(sh, k)|);
  }

  /** Appending a sub-multiset of `pool` to `selected` draws from `pool` once. */
  lemma AppendDrawn<T>(selected: seq<T>, extra: seq<T>, pool: seq<T>)
    requires multiset(extra) <= multiset(pool)
    ensures DrawnOnce(selected + extra, |selected|, pool)
  {
    assert (selected + extra)[|selected|..] == extra;
  }

  /** The duplicate guard never applies: bank entries have no `"score"` key
      and every picked copy has one, so no entry equals a pick. */
  lemma FallbackGuardIsVacuous(bank: seq<Item>, goal: string, difficulty: string,
                               qTypes: Option<seq<string>>, selected: seq<Item>)
    requires forall i :: 0 <= i < |bank| ==> bank[i].score.None?
    requires forall j :: 0 <= j < |selected| ==> selected[j].score.Some?
    ensures Filter(bank, Unselected(goal, difficulty, qTypes, selected)) == Filter(bank, Unselected(goal, difficulty, qTypes, []))
  {
    forall i | 0 <= i < |bank|
      ensures Unselected(goal, difficulty, qTypes, selected)(bank[i]) == Unselected(goal, difficulty, qTypes, [])(bank[i])
    {
      forall j | 0 <= j < |selected| ensures selected[j] != bank[i] {
      }
      assert bank[i] !in selected;
    }
    FilterAgree(bank, Unselected(goal, difficulty, qTypes, selected), Unselected(goal, difficulty, qTypes, []));
  }

  /** A bank of one eligible entry and room for two: the first phase picks
      the entry (as a copy with its score) and the fallback adds the same
      entry again. */
  lemma FallbackRepeatsPick()
    ensures var e := EmptyItem.(goal := Some("g"), difficulty := Some("d"));
      Fallback([e], "g", 2, Some("d"), None, [e.(score := Some(0.5))], []) == Ok([e.(score := Some(0.5)), e])
  {
    var e := EmptyItem.(goal := Some("g"), difficulty := Some("d"));
    var picked := e.(score := Some(0.5));
    assert Lower("g") == "g" && Lower("d") == "d";
    assert e != picked;
    assert Unselected("g", "d", None, [picked])(e);
    assert [e][1..] == [];
    var additional := Filter([e], Unselected("g", "d", None, [picked]));
    assert additional == [e];
    var sh := Shuffle(additional, []);
    assert sh[0] in [e];
    assert sh == [e];
    assert PyPrefix(sh, 2 - 1) == [e];
    assert [picked] + [e] == [picked, e];
  }

  /** The fallback test on a bank position not already picked. */
  function UnpickedAt(bank: seq<Item>, goal: string, difficulty: string, qTypes: Option<seq<string>>,
                      picked: seq<nat>): nat -> bool
  {
    (p: nat) => p < |bank| && FallbackEligible(bank[p], goal, difficulty, qTypes) && p !in picked
  }

  /** The fallback with the guard the authors evidently meant: positions the
      first phase picked are left out, so no question is returned twice. */
  function FallbackByPosition(bank: seq<Item>, goal: string, maxQ: int, difficulty: Option<string>,
                              qTypes: Option<seq<string>>, picked: seq<nat>, order: seq<nat>): (r: Result<seq<nat>, PyError>)
    requires forall i :: 0 <= i < |picked| ==> picked[i] < |bank|
    ensures r.Err? <==> RaisesOnNoDifficulty(bank, goal, difficulty)
    ensures r.Err? ==> r.error == AttributeError(NoneLowerMessage)
    ensures r.Ok? ==> |r.value| >= |picked| && r.value[..|picked|] == picked
    ensures r.Ok? ==> forall i :: 0 <= i < |r.value| ==> r.value[i] < |bank|
    ensures r.Ok? ==> forall i :: |picked| <= i < |r.value| ==>
      && r.value[i] !in picked
      && difficulty.Some? && FallbackEligible(bank[r.value[i]], goal, difficulty.value, qTypes)
    ensures r.Ok? && Distinct(picked) ==> Distinct(r.value)
    ensures r.Ok? && difficulty.Some? && |picked| <= maxQ ==>
      |r.value| == |picked| + Min(maxQ - |picked|, |Filter(Range(|bank|), UnpickedAt(bank, goal, difficulty.value, qTypes, picked))|)
    ensures r.Ok? && |picked| <= maxQ ==> |r.value| <= maxQ
  {
    if difficulty.None? then
      if exists i :: 0 <= i < |bank| && GoalIs(bank[i], goal) then Err(AttributeError(NoneLowerMessage))
      else Ok(picked)
    else
      Ok(ExtendByPosition(bank, goal, maxQ, difficulty.value, qTypes, picked, order))
  }

  /** `picked` extended with a shuffled prefix of the unpicked eligible
      positions, for a given difficulty. */
  function ExtendByPosition(bank: seq<Item>, goal: string, maxQ: int, difficulty: string,
                            qTypes: Option<seq<string>>, picked: seq<nat>, order: seq<nat>): (r: seq<nat>)
    requires forall i :: 0 <= i < |picked| ==> picked[i] < |bank|
    ensures |r| >= |picked| && r[..|picked|] == picked
    ensures forall i :: 0 <= i < |r| ==> r[i] < |bank|
    ensures forall i :: |picked| <= i < |r| ==>
      r[i] !in picked && FallbackEligible(bank[r[i]], goal, difficulty, qTypes)
    ensures Distinct(picked) ==> Distinct(r)
    ensures |picked| <= maxQ ==>
      |r| == |picked| + Min(maxQ - |picked|, |Filter(Range(|bank|), UnpickedAt(bank, goal, difficulty, qTypes, picked))|)
    ensures |picked| <= maxQ ==> |r| <= maxQ
  {
    var ok := UnpickedAt(bank, goal, difficulty, qTypes, picked);
    var additional := Filter(Range(|bank|), ok);
    ExtendFacts(picked, additional, order, maxQ, ok, |bank|);
    picked + PyPrefix(Shuffle(additional, order), maxQ - |picked|)
  }

  lemma ExtendFacts(picked: seq<nat>, additional: seq<nat>, order: seq<nat>, maxQ: int, ok: nat -> bool, n: nat)
    requires additional == Filter(Range(n), ok)
    requires forall p: nat :: ok(p) ==> p !in picked
    ensures var r := picked + PyPrefix(Shuffle(additional, order), maxQ - |picked|);
      && |r| >= |picked| && r[..|picked|] == picked
      && (forall i :: |picked| <= i < |r| ==> ok(r[i]) && r[i] !in picked)
      && (Distinct(picked) ==> Distinct(r))
      && (|picked| <= maxQ ==> |r| == |picked| + Min(maxQ - |picked|, |additional|))
  {
    var extra := PyPrefix(Shuffle(additional, order), maxQ - |picked|);
    ExtraOk(additional, order, maxQ - |picked|, picked, ok, n);
    ExtraDistinct(additional, order, maxQ - |picked|, picked, ok, n);
    AppendParts(picked, extra, (x: nat) => ok(x) && x !in picked);
  }

  /** The extra positions pass the test and were not picked. */
  lemma ExtraOk(additional: seq<nat>, order: seq<nat>, k: int, picked: seq<nat>, ok: nat -> bool, n: nat)
    requires additional == Filter(Range(n), ok)
    requires forall p: nat :: ok(p) ==> p !in picked
    ensures var extra := PyPrefix(Shuffle(additional, order), k);
      forall i :: 0 <= i < |extra| ==> ok(extra[i]) && extra[i] !in picked
  {
    var extra := PyPrefix(Shuffle(additional, order), k);
    ExtraFromPool(additional, order, k);
    forall i | 0 <= i < |extra| ensures ok(extra[i]) {
      var j :| 0 <= j < |additional| && additional[j] == extra[i];
    }
  }

  lemma ExtraDistinct(additional: seq<nat>, order: seq<nat>, k: int, picked: seq<nat>, ok: nat -> bool, n: nat)
    requires additional == Filter(Range(n), ok)
    requires forall p: nat :: ok(p) ==> p !in picked
    ensures Distinct(PyPrefix(Shuffle(additional, order), k))
    ensures Distinct(picked) ==> Distinct(picked + PyPrefix(Shuffle(additional, order), k))
  {
    RangeDistinct(n);
    var sh := Shuffle(additional, order);
    var extra := PyPrefix(sh, k);
    PrefixDistinct(sh, |extra|);
    ExtraFromPool(additional, order, k);
    if Distinct(picked) {
      DistinctAppend(picked, extra);
    }
  }

  /** Whatever the difficulty, an entry the fallback accepts passes the first
      phase's tests too: for the empty difficulty the first phase does not
      test the difficulty at all. */
  lemma FallbackIsEligible(q: Item, goal: string, difficulty: string, qTypes: Option<seq<string>>)
    ensures FallbackEligible(q, goal, difficulty, qTypes) ==> Eligible(MetaOf(q), goal, Some(difficulty), qTypes)
  {
    LowerIsLower(Get(q.goal));
  }

  /** With a non-empty difficulty the two phases test the same thing. */
  lemma PhasesAgree(q: Item, goal: string, difficulty: string, qTypes: Option<seq<string>>)
    requires difficulty != ""
    ensures Eligible(MetaOf(q), goal, Some(difficulty), qTypes) <==> FallbackEligible(q, goal, difficulty, qTypes)
  {
    LowerIsLower(Get(q.goal));
  }

  /** The bank positions that pass the first phase's tests. */
  function EligiblePositions(bank: seq<Item>, goal: string, difficulty: Option<string>, qTypes: Option<seq<string>>): seq<nat> {
    Filter(Range(|bank|), EligibleAt(bank, goal, difficulty, qTypes))
  }

  /** When the first phase stops short, every eligible position is either
      picked or left for the fallback, so the two together cover them all. */
  lemma FallbackCovers(bank: seq<Item>, goal: string, difficulty: string, qTypes: Option<seq<string>>,
                       picked: seq<nat>)
    requires difficulty != ""
    requires Distinct(picked)
    requires forall i :: 0 <= i < |picked| ==> picked[i] < |bank|
    ensures |EligiblePositions(bank, goal, Some(difficulty), qTypes)| <=
            |picked| + |Filter(Range(|bank|), UnpickedAt(bank, goal, difficulty, qTypes, picked))|
  {
    var n := |bank|;
    var e := EligiblePositions(bank, goal, Some(difficulty), qTypes);
    var ok := UnpickedAt(bank, goal, difficulty, qTypes, picked);
    var additional := Filter(Range(n), ok);
    RangeDistinct(n);
    forall i | 0 <= i < |e| ensures e[i] in additional || e[i] in picked {
      var p := e[i];
      assert p < n && Eligible(MetaOf(bank[p]), goal, Some(difficulty), qTypes);
      PhasesAgree(bank[p], goal, difficulty, qTypes);
      if p !in picked {
        assert ok(p);
        assert Range(n)[p] == p;
      }
    }
    CoverCount(e, additional, picked);
  }

  /** The positions `match` returns once the fallback is repaired, and how
      many of them the first phase picked. */
  function MatchPositions(bank: seq<Item>, topics: seq<string>, goal: string, maxQ: int,
                          difficulty: Option<string>, qTypes: Option<seq<string>>,
                          tfidf: (string, seq<string>, nat) -> real, draws: MatchDraws): (r: Result<(seq<nat>, nat), PyError>)
    ensures r.Err? ==> r.error == AttributeError(NoneLowerMessage) && difficulty.None?
    ensures r.Ok? ==> r.value.1 <= |r.value.0|
    ensures r.Ok? ==> Distinct(r.value.0)
    ensures r.Ok? ==> forall i :: 0 <= i < |r.value.0| ==> r.value.0[i] < |bank| && GoalIs(bank[r.value.0[i]], goal)
    ensures r.Ok? && maxQ >= 1 ==> |r.value.0| <= maxQ
    ensures r.Ok? ==> forall i :: 0 <= i < |r.value.0| ==>
      Eligible(MetaOf(bank[r.value.0[i]]), goal, difficulty, qTypes)
    ensures Truthy(difficulty) && 1 <= maxQ <= |EligiblePositions(bank, goal, difficulty, qTypes)| ==>
      r.Ok? && |r.value.0| == maxQ
  {
    var scores := Scores(bank, topics, tfidf);
    var (picked, filled) := FirstPhase(bank, scores, goal, maxQ, difficulty, qTypes, draws.candidates);
    PickedGoal(bank, goal, difficulty, qTypes, picked);
    if filled then Ok((picked, |picked|))
    else match Refill(bank, goal, maxQ, difficulty, qTypes, picked, draws.additional)
      case Err(e) => Err(e)
      case Ok(ps) => Ok((ps, |picked|))
  }

  /** The repaired fallback after a first phase that stopped short: the
      first-phase picks followed by the fallback's, all of the goal, distinct,
      at most `max_q`, and exactly `max_q` when the bank has that many
      eligible entries. */
  function Refill(bank: seq<Item>, goal: string, maxQ: int, difficulty: Option<string>,
                  qTypes: Option<seq<string>>, picked: seq<nat>, order: seq<nat>): (r: Result<seq<nat>, PyError>)
    requires Distinct(picked) && |picked| < Max(1, maxQ)
    requires forall i :: 0 <= i < |picked| ==> picked[i] < |bank| && Eligible(MetaOf(bank[picked[i]]), goal, difficulty, qTypes)
    ensures r.Err? ==> r.error == AttributeError(NoneLowerMessage) && difficulty.None?
    ensures r.Ok? ==> |picked| <= |r.value| && Distinct(r.value)
    ensures r.Ok? ==> forall i :: 0 <= i < |r.value| ==> r.value[i] < |bank| && GoalIs(bank[r.value[i]], goal)
    ensures r.Ok? && maxQ >= 1 ==> |r.value| <= maxQ
    ensures r.Ok? ==> forall i :: 0 <= i < |r.value| ==>
      Eligible(MetaOf(bank[r.value[i]]), goal, difficulty, qTypes)
    ensures Truthy(difficulty) && 1 <= maxQ <= |EligiblePositions(bank, goal, difficulty, qTypes)| ==>
      r.Ok? && |r.value| == maxQ
  {
    match FallbackByPosition(bank, goal, maxQ, difficulty, qTypes, picked, order)
    case Err(e) => Err(e)
    case Ok(ps) =>
      FallbackGoal(bank, goal, difficulty, qTypes, picked, ps);
      if Truthy(difficulty) then
        FallbackCovers(bank, goal, difficulty.value, qTypes, picked);
        Ok(ps)
      else
        Ok(ps)
  }

  lemma PickedGoal(bank: seq<Item>, goal: string, difficulty: Option<string>, qTypes: Option<seq<string>>, picked: seq<nat>)
    requires forall i :: 0 <= i < |picked| ==> picked[i] < |bank| && Eligible(MetaOf(bank[picked[i]]), goal, difficulty, qTypes)
    ensures forall i :: 0 <= i < |picked| ==> GoalIs(bank[picked[i]], goal)
  {
    forall i | 0 <= i < |picked| ensures GoalIs(bank[picked[i]], goal) {
      EligibleGoal(bank[picked[i]], goal, difficulty, qTypes);
    }
  }

  lemma FallbackGoal(bank: seq<Item>, goal: string, difficulty: Option<string>, qTypes: Option<seq<string>>,
                     picked: seq<nat>, ps: seq<nat>)
    requires |ps| >= |picked| && ps[..|picked|] == picked
    requires forall i :: 0 <= i < |ps| ==> ps[i] < |bank|
    requires forall i :: 0 <= i < |picked| ==> Eligible(MetaOf(bank[picked[i]]), goal, difficulty, qTypes)
    requires forall i :: |picked| <= i < |ps| ==> difficulty.Some? && FallbackEligible(bank[ps[i]], goal, difficulty.value, qTypes)
    ensures forall i :: 0 <= i < |ps| ==> GoalIs(bank[ps[i]], goal)
    ensures forall i :: 0 <= i < |ps| ==> Eligible(MetaOf(bank[ps[i]]), goal, difficulty, qTypes)
  {
    forall i | 0 <= i < |ps|
      ensures GoalIs(bank[ps[i]], goal)
      ensures Eligible(MetaOf(bank[ps[i]]), goal, difficulty, qTypes)
    {
      if i < |picked| {
        assert ps[i] == picked[i];
        EligibleGoal(bank[ps[i]], goal, difficulty, qTypes);
      } else {
        FallbackIsEligible(bank[ps[i]], goal, difficulty.value, qTypes);
        EligibleGoal(bank[ps[i]], goal, difficulty, qTypes);
      }
    }
  }

  /** `x` is the bank entry `q`, possibly with a different `"score"`. */
  predicate CopyOf(x: Item, q: Item) {
    x.(score := q.score) == q
  }

  /** The bank entries at `ps`; the first `scored` of them carry their score. */
  function Picks(bank: seq<Item>, scores: seq<real>, ps: seq<nat>, scored: nat): (r: seq<Item>)
    requires |scores| == |bank| && scored <= |ps| && forall i :: 0 <= i < |ps| ==> ps[i] < |bank|
    ensures |r| == |ps|
    ensures forall i :: 0 <= i < |r| ==> CopyOf(r[i], bank[ps[i]])
    ensures forall i :: 0 <= i < scored ==> r[i].score == Some(scores[ps[i]])
  {
    seq(|ps|, i requires 0 <= i < |ps| => if i < scored then bank[ps[i]].(score := Some(scores[ps[i]])) else bank[ps[i]])
  }

  /** `match` with both defects repaired: the fallback runs instead of raising
      `NameError`, and it leaves out the positions already picked. */
  function MatchCorrected(bank: seq<Item>, topics: seq<string>, goal: string, maxQ: int,
                          difficulty: Option<string>, qTypes: Option<seq<string>>,
                          tfidf: (string, seq<string>, nat) -> real, draws: MatchDraws): (r: Result<seq<Item>, PyError>)
    ensures var m := MatchPositions(bank, topics, goal, maxQ, difficulty, qTypes, tfidf, draws);
      && (r.Ok? <==> m.Ok?)
      && (r.Err? ==> r.error == AttributeError(NoneLowerMessage) && difficulty.None?)
      && (r.Ok? ==> |r.value| == |m.value.0| && forall i :: 0 <= i < |r.value| ==> CopyOf(r.value[i], bank[m.value.0[i]]))
    ensures r.Ok? ==> forall i :: 0 <= i < |r.value| ==> GoalIs(r.value[i], goal)
    ensures r.Ok? && maxQ >= 1 ==> |r.value| <= maxQ
    ensures Truthy(difficulty) && 1 <= maxQ <= |EligiblePositions(bank, goal, difficulty, qTypes)| ==>
      r.Ok? && |r.value| == maxQ
  {
    var scores := Scores(bank, topics, tfidf);
    match MatchPositions(bank, topics, goal, maxQ, difficulty, qTypes, tfidf, draws)
    case Err(e) => Err(e)
    case Ok((ps, scored)) =>
      PicksGoal(bank, scores, ps, scored, goal);
      Ok(Picks(bank, scores, ps, scored))
  }

  /** Copies of bank entries of the goal are of the goal. */
  lemma PicksGoal(bank: seq<Item>, scores: seq<real>, ps: seq<nat>, scored: nat, goal: string)
    requires |scores| == |bank| && scored <= |ps|
    requires forall i :: 0 <= i < |ps| ==> ps[i] < |bank| && GoalIs(bank[ps[i]], goal)
    ensures forall i :: 0 <= i < |ps| ==> GoalIs(Picks(bank, scores, ps, scored)[i], goal)
  {
    var r := Picks(bank, scores, ps, scored);
    forall i | 0 <= i < |ps| ensures GoalIs(r[i], goal) {
      assert Get(r[i].goal) == Get(bank[ps[i]].goal);
    }
  }

  /** Whenever `match` as written returns, the repaired version returns the
      same list: the repair only changes what happens after a short first
      phase. */
  lemma MatchCorrectedAgreesWhenFilled(bank: seq<Item>, topics: seq<string>, goal: string, maxQ: int,
                                       difficulty: Option<string>, qTypes: Option<seq<string>>,
                                       tfidf: (string, seq<string>, nat) -> real, draws: MatchDraws)
    requires Match(bank, topics, goal, maxQ, difficulty, qTypes, tfidf, draws).Ok?
    ensures MatchCorrected(bank, topics, goal, maxQ, difficulty, qTypes, tfidf, draws) ==
            Match(bank, topics, goal, maxQ, difficulty, qTypes, tfidf, draws)
  {
    var scores := Scores(bank, topics, tfidf);
    var (picked, filled) := FirstPhase(bank, scores, goal, maxQ, difficulty, qTypes, draws.candidates);
    assert filled;
    assert Picks(bank, scores, picked, |picked|) == Scored(bank, scores, picked);
  }

  /** A bank with one eligible entry and room for two: `match` as written
      raises `NameError`, while the repaired version returns a quiz. */
  lemma MatchRaisesOnShortBank(tfidf: (string, seq<string>, nat) -> real, draws: MatchDraws)
    ensures var e := EmptyItem.(goal := Some("g"), difficulty := Some("d"));
      && Match([e], ["g"], "g", 2, Some("d"), None, tfidf, draws) == Err(NameError("logger"))
      && MatchCorrected([e], ["g"], "g", 2, Some("d"), None, tfidf, draws).Ok?
  {
  }
}
