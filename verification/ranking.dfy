/** Top-k selection by score: the first `k` positions of a stable sort by
    descending score. Python's `sorted` with `reverse=True` is stable, so
    positions of equal score keep their index order. */
module Ranking {
  import opened Base
  import opened Seqs

  /** Every candidate is a valid position of `scores`. */
  predicate Indexes(cands: seq<nat>, scores: seq<real>) {
    forall i :: 0 <= i < |cands| ==> cands[i] < |scores|
  }

  /** Position `a` comes before position `b` in a stable sort by descending
      score: it scores higher, or it scores the same and comes first. */
  predicate Before(scores: seq<real>, a: nat, b: nat) {
    a < |scores| && b < |scores| && (scores[a] > scores[b] || (scores[a] == scores[b] && a < b))
  }

  /** Position in `cands` of the candidate that comes before all others. */
  function Best(cands: seq<nat>, scores: seq<real>): (j: nat)
    requires |cands| > 0 && Indexes(cands, scores)
    ensures j < |cands|
    ensures forall y :: y in cands && y != cands[j] ==> Before(scores, cands[j], y)
  {
    if |cands| == 1 then 0
    else
      var k := Best(cands[1..], scores) + 1;
      assert cands == [cands[0]] + cands[1..];
      if cands[0] == cands[k] || Before(scores, cands[0], cands[k]) then 0 else k
  }

  /** Repeatedly takes the best candidate among those left. */
  function TopOf(cands: seq<nat>, scores: seq<real>, k: nat): (r: seq<nat>)
    requires Indexes(cands, scores)
    ensures |r| == Min(k, |cands|)
    ensures forall i :: 0 <= i < |r| ==> r[i] in cands
    ensures Indexes(r, scores)
    decreases k
  {
    if k == 0 || |cands| == 0 then []
    else
      var j := Best(cands, scores);
      RemoveAtMembers(cands, j);
      [cands[j]] + TopOf(RemoveAt(cands, j), scores, k - 1)
  }

  lemma RemoveAtKeepsOthers(s: seq<nat>, j: nat, y: nat)
    requires j < |s| && y in s && y != s[j]
    ensures y in RemoveAt(s, j)
  {
    var p :| 0 <= p < |s| && s[p] == y;
    if p < j {
      assert RemoveAt(s, j)[p] == y;
    } else {
      assert RemoveAt(s, j)[p - 1] == y;
    }
  }

  /** The picks are in sorted order. */
  predicate Sorted(scores: seq<real>, r: seq<nat>) {
    forall a, b :: 0 <= a < b < |r| ==> Before(scores, r[a], r[b])
  }

  /** Every position of `scores` left out of `r` comes after every pick of
      `r` in the stable descending order. */
  predicate KeepsBest(scores: seq<real>, r: seq<nat>) {
    forall a, y :: 0 <= a < |r| && 0 <= y < |scores| && y !in r ==> Before(scores, r[a], y)
  }

  /** Every candidate left out comes after every pick. */
  predicate Dominates(scores: seq<real>, r: seq<nat>, cands: seq<nat>) {
    forall a, y :: 0 <= a < |r| && y in cands && y !in r ==> Before(scores, r[a], y)
  }

  /** Putting the best candidate in front of a ranked choice from the others
      gives a ranked choice from all of them. */
  lemma RankedCons(cands: seq<nat>, scores: seq<real>, j: nat, tail: seq<nat>)
    requires Indexes(cands, scores) && Distinct(cands) && j < |cands|
    requires forall y :: y in cands && y != cands[j] ==> Before(scores, cands[j], y)
    requires forall i :: 0 <= i < |tail| ==> tail[i] in RemoveAt(cands, j)
    requires Indexes(tail, scores) && Indexes(RemoveAt(cands, j), scores)
    requires Sorted(scores, tail) && Dominates(scores, tail, RemoveAt(cands, j))
    ensures Indexes([cands[j]] + tail, scores)
    ensures Sorted(scores, [cands[j]] + tail) && Dominates(scores, [cands[j]] + tail, cands)
  {
    RemoveAtMembers(cands, j);
    RemoveAtDistinct(cands, j);
    ConsSorted(cands, scores, j, tail);
    ConsDominates(cands, scores, j, tail);
  }

  lemma ConsSorted(cands: seq<nat>, scores: seq<real>, j: nat, tail: seq<nat>)
    requires Indexes(cands, scores) && j < |cands|
    requires forall y :: y in cands && y != cands[j] ==> Before(scores, cands[j], y)
    requires forall i :: 0 <= i < |tail| ==> tail[i] in cands && tail[i] != cands[j]
    requires Indexes(tail, scores) && Sorted(scores, tail)
    ensures Indexes([cands[j]] + tail, scores)
    ensures Sorted(scores, [cands[j]] + tail)
  {
    var r := [cands[j]] + tail;
    forall a, b | 0 <= a < b < |r| ensures Before(scores, r[a], r[b]) {
      assert r[b] == tail[b - 1];
      if a > 0 {
        assert r[a] == tail[a - 1];
      }
    }
  }

  lemma ConsDominates(cands: seq<nat>, scores: seq<real>, j: nat, tail: seq<nat>)
    requires Indexes(cands, scores) && j < |cands|
    requires forall y :: y in cands && y != cands[j] ==> Before(scores, cands[j], y)
    requires Indexes(tail, scores) && Indexes(RemoveAt(cands, j), scores)
    requires Dominates(scores, tail, RemoveAt(cands, j))
    ensures Indexes([cands[j]] + tail, scores)
    ensures Dominates(scores, [cands[j]] + tail, cands)
  {
    var r := [cands[j]] + tail;
    forall a, y | 0 <= a < |r| && y in cands && y !in r ensures Before(scores, r[a], y) {
      if a > 0 {
        RemoveAtKeepsOthers(cands, j, y);
        assert r[a] == tail[a - 1];
      }
    }
  }

  lemma {:induction false} TopOfRanked(cands: seq<nat>, scores: seq<real>, k: nat)
    requires Indexes(cands, scores) && Distinct(cands)
    ensures Sorted(scores, TopOf(cands, scores, k))
    ensures Dominates(scores, TopOf(cands, scores, k), cands)
    decreases k
  {
    if k > 0 && |cands| > 0 {
      RestFacts(cands, scores);
      TopOfRanked(RemoveAt(cands, Best(cands, scores)), scores, k - 1);
      TopOfStep(cands, scores, k);
    } else {
      assert TopOf(cands, scores, k) == [];
    }
  }

  /** The candidates left after taking the best one are valid and distinct. */
  lemma RestFacts(cands: seq<nat>, scores: seq<real>)
    requires Indexes(cands, scores) && Distinct(cands) && |cands| > 0
    ensures Indexes(RemoveAt(cands, Best(cands, scores)), scores)
    ensures Distinct(RemoveAt(cands, Best(cands, scores)))
  {
    RemoveAtMembers(cands, Best(cands, scores));
    RemoveAtDistinct(cands, Best(cands, scores));
  }

  /** One step of `TopOfRanked`: the ranking of the remaining candidates
      extends to all of them. */
  lemma TopOfStep(cands: seq<nat>, scores: seq<real>, k: nat)
    requires Indexes(cands, scores) && Distinct(cands) && k > 0 && |cands| > 0
    requires Indexes(RemoveAt(cands, Best(cands, scores)), scores)
    requires Sorted(scores, TopOf(RemoveAt(cands, Best(cands, scores)), scores, k - 1))
    requires Dominates(scores, TopOf(RemoveAt(cands, Best(cands, scores)), scores, k - 1),
                       RemoveAt(cands, Best(cands, scores)))
    ensures Sorted(scores, TopOf(cands, scores, k))
    ensures Dominates(scores, TopOf(cands, scores, k), cands)
  {
    var j := Best(cands, scores);
    var tail := TopOf(RemoveAt(cands, j), scores, k - 1);
    assert TopOf(cands, scores, k) == [cands[j]] + tail;
    RankedCons(cands, scores, j, tail);
  }

  /** The positions of `scores` sorted by descending score, ties in index
      order, cut to the first `k`. */
  function TopK(scores: seq<real>, k: nat): (r: seq<nat>)
    ensures |r| == Min(k, |scores|)
    ensures forall i :: 0 <= i < |r| ==> r[i] < |scores|
    ensures forall a, b :: 0 <= a < b < |r| ==> Before(scores, r[a], r[b])
    ensures forall a, y :: 0 <= a < |r| && 0 <= y < |scores| && y !in r ==> Before(scores, r[a], y)
  {
    var all := Range(|scores|);
    RangeDistinct(|scores|);
    RangeMembers(|scores|);
    TopOfRanked(all, scores, k);
    var r := TopOf(all, scores, k);
    assert Sorted(scores, r) && Dominates(scores, r, all);
    r
  }

  /** The picks of `TopK` are distinct, come by non-increasing score, and
      keep position order among equal scores. */
  lemma TopKOrder(scores: seq<real>, k: nat)
    ensures var r := TopK(scores, k);
      && Distinct(r)
      && (forall a, b :: 0 <= a < b < |r| ==> scores[r[b]] <= scores[r[a]])
      && (forall a, b :: 0 <= a < b < |r| && scores[r[a]] == scores[r[b]] ==> r[a] < r[b])
      && (forall a, y :: 0 <= a < |r| && 0 <= y < |scores| && y !in r ==> scores[y] <= scores[r[a]])
  {
  }
}
