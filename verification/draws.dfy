/** Python's `random.sample` and `random.shuffle`, with the random source made a
    parameter. A draw stream is any sequence of naturals; the `j`-th draw picks
    the element at position `c[j] mod m` among the `m` elements not yet picked
    (position 0 once the stream runs out). Every stream denotes a legal outcome,
    so everything proved here holds for whatever the random source produces. */
module Draws {
  import opened Seqs

  function Head(c: seq<nat>): nat {
    if |c| == 0 then 0 else c[0]
  }

  function Tail(c: seq<nat>): seq<nat> {
    if |c| == 0 then [] else c[1..]
  }

  /** `k` elements of `s` picked one at a time without replacement. */
  function Draw<T(==)>(s: seq<T>, k: nat, c: seq<nat>): (r: seq<T>)
    requires k <= |s|
    ensures |r| == k
    ensures multiset(r) <= multiset(s)
    ensures k == |s| ==> multiset(r) == multiset(s)
    ensures forall i :: 0 <= i < k ==> r[i] in s
    ensures Distinct(s) ==> Distinct(r)
    decreases k
  {
    if k == 0 then []
    else
      var j := Head(c) % |s|;
      var rest := Draw(RemoveAt(s, j), k - 1, Tail(c));
      DrawStep(s, j, rest);
      [s[j]] + rest
  }

  /** Picking `s[j]` ahead of a draw from the other elements is a draw from
      all of them. */
  lemma DrawStep<T>(s: seq<T>, j: nat, rest: seq<T>)
    requires j < |s|
    requires multiset(rest) <= multiset(RemoveAt(s, j))
    requires |rest| == |s| - 1 ==> multiset(rest) == multiset(RemoveAt(s, j))
    requires forall i :: 0 <= i < |rest| ==> rest[i] in RemoveAt(s, j)
    requires Distinct(RemoveAt(s, j)) ==> Distinct(rest)
    ensures multiset([s[j]] + rest) <= multiset(s)
    ensures |rest| == |s| - 1 ==> multiset([s[j]] + rest) == multiset(s)
    ensures forall i :: 0 <= i < |[s[j]] + rest| ==> ([s[j]] + rest)[i] in s
    ensures Distinct(s) ==> Distinct([s[j]] + rest)
  {
    RemoveAtMultiset(s, j);
    RemoveAtMembers(s, j);
    assert forall i :: 0 < i < |[s[j]] + rest| ==> ([s[j]] + rest)[i] == rest[i - 1];
    if Distinct(s) {
      RemoveAtDistinct(s, j);
      assert s[j] !in multiset(rest);
      DistinctCons(s[j], rest);
    }
  }

  /** `random.shuffle(s)`: a reordering of `s`. */
  function Shuffle<T(==)>(s: seq<T>, c: seq<nat>): (r: seq<T>)
    ensures |r| == |s|
    ensures multiset(r) == multiset(s)
    ensures Distinct(s) ==> Distinct(r)
  {
    Draw(s, |s|, c)
  }

  /** Shuffling changes neither which elements occur nor how often. */
  lemma ShuffleMembers<T>(s: seq<T>, c: seq<nat>, x: T)
    ensures x in Shuffle(s, c) <==> x in s
    ensures Count(Shuffle(s, c), x) == Count(s, x)
  {
    assert x in Shuffle(s, c) <==> x in multiset(Shuffle(s, c));
  }

  /** The positions `random.sample(pool, k)` takes from a pool of `n` elements. */
  function SamplePositions(n: nat, k: nat, c: seq<nat>): (r: seq<nat>)
    requires k <= n
    ensures |r| == k
    ensures Distinct(r)
    ensures forall i :: 0 <= i < |r| ==> r[i] < n
  {
    RangeDistinct(n);
    RangeMembers(n);
    Draw(Range(n), k, c)
  }
}
