/** Sequence vocabulary used throughout the model: distinctness, order-preserving
    filtering (a Python list comprehension with an `if`), subsequences, Python's
    slice prefix `s[:k]`, and `dict.fromkeys` as an order-preserving dedupe. */
module Seqs {
  import opened Base

  /** No value occurs twice. */
  predicate Distinct<T(==)>(s: seq<T>) {
    forall i, j :: 0 <= i < j < |s| ==> s[i] != s[j]
  }

  /** `a` can be obtained from `b` by deleting elements, keeping the order. */
  predicate IsSubsequence<T(==)>(a: seq<T>, b: seq<T>)
    decreases |b|
  {
    |a| == 0 ||
    (|b| > 0 &&
     ((a[0] == b[0] && IsSubsequence(a[1..], b[1..])) || IsSubsequence(a, b[1..])))
  }

  /** The positions `0` to `n - 1` in order. */
  function Range(n: nat): (r: seq<nat>)
    ensures |r| == n
    ensures forall i :: 0 <= i < n ==> r[i] == i
  {
    if n == 0 then [] else Range(n - 1) + [n - 1]
  }

  lemma RangeDistinct(n: nat)
    ensures Distinct(Range(n))
  {
  }

  lemma RangeMembers(n: nat)
    ensures forall x: int :: x in Range(n) <==> 0 <= x < n
  {
    var r := Range(n);
    forall x: int | 0 <= x < n ensures x in r {
      assert r[x] == x;
    }
  }

  lemma DistinctCons<T>(a: T, t: seq<T>)
    ensures Distinct([a] + t) <==> a !in t && Distinct(t)
  {
    var s := [a] + t;
    if a !in t && Distinct(t) {
      forall i, j | 0 <= i < j < |s| ensures s[i] != s[j] {
        if i == 0 {
          assert s[j] == t[j - 1];
        } else {
          assert s[i] == t[i - 1] && s[j] == t[j - 1];
        }
      }
    }
    if Distinct(s) {
      forall k | 0 <= k < |t| ensures t[k] != a {
        assert s[0] == a && s[k + 1] == t[k];
      }
      forall i, j | 0 <= i < j < |t| ensures t[i] != t[j] {
        assert t[i] == s[i + 1] && t[j] == s[j + 1];
      }
    }
  }

  lemma DistinctSnoc<T>(t: seq<T>, a: T)
    ensures Distinct(t + [a]) <==> a !in t && Distinct(t)
  {
    var s := t + [a];
    if a !in t && Distinct(t) {
      forall i, j | 0 <= i < j < |s| ensures s[i] != s[j] {
        assert s[i] == t[i];
        if j < |t| { assert s[j] == t[j]; }
      }
    }
    if Distinct(s) {
      forall k | 0 <= k < |t| ensures t[k] != a {
        assert s[k] == t[k] && s[|t|] == a;
      }
      forall i, j | 0 <= i < j < |t| ensures t[i] != t[j] {
        assert t[i] == s[i] && t[j] == s[j];
      }
    }
  }

  /** A distinct sequence with two different members has at least two elements. */
  lemma TwoMembers<T>(s: seq<T>, x: T, y: T)
    requires x in s && y in s && x != y
    ensures |s| >= 2
  {
  }

  /** Joining two distinct sequences with no common element gives a distinct
      sequence. */
  lemma DistinctAppend<T>(a: seq<T>, b: seq<T>)
    requires Distinct(a) && Distinct(b)
    requires forall i :: 0 <= i < |b| ==> b[i] !in a
    ensures Distinct(a + b)
  {
    var s := a + b;
    forall i, j | 0 <= i < j < |s| ensures s[i] != s[j] {
      if j < |a| {
        assert s[i] == a[i] && s[j] == a[j];
      } else if i >= |a| {
        assert s[i] == b[i - |a|] && s[j] == b[j - |a|];
      } else {
        assert s[i] == a[i] && s[j] == b[j - |a|];
      }
    }
  }

  /** A prefix of a distinct sequence is distinct. */
  lemma PrefixDistinct<T>(s: seq<T>, n: nat)
    requires n <= |s| && Distinct(s)
    ensures Distinct(s[..n])
  {
  }

  /** A distinct sequence has as many elements as its set of members. */
  lemma {:induction false} DistinctCardinality<T>(s: seq<T>)
    requires Distinct(s)
    ensures |set x | x in s| == |s|
  {
    if |s| > 0 {
      assert s == [s[0]] + s[1..];
      DistinctCons(s[0], s[1..]);
      DistinctCardinality(s[1..]);
      assert (set x | x in s) == (set x | x in s[1..]) + {s[0]};
    }
  }

  /** A distinct sequence whose members all occur in `a` or `b` (both
      distinct) is no longer than `a` and `b` together. */
  lemma CoverCount<T>(e: seq<T>, a: seq<T>, b: seq<T>)
    requires Distinct(e) && Distinct(a) && Distinct(b)
    requires forall i :: 0 <= i < |e| ==> e[i] in a || e[i] in b
    ensures |e| <= |a| + |b|
  {
    DistinctCardinality(e);
    DistinctCardinality(a);
    DistinctCardinality(b);
    var se := set x | x in e;
    var sa := set x | x in a;
    var sb := set x | x in b;
    assert se <= sa + sb;
    SubsetCardinality(se, sa + sb);
  }

  lemma {:induction false} SubsetCardinality<T>(x: set<T>, y: set<T>)
    requires x <= y
    ensures |x| <= |y|
    decreases |y|
  {
    if x != {} {
      var z :| z in x;
      SubsetCardinality(x - {z}, y - {z});
    }
  }

  /** In `a + b`, `a` is the prefix and every later element comes from `b`. */
  lemma AppendParts<T>(a: seq<T>, b: seq<T>, p: T -> bool)
    requires forall i :: 0 <= i < |b| ==> p(b[i])
    ensures (a + b)[..|a|] == a
    ensures forall i :: |a| <= i < |a + b| ==> p((a + b)[i])
  {
    forall i | |a| <= i < |a + b| ensures p((a + b)[i]) {
      assert (a + b)[i] == b[i - |a|];
    }
  }

  /** The elements of `s` satisfying `p`, in their original order: a list
      comprehension with a condition. */
  function Filter<T(==)>(s: seq<T>, p: T -> bool): (r: seq<T>)
    ensures |r| <= |s|
    ensures forall i :: 0 <= i < |r| ==> r[i] in s && p(r[i])
    ensures forall i :: 0 <= i < |s| && p(s[i]) ==> s[i] in r
    ensures IsSubsequence(r, s)
    ensures Distinct(s) ==> Distinct(r)
  {
    if |s| == 0 then []
    else
      assert s == [s[0]] + s[1..];
      var rest := Filter(s[1..], p);
      if p(s[0]) then
        DistinctCons(s[0], s[1..]);
        DistinctCons(s[0], rest);
        [s[0]] + rest
      else
        DistinctCons(s[0], s[1..]);
        rest
  }

  /** Filtering twice with the same predicate keeps what filtering once kept. */
  lemma {:induction false} FilterIdempotent<T>(s: seq<T>, p: T -> bool)
    ensures Filter(Filter(s, p), p) == Filter(s, p)
  {
    if |s| > 0 {
      FilterIdempotent(s[1..], p);
      var rest := Filter(s[1..], p);
      if p(s[0]) {
        assert ([s[0]] + rest)[1..] == rest;
      }
    }
  }

  /** Filtering a concatenation filters each part. */
  lemma {:induction false} FilterAppend<T>(a: seq<T>, b: seq<T>, p: T -> bool)
    ensures Filter(a + b, p) == Filter(a, p) + Filter(b, p)
  {
    if |a| == 0 {
      assert a + b == b;
    } else {
      assert (a + b)[1..] == a[1..] + b;
      FilterAppend(a[1..], b, p);
    }
  }

  /** Two tests that agree on every element keep the same elements. */
  lemma {:induction false} FilterAgree<T>(s: seq<T>, p: T -> bool, q: T -> bool)
    requires forall i :: 0 <= i < |s| ==> p(s[i]) == q(s[i])
    ensures Filter(s, p) == Filter(s, q)
  {
    if |s| > 0 {
      FilterAgree(s[1..], p, q);
    }
  }

  /** The sequence without its element at position `j`. */
  function RemoveAt<T>(s: seq<T>, j: nat): (r: seq<T>)
    requires j < |s|
    ensures |r| == |s| - 1
  {
    s[..j] + s[j + 1..]
  }

  lemma RemoveAtMultiset<T>(s: seq<T>, j: nat)
    requires j < |s|
    ensures multiset(s) == multiset{s[j]} + multiset(RemoveAt(s, j))
  {
    assert s == s[..j] + [s[j]] + s[j + 1..];
  }

  lemma RemoveAtMembers<T>(s: seq<T>, j: nat)
    requires j < |s|
    ensures forall x :: x in RemoveAt(s, j) ==> x in s
  {
    assert s == s[..j] + [s[j]] + s[j + 1..];
  }

  lemma RemoveAtDistinct<T>(s: seq<T>, j: nat)
    requires j < |s| && Distinct(s)
    ensures Distinct(RemoveAt(s, j))
    ensures s[j] !in RemoveAt(s, j)
  {
    var r := RemoveAt(s, j);
    forall a, b | 0 <= a < b < |r| ensures r[a] != r[b] {
      var a' := if a < j then a else a + 1;
      var b' := if b < j then b else b + 1;
      assert r[a] == s[a'] && r[b] == s[b'];
    }
    forall a | 0 <= a < |r| ensures r[a] != s[j] {
      assert r[a] == s[if a < j then a else a + 1];
    }
  }

  /** The elements of `s` at distinct positions `ps` (given as `r`, with
      `r[i] == s[ps[i]]`) take no value more often than `s` holds it. */
  lemma {:induction false} PickSubMultiset<T>(s: seq<T>, ps: seq<nat>, r: seq<T>)
    requires Distinct(ps)
    requires forall i :: 0 <= i < |ps| ==> ps[i] < |s|
    requires |r| == |ps| && forall i :: 0 <= i < |ps| ==> r[i] == s[ps[i]]
    ensures multiset(r) <= multiset(s)
    decreases |s|
  {
    if |ps| > 0 {
      assert ps[0] < |s|;
      var n := |s| - 1;
      var s' := s[..n];
      assert s == s' + [s[n]];
      if n in ps {
        var j :| 0 <= j < |ps| && ps[j] == n;
        var ps' := RemoveAt(ps, j);
        var r' := RemoveAt(r, j);
        RemoveAtDistinct(ps, j);
        forall i | 0 <= i < |ps'| ensures ps'[i] < n && r'[i] == s'[ps'[i]] {
          var i' := if i < j then i else i + 1;
          assert ps'[i] == ps[i'] && r'[i] == r[i'];
        }
        PickSubMultiset(s', ps', r');
        RemoveAtMultiset(r, j);
      } else {
        forall i | 0 <= i < |ps| ensures ps[i] < n && r[i] == s'[ps[i]] {
          assert ps[i] != n;
        }
        PickSubMultiset(s', ps, r);
      }
    }
  }

  /** Python's slice `s[:k]`: a non-negative `k` keeps at most `k` elements, a
      negative `k` drops the last `-k` elements. */
  function PyPrefix<T>(s: seq<T>, k: int): (r: seq<T>)
    ensures 0 <= k ==> |r| == Min(k, |s|)
    ensures k < 0 ==> |r| == Max(0, |s| + k)
    ensures r == s[..|r|]
  {
    if k >= 0 then s[..Min(k, |s|)] else s[..Max(0, |s| + k)]
  }

  /** The members of `s` in the order of their first occurrence: element `i`
      is kept exactly when it did not occur in `s[..i]`. */
  function FirstOccurrences<T(==)>(s: seq<T>): seq<T>
  {
    if |s| == 0 then []
    else
      var init := s[..|s| - 1];
      FirstOccurrences(init) + (if s[|s| - 1] in init then [] else [s[|s| - 1]])
  }

  lemma {:induction false} FirstOccurrencesProperties<T>(s: seq<T>)
    ensures forall i :: 0 <= i < |FirstOccurrences(s)| ==> FirstOccurrences(s)[i] in s
    ensures forall i :: 0 <= i < |s| ==> s[i] in FirstOccurrences(s)
    ensures Distinct(FirstOccurrences(s))
  {
    if |s| > 0 {
      var init := s[..|s| - 1];
      var last := s[|s| - 1];
      FirstOccurrencesProperties(init);
      assert s == init + [last];
      if last !in init {
        DistinctSnoc(FirstOccurrences(init), last);
      }
    }
  }

  lemma FirstOccurrencesMember<T>(s: seq<T>, x: T)
    ensures x in FirstOccurrences(s) <==> x in s
  {
    FirstOccurrencesProperties(s);
    if x in s {
      var i :| 0 <= i < |s| && s[i] == x;
    }
    if x in FirstOccurrences(s) {
      var i :| 0 <= i < |FirstOccurrences(s)| && FirstOccurrences(s)[i] == x;
    }
  }

  /** The keys of a dictionary built from `s` with `dict.fromkeys`: keys are
      inserted in iteration order and a key already present keeps its place. */
  function DictFromKeys<T(==)>(s: seq<T>): seq<T> {
    InsertKeys([], s)
  }

  function InsertKeys<T(==)>(keys: seq<T>, s: seq<T>): seq<T>
    decreases |s|
  {
    if |s| == 0 then keys
    else InsertKeys(if s[0] in keys then keys else keys + [s[0]], s[1..])
  }

  /** Appending one element adds it to the first occurrences unless it
      occurred already. */
  lemma FirstOccurrencesSnoc<T>(p: seq<T>, x: T)
    ensures FirstOccurrences(p + [x]) ==
      if x in FirstOccurrences(p) then FirstOccurrences(p) else FirstOccurrences(p) + [x]
  {
    var p' := p + [x];
    assert p'[..|p'| - 1] == p;
    FirstOccurrencesMember(p, x);
  }

  /** Inserting the rest of a sequence into the dictionary built from its
      beginning yields the first occurrences of the whole sequence. */
  lemma {:induction false} InsertKeysFirstOccurrences<T>(p: seq<T>, s: seq<T>)
    ensures InsertKeys(FirstOccurrences(p), s) == FirstOccurrences(p + s)
    decreases |s|
  {
    if |s| == 0 {
      assert p + s == p;
    } else {
      var p' := p + [s[0]];
      assert InsertKeys(FirstOccurrences(p), s) == InsertKeys(FirstOccurrences(p'), s[1..]) by {
        FirstOccurrencesSnoc(p, s[0]);
      }
      assert InsertKeys(FirstOccurrences(p'), s[1..]) == FirstOccurrences(p' + s[1..]) by {
        InsertKeysFirstOccurrences(p', s[1..]);
      }
      assert p' + s[1..] == p + s;
    }
  }

  /** `dict.fromkeys` keeps exactly the first occurrence of every member. */
  lemma DictFromKeysIsFirstOccurrences<T>(s: seq<T>)
    ensures DictFromKeys(s) == FirstOccurrences(s)
    ensures forall i :: 0 <= i < |DictFromKeys(s)| ==> DictFromKeys(s)[i] in s
    ensures forall i :: 0 <= i < |s| ==> s[i] in DictFromKeys(s)
    ensures Distinct(DictFromKeys(s))
  {
    assert FirstOccurrences<T>([]) == [];
    InsertKeysFirstOccurrences([], s);
    assert [] + s == s;
    FirstOccurrencesProperties(s);
  }

  /** Number of occurrences of `x`. */
  function Count<T(==)>(s: seq<T>, x: T): nat {
    multiset(s)[x]
  }

  /** A prefix is a sub-multiset. */
  lemma PrefixMultiset<T>(s: seq<T>, n: nat)
    requires n <= |s|
    ensures multiset(s[..n]) <= multiset(s)
  {
    assert s == s[..n] + s[n..];
  }

  /** Occurrences in a concatenation add up. */
  lemma CountAppend<T>(a: seq<T>, b: seq<T>, x: T)
    ensures Count(a + b, x) == Count(a, x) + Count(b, x)
  {
    assert multiset(a + b) == multiset(a) + multiset(b);
  }

  /** Filtering keeps every occurrence of a value that passes the test and
      none of one that fails it. */
  lemma {:induction false} FilterCount<T>(s: seq<T>, p: T -> bool, x: T)
    ensures Count(Filter(s, p), x) == if p(x) then Count(s, x) else 0
  {
    if |s| > 0 {
      FilterCount(s[1..], p, x);
      assert s == [s[0]] + s[1..];
      assert multiset(s) == multiset{s[0]} + multiset(s[1..]);
      if p(s[0]) {
        assert Filter(s, p) == [s[0]] + Filter(s[1..], p);
        assert multiset(Filter(s, p)) == multiset{s[0]} + multiset(Filter(s[1..], p));
      } else {
        assert Filter(s, p) == Filter(s[1..], p);
      }
    }
  }

  lemma FilterCounts<T>(s: seq<T>, p: T -> bool)
    ensures forall x :: Count(Filter(s, p), x) == if p(x) then Count(s, x) else 0
  {
    forall x ensures Count(Filter(s, p), x) == if p(x) then Count(s, x) else 0 {
      FilterCount(s, p, x);
    }
  }
}
