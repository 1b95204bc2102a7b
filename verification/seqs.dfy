/** Sequence helpers shared by the store and the views: JavaScript's
    Array.prototype.filter, find and reduce-to-a-sum, and a stable insertion
    sort standing in for Array.prototype.sort with a consistent comparator. */
module Seqs {

  datatype Option<+T> = None | Some(value: T)

  /** Array.prototype.filter: keeps, in order, the elements satisfying p. */
  function Filter<T>(s: seq<T>, p: T -> bool): (r: seq<T>)
    ensures |r| <= |s|
    ensures forall i :: 0 <= i < |r| ==> r[i] in s && p(r[i])
    ensures forall i :: 0 <= i < |s| && p(s[i]) ==> s[i] in r
    ensures multiset(r) <= multiset(s)
    decreases |s|
  {
    if s == [] then []
    else
      TailIndex(s);
      (if p(s[0]) then [s[0]] else []) + Filter(s[1..], p)
  }

  /** A non-empty sequence is its head followed by its tail. */
  lemma TailIndex<T>(s: seq<T>)
    requires s != []
    ensures s == [s[0]] + s[1..]
    ensures forall i :: 1 <= i < |s| ==> s[i] == s[1..][i - 1]
  {
  }

  lemma {:induction false} FilterAppend<T>(a: seq<T>, b: seq<T>, p: T -> bool)
    ensures Filter(a + b, p) == Filter(a, p) + Filter(b, p)
    decreases |a|
  {
    if a == [] {
      assert a + b == b;
    } else {
      assert (a + b)[1..] == a[1..] + b;
      FilterAppend(a[1..], b, p);
    }
  }

  /** A filter that rejects nothing is the identity. */
  lemma {:induction false} FilterAll<T>(s: seq<T>, p: T -> bool)
    requires forall i :: 0 <= i < |s| ==> p(s[i])
    ensures Filter(s, p) == s
    decreases |s|
  {
    if s != [] {
      FilterAll(s[1..], p);
    }
  }

  /** A filter that accepts nothing yields the empty sequence. */
  lemma {:induction false} FilterNone<T>(s: seq<T>, p: T -> bool)
    requires forall i :: 0 <= i < |s| ==> !p(s[i])
    ensures Filter(s, p) == []
    decreases |s|
  {
    if s != [] {
      FilterNone(s[1..], p);
    }
  }

  /** Filtering keeps elements in their original relative order, so a
      sorted sequence stays sorted. */
  lemma {:induction false} FilterKeepsSorted<T>(s: seq<T>, p: T -> bool, le: (T, T) -> bool)
    requires SortedBy(s, le)
    ensures SortedBy(Filter(s, p), le)
    decreases |s|
  {
    if s != [] {
      FilterKeepsSorted(s[1..], p, le);
      var rest := Filter(s[1..], p);
      if p(s[0]) {
        var r := [s[0]] + rest;
        forall i, j | 0 <= i < j < |r|
          ensures le(r[i], r[j])
        {
          if i == 0 {
            assert r[j] in s[1..];
          } else {
            assert r[i] == rest[i - 1] && r[j] == rest[j - 1];
          }
        }
      }
    }
  }

  /** Array.prototype.find: the first element satisfying p, if any. */
  function Find<T>(s: seq<T>, p: T -> bool): (r: Option<T>)
    ensures r.None? <==> forall i :: 0 <= i < |s| ==> !p(s[i])
    ensures r.Some? ==> r.value in s && p(r.value)
    decreases |s|
  {
    if s == [] then None
    else if p(s[0]) then Some(s[0])
    else Find(s[1..], p)
  }

  /** find returns the element at the first index that satisfies p. */
  lemma {:induction false} FindFirst<T>(s: seq<T>, p: T -> bool, k: nat)
    requires k < |s| && p(s[k])
    requires forall j :: 0 <= j < k ==> !p(s[j])
    ensures Find(s, p) == Some(s[k])
    decreases k
  {
    if k > 0 {
      FindFirst(s[1..], p, k - 1);
    }
  }

  /** Appending at the end never changes a successful find. */
  lemma {:induction false} FindAppend<T>(a: seq<T>, b: seq<T>, p: T -> bool)
    ensures Find(a, p).Some? ==> Find(a + b, p) == Find(a, p)
    ensures Find(a, p).None? ==> Find(a + b, p) == Find(b, p)
    decreases |a|
  {
    if a == [] {
      assert a + b == b;
    } else {
      assert (a + b)[1..] == a[1..] + b;
      FindAppend(a[1..], b, p);
    }
  }

  /** The sum of f over the elements, as a reduce starting from 0. */
  function SumOf<T>(s: seq<T>, f: T -> real): real
    decreases |s|
  {
    if s == [] then 0.0 else f(s[0]) + SumOf(s[1..], f)
  }

  /** The number of elements satisfying p, counted element by element. */
  function Count<T>(s: seq<T>, p: T -> bool): (n: nat)
    ensures n <= |s|
    decreases |s|
  {
    if s == [] then 0 else (if p(s[0]) then 1 else 0) + Count(s[1..], p)
  }

  /** The sum of f over the elements satisfying p, in a single pass. */
  function SumWhere<T>(s: seq<T>, p: T -> bool, f: T -> real): real
    decreases |s|
  {
    if s == [] then 0.0 else (if p(s[0]) then f(s[0]) else 0.0) + SumWhere(s[1..], p, f)
  }

  /** Filtering and then taking the length counts the elements satisfying p. */
  lemma {:induction false} FilterCount<T>(s: seq<T>, p: T -> bool)
    ensures |Filter(s, p)| == Count(s, p)
    decreases |s|
  {
    if s != [] {
      FilterCount(s[1..], p);
      assert Filter(s, p) == (if p(s[0]) then [s[0]] else []) + Filter(s[1..], p);
    }
  }

  /** No element is counted exactly when none satisfies p. */
  lemma {:induction false} CountZero<T>(s: seq<T>, p: T -> bool)
    ensures Count(s, p) == 0 <==> forall i :: 0 <= i < |s| ==> !p(s[i])
    decreases |s|
  {
    if s != [] {
      CountZero(s[1..], p);
      assert forall i :: 1 <= i < |s| ==> s[i] == s[1..][i - 1];
    }
  }

  /** Filtering and then summing is the one-pass conditional sum. */
  lemma {:induction false} SumFilterWhere<T>(s: seq<T>, p: T -> bool, f: T -> real)
    ensures SumOf(Filter(s, p), f) == SumWhere(s, p, f)
    decreases |s|
  {
    if s != [] {
      SumFilterCons(s, p, f);
      SumFilterWhere(s[1..], p, f);
    }
  }

  lemma {:induction false} SumAppend<T>(a: seq<T>, b: seq<T>, f: T -> real)
    ensures SumOf(a + b, f) == SumOf(a, f) + SumOf(b, f)
    decreases |a|
  {
    if a == [] {
      assert a + b == b;
    } else {
      assert (a + b)[1..] == a[1..] + b;
      SumAppend(a[1..], b, f);
    }
  }

  /** A sum of equal terms is their count times the term. */
  lemma {:induction false} SumConstant<T>(s: seq<T>, f: T -> real, c: real)
    requires forall i :: 0 <= i < |s| ==> f(s[i]) == c
    ensures SumOf(s, f) == |s| as real * c
    decreases |s|
  {
    if s != [] {
      SumConstant(s[1..], f, c);
    }
  }

  /** One step of a filtered sum: the head contributes when it passes. */
  lemma SumFilterCons<T>(s: seq<T>, p: T -> bool, f: T -> real)
    requires s != []
    ensures SumOf(Filter(s, p), f) == (if p(s[0]) then f(s[0]) else 0.0) + SumOf(Filter(s[1..], p), f)
  {
    var rest := Filter(s[1..], p);
    if p(s[0]) {
      assert Filter(s, p) == [s[0]] + rest;
      assert ([s[0]] + rest)[1..] == rest;
    } else {
      assert Filter(s, p) == rest;
    }
  }

  /** When exactly one element passes, the filtered sum is its term. */
  lemma {:induction false} SumFilterSingle<T>(s: seq<T>, p: T -> bool, f: T -> real, k: nat)
    requires k < |s| && p(s[k])
    requires forall i :: 0 <= i < |s| && i != k ==> !p(s[i])
    ensures SumOf(Filter(s, p), f) == f(s[k])
    decreases |s|
  {
    SumFilterCons(s, p, f);
    if k == 0 {
      FilterNone(s[1..], p);
    } else {
      SumFilterSingle(s[1..], p, f, k - 1);
    }
  }

  /** With non-negative terms, a weaker filter keeps at least as much sum. */
  lemma {:induction false} SumFilterMono<T>(s: seq<T>, p: T -> bool, q: T -> bool, f: T -> real)
    requires forall i :: 0 <= i < |s| ==> f(s[i]) >= 0.0
    requires forall i :: 0 <= i < |s| && p(s[i]) ==> q(s[i])
    ensures SumOf(Filter(s, p), f) <= SumOf(Filter(s, q), f)
    decreases |s|
  {
    if s != [] {
      SumFilterMono(s[1..], p, q, f);
      SumFilterCons(s, p, f);
      SumFilterCons(s, q, f);
    }
  }

  /** Sums of non-negative terms are non-negative and bound every sub-sum
      obtained by filtering. */
  lemma {:induction false} SumFilterLe<T>(s: seq<T>, p: T -> bool, f: T -> real)
    requires forall i :: 0 <= i < |s| ==> f(s[i]) >= 0.0
    ensures 0.0 <= SumOf(Filter(s, p), f) <= SumOf(s, f)
    decreases |s|
  {
    if s != [] {
      SumFilterLe(s[1..], p, f);
      var rest := Filter(s[1..], p);
      if p(s[0]) {
        assert Filter(s, p) == [s[0]] + rest;
        assert ([s[0]] + rest)[1..] == rest;
      } else {
        assert Filter(s, p) == rest;
      }
    }
  }

  // ----- ordering and sorting -----

  /** A comparator that is total and transitive: what a consistent
      JavaScript compare function describes. */
  ghost predicate TotalPreorder<T(!new)>(le: (T, T) -> bool)
  {
    && (forall a, b :: le(a, b) || le(b, a))
    && (forall a, b, c :: le(a, b) && le(b, c) ==> le(a, c))
  }

  predicate SortedBy<T>(s: seq<T>, le: (T, T) -> bool)
  {
    forall i, j :: 0 <= i < j < |s| ==> le(s[i], s[j])
  }

  /** Inserts x before the first element it is ordered before. */
  function InsertBy<T>(x: T, s: seq<T>, le: (T, T) -> bool): (r: seq<T>)
    ensures |r| == |s| + 1
    ensures multiset(r) == multiset(s) + multiset{x}
    decreases |s|
  {
    if s == [] then [x]
    else if le(x, s[0]) then [x] + s
    else
      assert s == [s[0]] + s[1..];
      [s[0]] + InsertBy(x, s[1..], le)
  }

  /** Stable insertion sort: an element that comes first in the input is
      inserted in front of the elements it ties with. */
  function SortBy<T>(s: seq<T>, le: (T, T) -> bool): (r: seq<T>)
    ensures |r| == |s|
    ensures multiset(r) == multiset(s)
    decreases |s|
  {
    if s == [] then []
    else
      assert s == [s[0]] + s[1..];
      InsertBy(s[0], SortBy(s[1..], le), le)
  }

  lemma {:induction false} InsertBySorted<T(!new)>(x: T, s: seq<T>, le: (T, T) -> bool)
    requires TotalPreorder(le)
    requires SortedBy(s, le)
    ensures SortedBy(InsertBy(x, s, le), le)
    decreases |s|
  {
    if s != [] && !le(x, s[0]) {
      InsertBySorted(x, s[1..], le);
      var tail := InsertBy(x, s[1..], le);
      var r := [s[0]] + tail;
      assert le(s[0], x);
      forall i, j | 0 <= i < j < |r|
        ensures le(r[i], r[j])
      {
        if i == 0 {
          assert r[j] in multiset(tail);
          assert r[j] == x || r[j] in multiset(s[1..]);
          if r[j] != x {
            assert r[j] in s[1..];
            var k :| 0 <= k < |s[1..]| && s[1..][k] == r[j];
            assert s[k + 1] == r[j];
          }
        } else {
          assert r[i] == tail[i - 1] && r[j] == tail[j - 1];
        }
      }
    }
  }

  lemma {:induction false} SortBySorted<T(!new)>(s: seq<T>, le: (T, T) -> bool)
    requires TotalPreorder(le)
    ensures SortedBy(SortBy(s, le), le)
    decreases |s|
  {
    if s != [] {
      SortBySorted(s[1..], le);
      InsertBySorted(s[0], SortBy(s[1..], le), le);
    }
  }
}
