/** Counting arguments on segment numbers. */
module Counting {

  ghost predicate Distinct<T>(q: seq<T>) {
    forall i, j :: 0 <= i < j < |q| ==> q[i] != q[j]
  }

  ghost predicate Increasing(q: seq<nat>) {
    forall i, j :: 0 <= i < j < |q| ==> q[i] < q[j]
  }

  ghost predicate Decreasing(q: seq<nat>) {
    forall i, j :: 0 <= i < j < |q| ==> q[i] > q[j]
  }

  /** Subtraction that stops at zero. */
  function Minus(a: nat, b: nat): nat { if a > b then a - b else 0 }

  lemma SubsetSize<T>(a: set<T>, b: set<T>)
    requires a <= b
    ensures |a| <= |b|
  {
    assert b == a + (b - a);
  }

  /** The numbers below `n`. */
  function Below(n: nat): (s: set<nat>)
    ensures |s| == n && forall k :: k in s <==> 0 <= k < n
  {
    if n == 0 then {} else Below(n - 1) + {n - 1}
  }

  lemma DistinctSize<T>(d: seq<T>)
    requires Distinct(d)
    ensures |set k | k in d| == |d|
  {
    if d != [] {
      var rest, last := d[..|d| - 1], d[|d| - 1];
      DistinctSize(rest);
      assert last !in rest;
      assert d == rest + [last];
      assert (set k | k in d) == (set k | k in rest) + {last};
    }
  }

  ghost function Elements<T>(d: seq<T>): set<T> { set k | k in d }

  /** A sequence contains no more than its length. */
  lemma {:induction false} NoLarger<T>(d: seq<T>)
    ensures |Elements(d)| <= |d|
  {
    if d != [] {
      var rest, last := d[..|d| - 1], d[|d| - 1];
      NoLarger(rest);
      assert d == rest + [last];
      ElementsGrow(rest, last);
    }
  }

  lemma ElementsGrow<T>(d: seq<T>, k: T)
    ensures |Elements(d + [k])| == |Elements(d)| + if k in d then 0 else 1
  {
    if k in d {
      assert Elements(d + [k]) == Elements(d);
    } else {
      assert Elements(d + [k]) == Elements(d) + {k};
    }
  }

  /** `n` distinct numbers up to `n`, none of them `x`, are all the others. */
  lemma Pigeonhole(d: seq<nat>, n: nat, x: nat)
    requires Distinct(d) && x <= n && |d| >= n
    requires forall k :: k in d ==> k <= n && k != x
    ensures forall k: nat :: k <= n && k != x ==> k in d
  {
    var others := Below(n + 1) - {x};
    var seen := set k | k in d;
    DistinctSize(d);
    assert seen <= others;
    assert |others| == n;
    forall k: nat | k <= n && k != x
      ensures k in d
    {
      assert k in others;
      if k !in seen {
        SubsetSize(seen, others - {k});
      }
    }
  }

  /** The elements of a set in some order, each once. */
  lemma {:induction false} Listed<T>(s: set<T>) returns (q: seq<T>)
    ensures Distinct(q) && forall x :: x in q <==> x in s
    decreases |s|
  {
    if s == {} {
      q := [];
    } else {
      var x :| x in s;
      var rest := Listed(s - {x});
      q := rest + [x];
    }
  }
}
