/** Order-of-appearance distinct values: the `Series.unique()` call of the
    generator, and `unique()[:k]`, which keeps the first `k` of them. */
module FirstSeen {

  predicate NoDuplicates<T(==)>(s: seq<T>)
  {
    forall i, j :: 0 <= i < j < |s| ==> s[i] != s[j]
  }

  function Elems<T>(s: seq<T>): set<T>
  {
    set x | x in s
  }

  function Min(a: int, b: int): int { if a <= b then a else b }

  /** A sequence without duplicates has as many distinct elements as entries. */
  lemma {:induction false} DistinctCount<T>(s: seq<T>)
    requires NoDuplicates(s)
    ensures |Elems(s)| == |s|
  {
    if s != [] {
      var n := |s| - 1;
      var p := s[..n];
      DistinctCount(p);
      assert s == p + [s[n]];
      assert Elems(s) == Elems(p) + {s[n]};
      assert s[n] !in Elems(p);
    }
  }

  /** The position where `x` first occurs in `s`. */
  function FirstIndex<T(==)>(s: seq<T>, x: T): (k: nat)
    requires x in s
    ensures k < |s| && s[k] == x
    ensures forall j :: 0 <= j < k ==> s[j] != x
  {
    var n := |s| - 1;
    if x in s[..n] then FirstIndex(s[..n], x) else n
  }

  /** The distinct values of `s`, each where it first appears, in the order
      in which they first appear. */
  function Unique<T(==,!new)>(s: seq<T>): (u: seq<T>)
    ensures NoDuplicates(u)
    ensures forall x :: x in u <==> x in s
    ensures forall i, j :: 0 <= i < j < |u| ==> FirstIndex(s, u[i]) < FirstIndex(s, u[j])
  {
    if s == [] then []
    else
      var n := |s| - 1;
      var p := s[..n];
      var v := Unique(p);
      assert forall x :: x in p ==> FirstIndex(s, x) == FirstIndex(p, x);
      if s[n] in v then v
      else
        assert FirstIndex(s, s[n]) == n;
        v + [s[n]]
  }

  /** `unique()[:k]`: the first `k` values of `Unique(s)`, or all of them. */
  function FirstDistinct<T(==,!new)>(s: seq<T>, k: nat): (r: seq<T>)
    ensures NoDuplicates(r)
    ensures |r| == Min(k, |Elems(s)|)
    ensures forall x :: x in r ==> x in s
  {
    var u := Unique(s);
    DistinctCount(u);
    assert Elems(u) == Elems(s);
    if k <= |u| then u[..k] else u
  }

  /** `FirstDistinct(s, k)` keeps values in order of first appearance, and any
      value of `s` it leaves out first appears after all the kept ones, and is
      left out only because `k` values were already kept. */
  lemma FirstDistinctInOrder<T(!new)>(s: seq<T>, k: nat)
    ensures var r := FirstDistinct(s, k);
      forall i, j :: 0 <= i < j < |r| ==> FirstIndex(s, r[i]) < FirstIndex(s, r[j])
    ensures var r := FirstDistinct(s, k);
      forall x :: x in s && x !in r ==>
        |r| == k && forall j :: 0 <= j < |r| ==> FirstIndex(s, r[j]) < FirstIndex(s, x)
  {
    var u := Unique(s);
    var r := FirstDistinct(s, k);
    assert r == if k <= |u| then u[..k] else u;
    forall x | x in s && x !in r
      ensures |r| == k && forall j :: 0 <= j < |r| ==> FirstIndex(s, r[j]) < FirstIndex(s, x)
    {
      var m :| 0 <= m < |u| && u[m] == x;
      assert m >= |r|;
    }
  }
}
