/** Counting facts about finite sets of integers, used to show that a
    lattice of 27 distinct positions fills the cube and that every layer
    holds nine cubies. */
module Cardinality {

  /** The integers 0 .. n-1. */
  function Range(n: nat): (r: set<int>)
    ensures forall k :: k in r <==> 0 <= k < n
  {
    var s := seq(n, i => i);
    assert forall k :: 0 <= k < n ==> s[k] == k;
    forall k | 0 <= k < n
      ensures k in s
    {
      assert s[k] == k;
      assert s[k] in s;
    }
    assert forall k :: k in s ==> 0 <= k < n;
    set k | k in s
  }

  lemma {:induction false} RangeCard(n: nat)
    ensures |Range(n)| == n
  {
    if n > 0 {
      RangeCard(n - 1);
      assert Range(n) == Range(n - 1) + {n - 1};
    } else {
      assert Range(n) == {};
    }
  }

  /** The image of a set under f. */
  function Image(a: set<int>, f: int -> int): set<int>
  {
    set x | x in a :: f(x)
  }

  predicate InjectiveOn(a: set<int>, f: int -> int)
  {
    forall x, y :: x in a && y in a && f(x) == f(y) ==> x == y
  }

  lemma EmptyOrInhabited(a: set<int>)
    ensures a == {} || exists x :: x in a
  {
    if !exists x :: x in a {
      assert forall x :: x !in a;
      assert a == {};
    }
  }

  /** An injective map preserves the size of a set. */
  lemma {:induction false} InjectiveImageCard(a: set<int>, f: int -> int)
    requires InjectiveOn(a, f)
    ensures |Image(a, f)| == |a|
    decreases |a|
  {
    EmptyOrInhabited(a);
    if a != {} {
      var x :| x in a;
      var rest := a - {x};
      InjectiveImageCard(rest, f);
      assert Image(a, f) == Image(rest, f) + {f(x)};
      assert f(x) !in Image(rest, f);
    } else {
      assert Image(a, f) == {};
    }
  }

  /** A subset as large as its superset is the whole superset. */
  lemma SubsetOfSameSize(a: set<int>, b: set<int>)
    requires a <= b && |a| == |b|
    ensures a == b
  {
    if exists x :: x in b && x !in a {
      var x :| x in b && x !in a;
      assert a <= b - {x};
      SubsetCard(a, b - {x});
      assert false;
    }
    assert forall x :: x in b ==> x in a;
  }

  /** A subset is no larger than its superset. */
  lemma {:induction false} SubsetCard(a: set<int>, b: set<int>)
    requires a <= b
    ensures |a| <= |b|
    decreases |b|
  {
    EmptyOrInhabited(a);
    if a != {} {
      var x :| x in a;
      SubsetCard(a - {x}, b - {x});
    }
  }
}
