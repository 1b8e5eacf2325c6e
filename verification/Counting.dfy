/** Cardinalities of the finite sets the dispatcher's accounting is about. */
module Counting {
  import opened Base

  ghost function Range(lo: nat, hi: nat): (r: set<nat>)
    requires lo <= hi
    ensures forall p: nat :: p in r <==> lo <= p < hi
  {
    if lo == hi then {} else Range(lo, hi - 1) + {hi - 1}
  }

  lemma {:induction false} RangeSize(lo: nat, hi: nat)
    requires lo <= hi
    ensures |Range(lo, hi)| == hi - lo
  {
    if lo == hi {
    } else {
      RangeSize(lo, hi - 1);
    }
  }

  ghost function Elements(s: seq<nat>): (r: set<nat>)
    ensures forall x :: x in r <==> x in s
  {
    set x | x in s
  }

  lemma {:induction false} DistinctSize(s: seq<nat>)
    requires Distinct(s)
    ensures |Elements(s)| == |s|
  {
    if s == [] {
      assert Elements(s) == {};
    } else {
      var t := s[..|s| - 1];
      DistinctSize(t);
      assert Elements(s) == Elements(t) + {s[|s| - 1]};
      assert s[|s| - 1] !in t;
    }
  }

  lemma {:induction false} SubsetSize<T>(a: set<T>, b: set<T>)
    requires a <= b
    ensures |a| <= |b|
  {
    if a != {} {
      var x :| x in a;
      SubsetSize(a - {x}, b - {x});
    }
  }

  /** The values that `f` takes on `s`. */
  ghost function Image(s: set<nat>, f: map<nat, int>): (r: set<int>)
    requires s <= f.Keys
  {
    set p | p in s :: f[p]
  }

  lemma {:induction false} InjectiveImageSize(s: set<nat>, f: map<nat, int>)
    requires s <= f.Keys
    requires forall p, q :: p in s && q in s && p != q ==> f[p] != f[q]
    ensures |Image(s, f)| == |s|
  {
    if s == {} {
      assert Image(s, f) == {};
    } else {
      var p :| p in s;
      InjectiveImageSize(s - {p}, f);
      assert Image(s, f) == Image(s - {p}, f) + {f[p]};
      assert f[p] !in Image(s - {p}, f);
    }
  }

  lemma DisjointSize<T>(a: set<T>, b: set<T>, all: set<T>)
    requires a !! b && a <= all && b <= all
    ensures |a| + |b| <= |all|
  {
    SubsetSize(a + b, all);
  }
}
