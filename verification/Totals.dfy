/** Sums of natural-number weights over finite sets.
    Every byte ledger in the cache models is stated with `Total`. */
module Totals {

  ghost function Total<T>(s: set<T>, w: T -> nat): nat {
    if s == {} then 0 else var x :| x in s; w(x) + Total(s - {x}, w)
  }

  lemma TotalNone<T>(w: T -> nat)
    ensures Total<T>({}, w) == 0
  {}

  lemma {:induction false} TotalRemove<T>(s: set<T>, w: T -> nat, x: T)
    requires x in s
    ensures Total(s, w) == w(x) + Total(s - {x}, w)
  {
    var y :| y in s && Total(s, w) == w(y) + Total(s - {y}, w);
    if y != x {
      TotalRemove(s - {y}, w, x);
      TotalRemove(s - {x}, w, y);
      assert s - {y} - {x} == s - {x} - {y};
    }
  }

  lemma {:induction false} TotalUnion<T>(a: set<T>, b: set<T>, w: T -> nat)
    requires a !! b
    ensures Total(a + b, w) == Total(a, w) + Total(b, w)
  {
    if a == {} {
      assert a + b == b;
    } else {
      var x :| x in a;
      TotalRemove(a, w, x);
      TotalRemove(a + b, w, x);
      assert (a + b) - {x} == (a - {x}) + b;
      TotalUnion(a - {x}, b, w);
    }
  }

  lemma TotalAdd<T>(s: set<T>, w: T -> nat, x: T)
    requires x !in s
    ensures Total(s + {x}, w) == Total(s, w) + w(x)
  {
    TotalRemove(s + {x}, w, x);
    assert (s + {x}) - {x} == s;
  }

  lemma TotalSplit<T>(s: set<T>, part: set<T>, w: T -> nat)
    requires part <= s
    ensures Total(s, w) == Total(part, w) + Total(s - part, w)
  {
    assert s == part + (s - part);
    TotalUnion(part, s - part, w);
  }

  lemma TotalMonotone<T>(a: set<T>, b: set<T>, w: T -> nat)
    requires a <= b
    ensures Total(a, w) <= Total(b, w)
  {
    TotalSplit(b, a, w);
  }

  lemma {:induction false} TotalAgree<T>(s: set<T>, w: T -> nat, v: T -> nat)
    requires forall x | x in s :: w(x) == v(x)
    ensures Total(s, w) == Total(s, v)
  {
    if s != {} {
      var x :| x in s;
      TotalRemove(s, w, x);
      TotalRemove(s, v, x);
      TotalAgree(s - {x}, w, v);
    }
  }

  lemma {:induction false} TotalUniform<T>(s: set<T>, w: T -> nat, c: nat)
    requires forall x | x in s :: w(x) == c
    ensures Total(s, w) == |s| * c
  {
    if s != {} {
      var x :| x in s;
      TotalRemove(s, w, x);
      TotalUniform(s - {x}, w, c);
      assert |s| == |s - {x}| + 1;
    }
  }
}
