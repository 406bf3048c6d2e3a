/** Finite sets in ascending order: what iterating an ordered map or sorting by a key without ties
    yields. The order is unique, so a list is known by its members. */
module Sorting {

  /** A strict total order on the members of `s`. */
  ghost predicate Orders<T(!new)>(before: (T, T) -> bool, s: set<T>) {
    && (forall x | x in s :: !before(x, x))
    && (forall x, y | x in s && y in s :: x == y || before(x, y) || before(y, x))
    && forall x, y, z | x in s && y in s && z in s && before(x, y) && before(y, z) :: before(x, z)
  }

  predicate Ascending<T>(before: (T, T) -> bool, list: seq<T>) {
    forall i, j | 0 <= i < j < |list| :: before(list[i], list[j])
  }

  ghost predicate IsLeast<T(!new)>(before: (T, T) -> bool, s: set<T>, x: T) {
    x in s && forall y | y in s :: y == x || before(x, y)
  }

  ghost function Members<T>(list: seq<T>): set<T> { set x | x in list }

  lemma {:induction false} LeastExists<T(!new)>(before: (T, T) -> bool, s: set<T>)
    requires s != {} && Orders(before, s)
    ensures exists x :: IsLeast(before, s, x)
  {
    var x :| x in s;
    var rest := s - {x};
    if rest == {} {
      assert s == {x};
      assert IsLeast(before, s, x);
    } else {
      LeastExists(before, rest);
      var y :| IsLeast(before, rest, y);
      assert IsLeast(before, s, if before(x, y) then x else y);
    }
  }

  ghost function LeastOf<T(!new)>(before: (T, T) -> bool, s: set<T>): (x: T)
    requires s != {} && Orders(before, s)
    ensures IsLeast(before, s, x)
  {
    LeastExists(before, s);
    var x :| IsLeast(before, s, x);
    x
  }

  lemma Prepended<T>(x: T, rest: seq<T>)
    ensures Members([x] + rest) == {x} + Members(rest)
  {}

  lemma Appended<T>(list: seq<T>, x: T)
    ensures Members(list + [x]) == Members(list) + {x}
  {}

  /** `list` is `s` in ascending order. */
  ghost predicate Lists<T(!new)>(before: (T, T) -> bool, s: set<T>, list: seq<T>) {
    Ascending(before, list) && Members(list) == s && |list| == |s|
  }

  lemma LeastFirst<T(!new)>(before: (T, T) -> bool, s: set<T>, x: T, rest: seq<T>)
    requires IsLeast(before, s, x) && Lists(before, s - {x}, rest)
    ensures Lists(before, s, [x] + rest)
  {
    Prepended(x, rest);
    assert s == {x} + (s - {x});
    assert forall i | 0 <= i < |rest| :: rest[i] in Members(rest);
  }

  ghost function Sorted<T(!new)>(before: (T, T) -> bool, s: set<T>): (list: seq<T>)
    requires Orders(before, s)
    ensures Lists(before, s, list)
    decreases |s|
  {
    if s == {} then []
    else
      hide Lists, IsLeast;
      var x := LeastOf(before, s);
      FewerLeft(before, s, x);
      var rest := Sorted(before, s - {x});
      LeastFirst(before, s, x, rest);
      [x] + rest
  }

  lemma FewerLeft<T(!new)>(before: (T, T) -> bool, s: set<T>, x: T)
    requires Orders(before, s) && IsLeast(before, s, x)
    ensures |s - {x}| < |s| && Orders(before, s - {x})
  {}

  /** Ascending lists of the same members are the same list. */
  lemma {:induction false} SortedOnce<T(!new)>(before: (T, T) -> bool, a: seq<T>, b: seq<T>)
    requires Orders(before, Members(a)) && Ascending(before, a) && Ascending(before, b) && Members(a) == Members(b)
    ensures a == b
  {
    assert forall i | 0 <= i < |a| :: a[i] in Members(a);
    assert forall i | 0 <= i < |b| :: b[i] in Members(b);
    if a != [] && b != [] {
      FirstIsLeast(before, a);
      FirstIsLeast(before, b);
      RestMembers(before, a);
      RestMembers(before, b);
      SortedOnce(before, a[1..], b[1..]);
      assert a == [a[0]] + a[1..] && b == [b[0]] + b[1..];
    }
  }

  lemma FirstIsLeast<T(!new)>(before: (T, T) -> bool, list: seq<T>)
    requires list != [] && Ascending(before, list)
    ensures IsLeast(before, Members(list), list[0])
  {}

  lemma RestMembers<T(!new)>(before: (T, T) -> bool, list: seq<T>)
    requires list != [] && Ascending(before, list) && Orders(before, Members(list))
    ensures Members(list[1..]) == Members(list) - {list[0]}
  {
    forall x | x in Members(list) - {list[0]} ensures x in list[1..] {
      var i :| 0 <= i < |list| && list[i] == x;
      assert list[1..][i - 1] == x;
    }
    assert list[0] in Members(list);
    forall i | 0 <= i < |list| - 1 ensures list[1..][i] != list[0] {
      assert before(list[0], list[i + 1]);
    }
  }

  /** A list of the members taken so far, all of them before those left. */
  ghost predicate Taken<T(!new)>(before: (T, T) -> bool, s: set<T>, list: seq<T>, rest: set<T>) {
    && rest <= s && Members(list) == s - rest && Ascending(before, list)
    && forall x, y | x in Members(list) && y in rest :: before(x, y)
  }

  lemma TakeNext<T(!new)>(before: (T, T) -> bool, s: set<T>, list: seq<T>, rest: set<T>, x: T)
    requires Taken(before, s, list, rest) && IsLeast(before, rest, x)
    ensures Taken(before, s, list + [x], rest - {x})
  {
    Appended(list, x);
    assert forall i | 0 <= i < |list| :: list[i] in Members(list);
  }

  /** Visits the members in order. */
  method Sort<T(==,!new)>(before: (T, T) -> bool, s: set<T>) returns (list: seq<T>)
    requires Orders(before, s)
    ensures list == Sorted(before, s)
  {
    hide Taken, IsLeast, Members, Ascending;
    var rest := s;
    list := [];
    NothingTaken(before, s);
    while rest != {}
      invariant Taken(before, s, list, rest) && rest <= s
      decreases |rest|
    {
      var x := Least(before, rest);
      TakeNext(before, s, list, rest, x);
      list, rest := list + [x], rest - {x};
    }
    AllTaken(before, s, list);
    SortedOnce(before, list, Sorted(before, s));
  }

  method Least<T(==,!new)>(before: (T, T) -> bool, s: set<T>) returns (x: T)
    requires s != {} && Orders(before, s)
    ensures IsLeast(before, s, x)
  {
    LeastExists(before, s);
    x :| x in s && forall y | y in s :: y == x || before(x, y);
  }

  lemma NothingTaken<T(!new)>(before: (T, T) -> bool, s: set<T>)
    ensures Taken(before, s, [], s)
  {}

  lemma AllTaken<T(!new)>(before: (T, T) -> bool, s: set<T>, list: seq<T>)
    requires Taken(before, s, list, {})
    ensures Ascending(before, list) && Members(list) == s
  {}
}
