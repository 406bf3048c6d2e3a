/** Resident subsets as 32-bit masks. Each operator of the exact search stands under a name, is tied
    to the bits it acts on by halving, and is then used through those facts alone. */
module Masks {
  datatype Mask = Mask(bits: bv32)

  const NONE := Mask(0)

  /** The widest masks in use. */
  const MAX_EXACT_PAGES := 18

  function Unit(i: nat): Mask
    requires i < MAX_EXACT_PAGES
  {
    Mask((1 as bv32) << i)
  }

  function Or(a: Mask, b: Mask): Mask { Mask(a.bits | b.bits) }

  function And(a: Mask, b: Mask): Mask { Mask(a.bits & b.bits) }

  function Down(a: Mask): Mask { Mask(a.bits - 1) }

  predicate AtMost(a: Mask, b: Mask) { a.bits <= b.bits }

  predicate Submask(r: Mask, state: Mask) { And(r, state) == r }

  // ---------------------------------------------------------------- halves

  function Half(a: Mask): Mask { Mask(a.bits >> 1) }

  predicate Odd(a: Mask) { a.bits & 1 == 1 }

  lemma SameHalves(a: Mask, b: Mask)
    requires Half(a) == Half(b) && (Odd(a) <==> Odd(b))
    ensures a == b
  {}

  lemma ZeroHalves()
    ensures Half(NONE) == NONE && !Odd(NONE)
  {}

  lemma HalfLess(a: Mask)
    requires a != NONE
    ensures Half(a).bits < a.bits
  {}

  lemma OrHalves(a: Mask, b: Mask)
    ensures Half(Or(a, b)) == Or(Half(a), Half(b)) && (Odd(Or(a, b)) <==> Odd(a) || Odd(b))
  {}

  lemma AndHalves(a: Mask, b: Mask)
    ensures Half(And(a, b)) == And(Half(a), Half(b)) && (Odd(And(a, b)) <==> Odd(a) && Odd(b))
  {}

  lemma OddDown(r: Mask)
    requires Odd(r)
    ensures Half(Down(r)) == Half(r) && !Odd(Down(r))
  {}

  lemma EvenDown(r: Mask)
    requires !Odd(r) && r != NONE
    ensures Half(Down(r)) == Down(Half(r)) && Odd(Down(r)) && Half(r) != NONE
  {}

  lemma UnitHalves(i: nat)
    requires i < MAX_EXACT_PAGES
    ensures Odd(Unit(i)) <==> i == 0
    ensures Half(Unit(i)) == if i == 0 then NONE else Unit(i - 1)
  {}

  lemma OrderReflexive(a: Mask, b: Mask)
    ensures AtMost(NONE, a) && AtMost(a, a) && (AtMost(a, b) || AtMost(b, a)) && (AtMost(a, NONE) ==> a == NONE)
  {}

  lemma OrderByHalf(a: Mask, b: Mask)
    requires !AtMost(Half(b), Half(a))
    ensures AtMost(a, b)
  {}

  lemma OrderByLow(a: Mask, b: Mask)
    requires Half(a) == Half(b) && (Odd(a) ==> Odd(b))
    ensures AtMost(a, b)
  {}

  lemma HalvesOrder(a: Mask, b: Mask)
    requires AtMost(a, b)
    ensures AtMost(Half(a), Half(b))
  {}

  lemma LowOrder(a: Mask, b: Mask)
    requires AtMost(a, b) && Half(a) == Half(b) && Odd(a)
    ensures Odd(b)
  {}

  lemma {:induction false} Antisymmetric(a: Mask, b: Mask)
    requires AtMost(a, b) && AtMost(b, a)
    ensures a == b
    decreases a.bits
  {
    hide AtMost, Half, Odd;
    OrderReflexive(b, a);
    if a != NONE {
      HalvesOrder(a, b);
      HalvesOrder(b, a);
      HalfLess(a);
      Antisymmetric(Half(a), Half(b));
      if Odd(a) { LowOrder(a, b); }
      if Odd(b) { LowOrder(b, a); }
      SameHalves(a, b);
    }
  }

  // ---------------------------------------------------------------- bits

  predicate Bit(m: Mask, i: nat)
    decreases i
  {
    if i == 0 then Odd(m) else Bit(Half(m), i - 1)
  }

  /** Only the lowest `n` bits are set. */
  predicate Below(m: Mask, n: nat)
    decreases n
  {
    if n == 0 then m == NONE else Below(Half(m), n - 1)
  }

  lemma {:induction false} ZeroBits(n: nat)
    ensures Below(NONE, n) && !Bit(NONE, n)
  {
    hide Half, Odd;
    ZeroHalves();
    if n > 0 { ZeroBits(n - 1); }
  }

  /** The test the search makes for a page. */
  lemma {:induction false} TestsBit(m: Mask, i: nat)
    requires i < MAX_EXACT_PAGES
    ensures And(m, Unit(i)) != NONE <==> Bit(m, i)
    decreases i
  {
    hide Half, Odd, And, Unit;
    var a := And(m, Unit(i));
    AndHalves(m, Unit(i));
    UnitHalves(i);
    ZeroHalves();
    if i > 0 {
      TestsBit(Half(m), i - 1);
    } else {
      AndNothing(Half(m));
    }
    if Half(a) == NONE && !Odd(a) { SameHalves(a, NONE); }
  }

  lemma AndNothing(m: Mask)
    ensures And(m, NONE) == NONE
  {}

  lemma {:induction false} UnitBits(i: nat, j: nat)
    requires i < MAX_EXACT_PAGES
    ensures Bit(Unit(i), j) <==> i == j
  {
    hide Half, Odd, Unit;
    UnitHalves(i);
    if j > 0 {
      if i > 0 { UnitBits(i - 1, j - 1); } else { ZeroBits(j - 1); }
    }
  }

  lemma {:induction false} UnitBelow(i: nat, n: nat)
    requires i < n && i < MAX_EXACT_PAGES
    ensures Below(Unit(i), n)
  {
    hide Half, Odd, Unit;
    UnitHalves(i);
    if i > 0 { UnitBelow(i - 1, n - 1); } else { ZeroBits(n - 1); }
  }

  lemma {:induction false} OrBit(a: Mask, b: Mask, i: nat)
    ensures Bit(Or(a, b), i) <==> Bit(a, i) || Bit(b, i)
    decreases i
  {
    hide Half, Odd, Or;
    OrHalves(a, b);
    if i > 0 { OrBit(Half(a), Half(b), i - 1); }
  }

  lemma {:induction false} AndBit(a: Mask, b: Mask, i: nat)
    ensures Bit(And(a, b), i) <==> Bit(a, i) && Bit(b, i)
    decreases i
  {
    hide Half, Odd, And;
    AndHalves(a, b);
    if i > 0 { AndBit(Half(a), Half(b), i - 1); }
  }

  lemma {:induction false} BelowMore(m: Mask, n: nat)
    requires Below(m, n)
    ensures Below(m, n + 1)
    decreases n
  {
    hide Half, Odd;
    ZeroHalves();
    if n > 0 { BelowMore(Half(m), n - 1); }
  }

  lemma {:induction false} BelowBits(m: Mask, n: nat, i: nat)
    requires n <= i && Below(m, n)
    ensures !Bit(m, i)
    decreases n
  {
    hide Half, Odd;
    if n > 0 { BelowBits(Half(m), n - 1, i - 1); } else { ZeroBits(i); }
  }

  lemma {:induction false} OrBelow(a: Mask, b: Mask, n: nat)
    requires Below(a, n) && Below(b, n)
    ensures Below(Or(a, b), n)
    decreases n
  {
    hide Half, Odd, Or;
    OrHalves(a, b);
    if n > 0 { OrBelow(Half(a), Half(b), n - 1); } else { OrNothing(); }
  }

  lemma OrNothing()
    ensures Or(NONE, NONE) == NONE
  {}

  lemma {:induction false} AndBelow(a: Mask, b: Mask, n: nat)
    requires Below(a, n) || Below(b, n)
    ensures Below(And(a, b), n)
    decreases n
  {
    hide Half, Odd, And;
    AndHalves(a, b);
    if n > 0 { AndBelow(Half(a), Half(b), n - 1); } else { AndZero(a, b); }
  }

  lemma AndSwaps(a: Mask, b: Mask)
    ensures And(a, b) == And(b, a)
  {}

  lemma WholeIsPart(a: Mask)
    ensures Submask(a, a)
  {}

  lemma AndZero(a: Mask, b: Mask)
    requires a == NONE || b == NONE
    ensures And(a, b) == NONE
  {}

  /** Masks are equal when their bits are. */
  lemma {:induction false} BitsDecide(a: Mask, b: Mask, n: nat)
    requires Below(a, n) && Below(b, n) && forall i | 0 <= i < n :: Bit(a, i) <==> Bit(b, i)
    ensures a == b
    decreases n
  {
    hide Half, Odd;
    if n > 0 {
      assert Bit(a, 0) <==> Bit(b, 0);
      forall i | 0 <= i < n - 1 ensures Bit(Half(a), i) <==> Bit(Half(b), i) {
        assert Bit(a, i + 1) <==> Bit(b, i + 1);
      }
      BitsDecide(Half(a), Half(b), n - 1);
      SameHalves(a, b);
    }
  }

  // ---------------------------------------------------------------- submasks in descending order

  function NextBelow(r: Mask, state: Mask): Mask { And(Down(r), state) }

  /** No submask lies between one and the next below it. */
  lemma {:induction false} NextSubmask(s: Mask, r: Mask, state: Mask)
    requires Submask(s, state) && Submask(r, state) && !AtMost(r, s)
    ensures AtMost(s, NextBelow(r, state))
    decreases r.bits
  {
    hide AtMost, Half, Odd, And, Down;
    var n := NextBelow(r, state);
    OrderReflexive(s, r);
    HalvesOrder(s, r);
    AndHalves(s, state);
    AndHalves(r, state);
    AndHalves(Down(r), state);
    if Odd(r) {
      OddDown(r);
      if Half(s) == Half(r) {
        if Odd(s) { SameHalves(s, r); }
        OrderByLow(s, n);
      } else {
        StrictHalf(s, n);
      }
    } else {
      OrderReflexive(r, s);
      EvenDown(r);
      HalfLess(r);
      if Half(s) == Half(r) { OrderByLow(r, s); }
      StrictlyLess(Half(s), Half(r));
      NextSubmask(Half(s), Half(r), Half(state));
      if Half(s) == Half(n) { OrderByLow(s, n); } else { StrictHalf(s, n); }
    }
  }

  lemma StrictlyLess(a: Mask, b: Mask)
    requires AtMost(a, b) && a != b
    ensures !AtMost(b, a)
  {
    hide AtMost;
    if AtMost(b, a) { Antisymmetric(a, b); }
  }

  lemma StrictHalf(a: Mask, b: Mask)
    requires AtMost(Half(a), Half(b)) && Half(a) != Half(b)
    ensures AtMost(a, b)
  {
    hide AtMost, Half;
    StrictlyLess(Half(a), Half(b));
    OrderByHalf(a, b);
  }

  lemma AndAtMost(a: Mask, b: Mask)
    ensures AtMost(And(a, b), a)
  {}

  lemma DownIsLess(r: Mask)
    requires r != NONE
    ensures !AtMost(r, Down(r))
  {}

  lemma {:induction false} Transitive(a: Mask, b: Mask, c: Mask)
    requires AtMost(a, b) && AtMost(b, c)
    ensures AtMost(a, c)
    decreases a.bits
  {
    hide AtMost, Half, Odd;
    OrderReflexive(c, c);
    if a != NONE {
      HalfLess(a);
      HalvesOrder(a, b);
      HalvesOrder(b, c);
      Transitive(Half(a), Half(b), Half(c));
      if Half(a) == Half(c) {
        Antisymmetric(Half(a), Half(b));
        if Odd(a) { LowOrder(a, b); LowOrder(b, c); }
        OrderByLow(a, c);
      } else {
        StrictHalf(a, c);
      }
    }
  }

  lemma NextIsLess(r: Mask, state: Mask)
    requires r != NONE
    ensures !AtMost(r, NextBelow(r, state))
  {
    hide AtMost, And, Down;
    var n := NextBelow(r, state);
    AndAtMost(Down(r), state);
    DownIsLess(r);
    if AtMost(r, n) { Transitive(r, n, Down(r)); }
  }

  lemma NextIsSubmask(r: Mask, state: Mask)
    ensures Submask(NextBelow(r, state), state)
  {}

  // ---------------------------------------------------------------- the lowest bit

  function ClearLowest(r: Mask): Mask { And(r, Down(r)) }

  lemma {:induction false} LowestCleared(r: Mask, i: nat, j: nat)
    requires Bit(r, i) && forall k | 0 <= k < i :: !Bit(r, k)
    ensures Bit(ClearLowest(r), j) <==> Bit(r, j) && j != i
    decreases i
  {
    hide Half, Odd, And, Down;
    AndHalves(r, Down(r));
    if i == 0 {
      OddDown(r);
      if j > 0 { AndBit(Half(r), Half(r), j - 1); }
    } else {
      assert !Bit(r, 0);
      if r == NONE { ZeroBits(i); }
      EvenDown(r);
      forall k | 0 <= k < i - 1 ensures !Bit(Half(r), k) {
        assert !Bit(r, k + 1);
      }
      if j > 0 { LowestCleared(Half(r), i - 1, j - 1); }
    }
  }

  lemma ClearedBelow(r: Mask, n: nat)
    requires Below(r, n)
    ensures Below(ClearLowest(r), n)
  {
    hide Below, And, Down;
    AndBelow(r, Down(r), n);
  }
}
