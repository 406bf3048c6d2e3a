/** BF16 conversion on bit patterns, against the real numbers the patterns denote
    (round to nearest, ties to even: section 4.3.1 of IEEE 754-2019). */
module Bf16 {

  type U16 = x: nat | x < 0x1_0000
  type U32 = x: nat | x < 0x1_0000_0000

  const HALF: nat := 0x1_0000
  const INFINITY_BITS: nat := 0x7f80_0000
  const INFINITY_WORD: nat := 0x7f80

  // ---------------------------------------------------------------- the conversion

  predicate Negative32(bits: U32) { bits >= 0x8000_0000 }

  function Magnitude32(bits: U32): (m: nat)
    ensures m < 0x8000_0000
  {
    bits % 0x8000_0000
  }

  function Magnitude16(word: U16): (m: nat)
    ensures m < 0x8000
  {
    word % 0x8000
  }

  predicate IsNan32(bits: U32) { Magnitude32(bits) > INFINITY_BITS }

  predicate IsFinite32(bits: U32) { Magnitude32(bits) < INFINITY_BITS }

  datatype Class = Zero | Subnormal | Normal | Infinity | Nan

  function Classify(word: U16): Class {
    var exponent := word / 0x80 % 0x100;
    var fraction := word % 0x80;
    if exponent == 0 then (if fraction == 0 then Zero else Subnormal)
    else if exponent == 0xff then (if fraction == 0 then Infinity else Nan)
    else Normal
  }

  predicate IsFinite16(word: U16) { !Classify(word).Infinity? && !Classify(word).Nan? }

  /** Widening places the word in the high half of the pattern. */
  function ToF32(word: U16): U32 { word * HALF }

  function FromF32Rne(bits: U32): U16 {
    var exponent := bits / 0x80_0000 % 0x100;
    var fraction := bits % 0x80_0000;
    if exponent == 0xff && fraction != 0 then
      var word := bits / HALF;
      if word % 0x80 == 0 then word + 1 else word
    else
      var retained := bits / HALF % 2;
      var rounded := (bits + 0x7fff + retained) % 0x1_0000_0000;
      rounded / HALF
  }

  datatype Conversion = Converted(word: U16) | NonFiniteInput(bits: U32) | RoundedToInfinity(source: U32)

  function TryFromF32Rne(bits: U32): Conversion {
    if !IsFinite32(bits) then NonFiniteInput(bits)
    else
      var word := FromF32Rne(bits);
      if !IsFinite16(word) then RoundedToInfinity(bits) else Converted(word)
  }

  // ---------------------------------------------------------------- what the patterns denote

  /** `n` doubled `e` times. */
  function Shifted(n: nat, e: nat): nat {
    if e == 0 then n else 2 * Shifted(n, e - 1)
  }

  /** How often the unit 2^-149 is doubled for the spacing of patterns at magnitude `m`. */
  function Doublings(m: nat): nat {
    var exponent := m / 0x80_0000;
    if exponent == 0 then 0 else exponent - 1
  }

  /** The magnitude denoted by `m` in units of 2^-149: subnormals count directly, normals have the
      implicit leading bit. At the infinity pattern it continues to 2^128, the value that
      rounding with an unbounded exponent would produce there. */
  function Units(m: nat): nat {
    var significand := m % 0x80_0000 + if m / 0x80_0000 == 0 then 0 else 0x80_0000;
    Shifted(significand, Doublings(m))
  }

  function Signed32(bits: U32): int
  {
    if Negative32(bits) then 0 - Units(Magnitude32(bits)) else Units(Magnitude32(bits))
  }

  function Signed16(word: U16): int { Signed32(ToF32(word)) }

  /** 2^-149, the least positive value. */
  function Unit(): (r: real)
    ensures r > 0.0
  {
    1.0 / (0x20_0000_0000_0000_0000_0000_0000_0000_0000_0000 as real)
  }

  /** The real number a non-NaN word denotes. */
  function Value(word: U16): real { Signed16(word) as real * Unit() }

  function Distance(a: int, b: int): nat { if a < b then b - a else a - b }

  // ---------------------------------------------------------------- values are linear between words

  lemma {:induction false} ShiftedAdd(a: nat, b: nat, e: nat)
    ensures Shifted(a + b, e) == Shifted(a, e) + Shifted(b, e)
  {
    if e > 0 { ShiftedAdd(a, b, e - 1); }
  }

  lemma {:induction false} ShiftedDouble(a: nat, e: nat)
    ensures Shifted(2 * a, e) == Shifted(a, e + 1)
  {
    if e > 0 { ShiftedDouble(a, e - 1); }
  }

  lemma {:induction false} ShiftedIncreases(a: nat, b: nat, e: nat)
    requires a < b
    ensures Shifted(a, e) < Shifted(b, e)
  {
    if e > 0 { ShiftedIncreases(a, b, e - 1); }
  }

  /** Moving to the next pattern adds the spacing of the current one, across binades too. */
  lemma NextUnits(m: nat)
    ensures Units(m + 1) == Units(m) + Shifted(1, Doublings(m))
  {
    var exponent := m / 0x80_0000;
    var fraction := m % 0x80_0000;
    var significand := fraction + if exponent == 0 then 0 else 0x80_0000;
    ShiftedAdd(significand, 1, Doublings(m));
    if fraction == 0x7f_ffff {
      assert (m + 1) / 0x80_0000 == exponent + 1 && (m + 1) % 0x80_0000 == 0;
      if exponent > 0 {
        ShiftedDouble(0x80_0000, exponent - 1);
      }
    } else {
      assert (m + 1) / 0x80_0000 == exponent && (m + 1) % 0x80_0000 == fraction + 1;
    }
  }

  lemma {:induction false} UnitsIncrease(a: nat, b: nat)
    requires a < b
    ensures Units(a) < Units(b)
    decreases b
  {
    NextUnits(b - 1);
    ShiftedIncreases(0, 1, Doublings(b - 1));
    if a < b - 1 { UnitsIncrease(a, b - 1); }
  }

  /** From one word boundary to the next the denoted value grows linearly. */
  lemma {:induction false} LinearWithin(h: nat, r: nat)
    requires r <= HALF
    ensures Units(h * HALF + r) == Units(h * HALF) + Shifted(r, Doublings(h * HALF))
  {
    if r == 0 {
      ShiftedAdd(0, 0, Doublings(h * HALF));
    } else {
      LinearWithin(h, r - 1);
      NextUnits(h * HALF + (r - 1));
      SameBinade(h, r - 1);
      ShiftedAdd(r - 1, 1, Doublings(h * HALF));
    }
  }

  lemma SameBinade(h: nat, r: nat)
    requires r < HALF
    ensures Doublings(h * HALF + r) == Doublings(h * HALF)
  {
    assert (h * HALF + r) / 0x80_0000 == h / 0x80 == (h * HALF) / 0x80_0000;
  }

  // ---------------------------------------------------------------- rounding magnitudes

  /** The magnitude part of the conversion. */
  function Rounded(m: nat): nat { (m + 0x7fff + m / HALF % 2) / HALF }

  lemma RoundedCases(m: nat)
    ensures
      var h, r := m / HALF, m % HALF;
      Rounded(m) == if r > 0x8000 || (r == 0x8000 && h % 2 == 1) then h + 1 else h
  {
    var h, r := m / HALF, m % HALF;
    assert m == h * HALF + r;
    assert (h * HALF + (r + 0x7fff + h % 2)) / HALF == h + (r + 0x7fff + h % 2) / HALF;
  }

  /** A magnitude lies `r` steps above its truncation and `HALF - r` steps below the next word. */
  lemma Neighbours(m: nat)
    ensures
      var h, r := m / HALF, m % HALF;
      var e := Doublings(h * HALF);
      Units(m) == Units(h * HALF) + Shifted(r, e) && Units((h + 1) * HALF) == Units(m) + Shifted(HALF - r, e)
  {
    var h, r := m / HALF, m % HALF;
    assert m == h * HALF + r;
    LinearWithin(h, r);
    LinearWithin(h, HALF);
    assert h * HALF + HALF == (h + 1) * HALF;
    ShiftedAdd(r, HALF - r, Doublings(h * HALF));
  }

  lemma WordsIncrease(a: nat, b: nat)
    requires a <= b
    ensures Units(a * HALF) <= Units(b * HALF) && (a < b ==> Units(a * HALF) < Units(b * HALF))
  {
    if a < b { UnitsIncrease(a * HALF, b * HALF); }
  }

  /** No word magnitude is nearer, and a tie is only won by an even word. */
  lemma NearestMagnitude(m: nat, other: nat)
    ensures
      var here := Distance(Units(m), Units(Rounded(m) * HALF));
      var there := Distance(Units(m), Units(other * HALF));
      here <= there && (here == there && other != Rounded(m) ==> Rounded(m) % 2 == 0)
  {
    var h := m / HALF;
    RoundedCases(m);
    Neighbours(m);
    HalfwayCases(m % HALF, Doublings(h * HALF));
    if other <= h {
      WordsIncrease(other, h);
    } else {
      WordsIncrease(h + 1, other);
    }
  }

  lemma HalfwayCases(r: nat, e: nat)
    requires r < HALF
    ensures r < 0x8000 ==> Shifted(r, e) < Shifted(HALF - r, e)
    ensures r > 0x8000 ==> Shifted(HALF - r, e) < Shifted(r, e)
  {
    if r < 0x8000 { ShiftedIncreases(r, HALF - r, e); }
    if r > 0x8000 { ShiftedIncreases(HALF - r, r, e); }
  }

  // ---------------------------------------------------------------- main results

  /** On every non-NaN pattern the conversion keeps the sign and rounds the magnitude; the
      32-bit addition never wraps. */
  lemma ConversionSplits(bits: U32)
    requires !IsNan32(bits)
    ensures bits + 0x7fff + bits / HALF % 2 < 0x1_0000_0000
    ensures Rounded(Magnitude32(bits)) <= INFINITY_WORD
    ensures FromF32Rne(bits) == Rounded(Magnitude32(bits)) + if Negative32(bits) then 0x8000 else 0
  {
    var m := Magnitude32(bits);
    RoundedCases(m);
    SplitFields(bits);
    if Negative32(bits) {
      assert bits / HALF == m / HALF + 0x8000;
      assert (bits + 0x7fff + bits / HALF % 2) / HALF == Rounded(m) + 0x8000;
    }
  }

  lemma SplitFields(bits: U32)
    ensures bits == Magnitude32(bits) + if Negative32(bits) then 0x8000_0000 else 0
    ensures bits / 0x80_0000 % 0x100 == Magnitude32(bits) / 0x80_0000
    ensures bits % 0x80_0000 == Magnitude32(bits) % 0x80_0000
  {}

  lemma RoundedSigned(bits: U32)
    requires !IsNan32(bits)
    ensures
      Signed16(FromF32Rne(bits)) == Apply(Negative32(bits), Units(Rounded(Magnitude32(bits)) * HALF))
  {
    ConversionSplits(bits);
    SignedOfParts(FromF32Rne(bits), Rounded(Magnitude32(bits)), Negative32(bits));
  }

  lemma SignedOfParts(word: U16, h: nat, negative: bool)
    requires h < 0x8000 && word == h + if negative then 0x8000 else 0
    ensures Signed16(word) == Apply(negative, Units(h * HALF))
    ensures word % 2 == h % 2
  {
    WordParts(word);
  }

  /** Every finite pattern converts to the word nearest in real value, ties going to the even
      word; infinity words stand for +-2^128. */
  lemma NearestTiesToEven(bits: U32, other: U16)
    requires IsFinite32(bits) && Magnitude16(other) <= INFINITY_WORD
    ensures
      var word := FromF32Rne(bits);
      var here := Distance(Signed32(bits), Signed16(word));
      var there := Distance(Signed32(bits), Signed16(other));
      here <= there && (here == there && other != word ==> word % 2 == 0)
  {
    ConversionSplits(bits);
    NearestByParts(bits, FromF32Rne(bits), other);
  }

  lemma NearestByParts(bits: U32, word: U16, other: U16)
    requires Rounded(Magnitude32(bits)) < 0x8000
    requires word == Rounded(Magnitude32(bits)) + if Negative32(bits) then 0x8000 else 0
    ensures
      var here := Distance(Signed32(bits), Signed16(word));
      var there := Distance(Signed32(bits), Signed16(other));
      here <= there && (here == there && other != word ==> word % 2 == 0)
  {
    var m, h, negative := Magnitude32(bits), Magnitude16(other), other >= 0x8000;
    assert other == h + if negative then 0x8000 else 0;
    assert Signed32(bits) == Apply(Negative32(bits), Units(m));
    SignedOfParts(word, Rounded(m), Negative32(bits));
    SignedOfParts(other, h, negative);
    NearestSigned(m, Negative32(bits), h, negative);
  }

  function Apply(negative: bool, n: nat): int { if negative then 0 - n else n }

  /** With the same sign the magnitudes decide; a word of the other sign is no nearer than zero. */
  lemma NearestSigned(m: nat, negative: bool, other: nat, otherNegative: bool)
    ensures
      var v := Apply(negative, Units(m));
      var here := Distance(v, Apply(negative, Units(Rounded(m) * HALF)));
      var there := Distance(v, Apply(otherNegative, Units(other * HALF)));
      here <= there && (here == there && !(other == Rounded(m) && negative == otherNegative) ==> Rounded(m) % 2 == 0)
  {
    NearestMagnitude(m, other);
    NearestMagnitude(m, 0);
  }

  lemma WordParts(word: U16)
    ensures Magnitude32(ToF32(word)) == Magnitude16(word) * HALF
    ensures Negative32(ToF32(word)) <==> word >= 0x8000
    ensures Signed16(word)
      == if word >= 0x8000 then 0 - Units(Magnitude16(word) * HALF) else Units(Magnitude16(word) * HALF)
  {}

  /** A finite pattern becomes infinite exactly from magnitude 0x7f7f8000 upward, and the
      checked conversion rejects exactly those and the non-finite patterns. */
  lemma OverflowThreshold(bits: U32)
    ensures IsFinite32(bits) ==> !Classify(FromF32Rne(bits)).Nan?
    ensures IsFinite32(bits) ==> (Classify(FromF32Rne(bits)).Infinity? <==> Magnitude32(bits) >= 0x7f7f_8000)
    ensures TryFromF32Rne(bits).Converted? <==> Magnitude32(bits) < 0x7f7f_8000
    ensures TryFromF32Rne(bits).Converted? ==> TryFromF32Rne(bits).word == FromF32Rne(bits)
    ensures TryFromF32Rne(bits).NonFiniteInput? <==> Magnitude32(bits) >= INFINITY_BITS
  {
    if IsFinite32(bits) {
      ConversionSplits(bits);
      RoundedToInfinityFrom(Magnitude32(bits));
      hide Classify, Rounded;
      ClassByMagnitude(FromF32Rne(bits));
    }
  }

  lemma RoundedToInfinityFrom(m: nat)
    requires m < INFINITY_BITS
    ensures Rounded(m) == INFINITY_WORD <==> m >= 0x7f7f_8000
  {
    RoundedCases(m);
  }

  lemma FieldsOf(word: U16)
    ensures word % 0x8000 == word / 0x80 % 0x100 * 0x80 + word % 0x80
  {
    var q, r := word / 0x80, word % 0x80;
    var top, e := q / 0x100, q % 0x100;
    assert q == top * 0x100 + e && word == q * 0x80 + r;
    assert word == top * 0x8000 + (e * 0x80 + r);
  }

  lemma ClassByMagnitude(word: U16)
    ensures Classify(word).Infinity? <==> Magnitude16(word) == INFINITY_WORD
    ensures Classify(word).Nan? <==> Magnitude16(word) > INFINITY_WORD
    ensures IsFinite16(word) <==> Magnitude16(word) < INFINITY_WORD
    ensures Classify(word).Zero? <==> Magnitude16(word) == 0
  {
    FieldsOf(word);
    var e, f := word / 0x80 % 0x100, word % 0x80;
    assert Magnitude16(word) == e * 0x80 + f;
  }

  /** Widening then narrowing is the identity on every word that is not a NaN, and a NaN stays a
      NaN with its sign. */
  lemma WidenNarrow(word: U16)
    ensures !Classify(word).Nan? ==> FromF32Rne(ToF32(word)) == word
    ensures IsNan32(ToF32(word)) <==> Classify(word).Nan?
  {
    hide Classify, ToF32, FromF32Rne, Rounded, Signed16;
    ClassByMagnitude(word);
    WordParts(word);
    if !Classify(word).Nan? {
      ConversionSplits(ToF32(word));
      RoundedWhole(Magnitude16(word));
    }
  }

  lemma RoundedWhole(m: nat)
    ensures Rounded(m * HALF) == m
  {
    RoundedCases(m * HALF);
  }

  lemma NanStaysNan(bits: U32)
    requires IsNan32(bits)
    ensures Classify(FromF32Rne(bits)).Nan? && (FromF32Rne(bits) >= 0x8000 <==> Negative32(bits))
  {
    var m := Magnitude32(bits);
    assert bits == m + if Negative32(bits) then 0x8000_0000 else 0;
    assert m / 0x80_0000 == 0xff;
    assert bits / 0x80_0000 % 0x100 == 0xff && bits % 0x80_0000 != 0;
    ClassByMagnitude(FromF32Rne(bits));
  }

  lemma MagnitudeMonotone(m: nat, n: nat)
    requires m <= n
    ensures Units(Rounded(m) * HALF) <= Units(Rounded(n) * HALF)
  {
    RoundedCases(m);
    RoundedCases(n);
    assert m / HALF <= n / HALF;
    WordsIncrease(Rounded(m), Rounded(n));
  }

  lemma UnitsReflect(m: nat, n: nat)
    requires Units(m) <= Units(n)
    ensures m <= n
  {
    if n < m { UnitsIncrease(n, m); }
  }

  /** Rounding is monotone: a larger value never converts to a smaller one. */
  lemma ConversionMonotone(a: U32, b: U32)
    requires !IsNan32(a) && !IsNan32(b) && Signed32(a) <= Signed32(b)
    ensures Signed16(FromF32Rne(a)) <= Signed16(FromF32Rne(b))
  {
    RoundedSigned(a);
    RoundedSigned(b);
    var m, n := Magnitude32(a), Magnitude32(b);
    if !Negative32(a) {
      UnitsReflect(m, n);
      MagnitudeMonotone(m, n);
      if Negative32(b) {
        UnitsReflect(n, 0);
      }
    } else if Negative32(b) {
      UnitsReflect(n, m);
      MagnitudeMonotone(n, m);
    }
  }
}
