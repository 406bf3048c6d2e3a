/** The two GEMV summation orders, ascending scalar and eight lanes plus tail, over real numbers
    with rounded operations, and the declared error contract gamma(2 * columns) * sum_abs + 1e-7. */
module Gemv {
  import Bf16

  /** Rounded arithmetic. A sum of two floats is rounded with relative error `u`; a product may in
      addition lose up to `eta` to underflow. Contraction is disabled in the build, so every
      product and every sum is rounded on its own. Overflow is excluded. */
  datatype Arithmetic = Arithmetic(u: real, eta: real, sum: real -> real, product: real -> real)
  {
    ghost predicate Valid() {
      && u >= 0.0 && eta >= 0.0
      && (forall x: real :: SumWithin(x))
      && forall x: real :: ProductWithin(x)
    }

    ghost predicate SumWithin(x: real) { Abs(sum(x) - x) <= u * Abs(x) }

    ghost predicate ProductWithin(x: real) { Abs(product(x) - x) <= u * Abs(x) + eta }

    function Add(a: real, b: real): real { sum(a + b) }
  }

  function Abs(x: real): real { if x < 0.0 then -x else x }

  // ---------------------------------------------------------------- exact references

  /** The exact products of a row with the input. */
  function Terms(w: seq<real>, x: seq<real>): (t: seq<real>)
    requires |w| == |x|
    ensures |t| == |w|
  {
    seq(|w|, i requires 0 <= i < |w| => w[i] * x[i])
  }

  function Exact(t: seq<real>, n: nat): real
    requires n <= |t|
  {
    if n == 0 then 0.0 else Exact(t, n - 1) + t[n - 1]
  }

  function SumAbs(t: seq<real>, n: nat): (s: real)
    requires n <= |t|
    ensures s >= 0.0
  {
    if n == 0 then 0.0 else SumAbs(t, n - 1) + Abs(t[n - 1])
  }

  // ---------------------------------------------------------------- the two computations

  /** Adding the first `n` rounded products from left to right. */
  function ScalarSum(fl: Arithmetic, t: seq<real>, n: nat): real
    requires n <= |t|
  {
    if n == 0 then 0.0 else fl.Add(ScalarSum(fl, t, n - 1), fl.product(t[n - 1]))
  }

  /** Lane `j` of the accumulator after `b` vector blocks. */
  function Lane(fl: Arithmetic, t: seq<real>, j: nat, b: nat): real
    requires j < 8 && 8 * b <= |t|
  {
    if b == 0 then 0.0 else fl.Add(Lane(fl, t, j, b - 1), fl.product(t[8 * (b - 1) + j]))
  }

  /** The first `k + 1` lanes added from left to right. */
  function Horizontal(fl: Arithmetic, t: seq<real>, k: nat, b: nat): real
    requires k < 8 && 8 * b <= |t|
  {
    if k == 0 then Lane(fl, t, 0, b) else fl.Add(Horizontal(fl, t, k - 1, b), Lane(fl, t, k, b))
  }

  /** The vector part followed by `r` tail columns. */
  function VectorSum(fl: Arithmetic, t: seq<real>, b: nat, r: nat): real
    requires 8 * b + r <= |t|
  {
    if r == 0 then Horizontal(fl, t, 7, b)
    else fl.Add(VectorSum(fl, t, b, r - 1), fl.product(t[8 * b + (r - 1)]))
  }

  // ---------------------------------------------------------------- error calculus

  function Power(u: real, n: nat): (p: real)
    requires u >= 0.0
    ensures p >= 1.0
  {
    if n == 0 then 1.0
    else
      var rest := Power(u, n - 1);
      assert rest * (1.0 + u) == rest + rest * u;
      rest * (1.0 + u)
  }

  /** (1+u)^n times the bounded terms: the size `v` may reach. */
  function Reach(u: real, n: nat, t: real): real {
    if n == 0 then t else Grown(u, Reach(u, n - 1, t))
  }

  function Grown(u: real, q: real): real { q + u * q }

  lemma {:induction false} ReachIsPower(u: real, n: nat, t: real)
    requires u >= 0.0
    ensures Reach(u, n, t) == Power(u, n) * t
  {
    if n > 0 {
      ReachIsPower(u, n - 1, t);
      var p := Power(u, n - 1);
      assert p * (1.0 + u) * t == p * t + u * (p * t);
    }
  }

  /** `v` approximates `e` after at most `n` roundings, where `a` bounds the absolute terms and
      `c` the underflow losses: the error is at most ((1+u)^n - 1) * a + (1+u)^n * c. */
  ghost predicate Near(u: real, v: real, e: real, a: real, c: real, n: nat)
    requires u >= 0.0
  {
    && a >= 0.0 && c >= 0.0 && Abs(e) <= a
    && Abs(v - e) <= Reach(u, n, a + c) - a
  }

  /** ((1+u)^n - 1) * a + (1+u)^n * c. */
  function ErrorBound(u: real, n: nat, a: real, c: real): real
    requires u >= 0.0
  {
    (Power(u, n) - 1.0) * a + Power(u, n) * c
  }

  lemma NearMeans(u: real, v: real, e: real, a: real, c: real, n: nat)
    requires u >= 0.0 && Near(u, v, e, a, c, n)
    ensures Abs(v - e) <= ErrorBound(u, n, a, c)
  {
    ReachIsPower(u, n, a + c);
    var p := Power(u, n);
    assert (p - 1.0) * a + p * c == p * (a + c) - a;
  }

  lemma GrownSplits(u: real, s: real, t: real)
    ensures Grown(u, s + t) == Grown(u, s) + Grown(u, t)
  {}

  lemma {:induction false} ReachSplits(u: real, n: nat, s: real, t: real)
    ensures Reach(u, n, s + t) == Reach(u, n, s) + Reach(u, n, t)
  {
    if n > 0 {
      ReachSplits(u, n - 1, s, t);
      GrownSplits(u, Reach(u, n - 1, s), Reach(u, n - 1, t));
    }
  }

  lemma ReachBounds(u: real, m: nat, n: nat, t: real)
    requires u >= 0.0 && t >= 0.0 && m <= n
    ensures Reach(u, m, t) <= Reach(u, n, t)
  {
    ReachIsPower(u, m, t);
    ReachIsPower(u, n, t);
    PowerMonotone(u, m, n);
    Scaled(t, Power(u, m), Power(u, n));
  }

  lemma Scaled(k: real, x: real, y: real)
    requires k >= 0.0 && x <= y
    ensures k * x <= k * y && x * k <= y * k
  {}

  lemma SumError(fl: Arithmetic, x: real, bound: real)
    requires fl.Valid() && Abs(x) <= bound
    ensures Abs(fl.sum(x) - x) <= Grown(fl.u, bound) - bound
  {
    assert fl.SumWithin(x);
    Scaled(fl.u, Abs(x), bound);
  }

  lemma ProductError(fl: Arithmetic, x: real)
    requires fl.Valid()
    ensures Abs(fl.product(x) - x) <= Grown(fl.u, Abs(x) + fl.eta) - Abs(x)
  {
    assert fl.ProductWithin(x);
    Scaled(fl.u, Abs(x), Abs(x) + fl.eta);
  }

  lemma RoundedNear(fl: Arithmetic, x: real)
    requires fl.Valid()
    ensures Near(fl.u, fl.product(x), x, Abs(x), fl.eta, 1)
  {
    var t := Abs(x) + fl.eta;
    ProductError(fl, x);
    assert Reach(fl.u, 0, t) == t;
    assert Reach(fl.u, 1, t) == Grown(fl.u, t);
  }

  /** `q` and `q'` are what the two summands may reach, `extra` the error of adding them. */
  lemma JoinErrors(r: real, v: real, e: real, a: real, q: real, v': real, e': real, a': real, q': real, extra: real)
    requires Abs(e) <= a && Abs(e') <= a' && Abs(v - e) <= q - a && Abs(v' - e') <= q' - a'
    requires Abs(r - (v + v')) <= extra
    ensures Abs(r - (e + e')) <= q + q' + extra - (a + a') && Abs(e + e') <= a + a'
  {}

  lemma SumReach(v: real, e: real, a: real, q: real, v': real, e': real, a': real, q': real)
    requires Abs(e) <= a && Abs(e') <= a' && Abs(v - e) <= q - a && Abs(v' - e') <= q' - a'
    ensures Abs(v + v') <= q + q'
  {}

  lemma SumWithinReach(fl: Arithmetic, v: real, e: real, a: real, q: real, v': real, e': real, a': real, q': real)
    requires fl.Valid() && Abs(e) <= a && Abs(e') <= a' && Abs(v - e) <= q - a && Abs(v' - e') <= q' - a'
    ensures Abs(fl.Add(v, v') - (e + e')) <= Grown(fl.u, q + q') - (a + a') && Abs(e + e') <= a + a'
  {
    SumReach(v, e, a, q, v', e', a', q');
    SumError(fl, v + v', q + q');
    JoinErrors(fl.sum(v + v'), v, e, a, q, v', e', a', q', Grown(fl.u, q + q') - (q + q'));
  }

  /** One rounded addition joins two approximations at the price of one more rounding. */
  lemma SumNear(fl: Arithmetic, v: real, e: real, a: real, c: real, v': real, e': real, a': real, c': real, n: nat)
    requires fl.Valid() && Near(fl.u, v, e, a, c, n) && Near(fl.u, v', e', a', c', n)
    ensures Near(fl.u, fl.Add(v, v'), e + e', a + a', c + c', n + 1)
  {
    SumWithinReach(fl, v, e, a, Reach(fl.u, n, a + c), v', e', a', Reach(fl.u, n, a' + c'));
    ReachJoins(fl.u, n, a, c, a', c');
  }

  lemma ReachJoins(u: real, n: nat, a: real, c: real, a': real, c': real)
    ensures Reach(u, n + 1, a + a' + (c + c')) == Grown(u, Reach(u, n, a + c) + Reach(u, n, a' + c'))
  {
    ReachSplits(u, n, a + c, a' + c');
    assert (a + c) + (a' + c') == a + a' + (c + c');
  }

  lemma {:induction false} PowerMonotone(u: real, m: nat, n: nat)
    requires u >= 0.0 && m <= n
    ensures Power(u, m) <= Power(u, n)
  {
    if m < n {
      PowerMonotone(u, m, n - 1);
      var rest := Power(u, n - 1);
      assert rest * (1.0 + u) == rest + rest * u;
    }
  }

  lemma MoreRoundings(u: real, v: real, e: real, a: real, c: real, m: nat, n: nat)
    requires u >= 0.0 && Near(u, v, e, a, c, m) && m <= n
    ensures Near(u, v, e, a, c, n)
  {
    ReachBounds(u, m, n, a + c);
  }

  lemma ZeroSum(fl: Arithmetic)
    requires fl.Valid()
    ensures fl.Add(0.0, 0.0) == 0.0
  {
    assert fl.SumWithin(0.0);
  }

  /** One more rounded product joins a running sum. */
  lemma TermJoins(fl: Arithmetic, v: real, e: real, a: real, c: real, x: real, n: nat)
    requires fl.Valid() && n >= 1 && Near(fl.u, v, e, a, c, n)
    ensures Near(fl.u, fl.Add(v, fl.product(x)), e + x, a + Abs(x), c + fl.eta, n + 1)
  {
    RoundedNear(fl, x);
    MoreRoundings(fl.u, fl.product(x), x, Abs(x), fl.eta, 1, n);
    SumNear(fl, v, e, a, c, fl.product(x), x, Abs(x), fl.eta, n);
  }

  // ---------------------------------------------------------------- the scalar order

  /** `n` copies of `x` added up. */
  function Repeated(x: real, n: nat): (r: real)
    ensures x >= 0.0 ==> r >= 0.0
  {
    if n == 0 then 0.0 else Repeated(x, n - 1) + x
  }

  lemma ZeroNear(u: real, n: nat)
    requires u >= 0.0
    ensures Near(u, 0.0, 0.0, 0.0, 0.0, n)
  {
    ReachIsPower(u, n, 0.0 + 0.0);
    assert Power(u, n) * 0.0 == 0.0;
  }

  /** The scalar order makes at most `n + 1` roundings on any path. */
  lemma {:induction false} ScalarNear(fl: Arithmetic, t: seq<real>, n: nat)
    requires fl.Valid() && n <= |t|
    ensures Near(fl.u, ScalarSum(fl, t, n), Exact(t, n), SumAbs(t, n), Repeated(fl.eta, n), n + 1)
  {
    if n == 0 {
      ZeroNear(fl.u, 1);
    } else {
      ScalarNear(fl, t, n - 1);
      TermJoins(fl, ScalarSum(fl, t, n - 1), Exact(t, n - 1), SumAbs(t, n - 1), Repeated(fl.eta, n - 1), t[n - 1], n);
    }
  }

  // ---------------------------------------------------------------- the eight-lane order

  function LaneExact(t: seq<real>, j: nat, b: nat): real
    requires j < 8 && 8 * b <= |t|
  {
    if b == 0 then 0.0 else LaneExact(t, j, b - 1) + t[8 * (b - 1) + j]
  }

  function LaneAbs(t: seq<real>, j: nat, b: nat): (s: real)
    requires j < 8 && 8 * b <= |t|
    ensures s >= 0.0
  {
    if b == 0 then 0.0 else LaneAbs(t, j, b - 1) + Abs(t[8 * (b - 1) + j])
  }

  lemma {:induction false} LaneNear(fl: Arithmetic, t: seq<real>, j: nat, b: nat)
    requires fl.Valid() && j < 8 && 8 * b <= |t|
    ensures Near(fl.u, Lane(fl, t, j, b), LaneExact(t, j, b), LaneAbs(t, j, b), Repeated(fl.eta, b), b + 1)
  {
    if b == 0 {
      ZeroNear(fl.u, 1);
    } else {
      var i := 8 * (b - 1) + j;
      LaneNear(fl, t, j, b - 1);
      TermJoins(fl, Lane(fl, t, j, b - 1), LaneExact(t, j, b - 1), LaneAbs(t, j, b - 1), Repeated(fl.eta, b - 1),
                t[i], b);
    }
  }

  /** Exact sums of the first `k + 1` lanes. */
  function LanesExact(t: seq<real>, k: nat, b: nat): real
    requires k < 8 && 8 * b <= |t|
  {
    if k == 0 then LaneExact(t, 0, b) else LanesExact(t, k - 1, b) + LaneExact(t, k, b)
  }

  function LanesAbs(t: seq<real>, k: nat, b: nat): real
    requires k < 8 && 8 * b <= |t|
  {
    if k == 0 then LaneAbs(t, 0, b) else LanesAbs(t, k - 1, b) + LaneAbs(t, k, b)
  }

  function LanesLosses(eta: real, k: nat, b: nat): real
    requires eta >= 0.0
  {
    if k == 0 then Repeated(eta, b) else LanesLosses(eta, k - 1, b) + Repeated(eta, b)
  }

  lemma {:induction false} HorizontalNear(fl: Arithmetic, t: seq<real>, k: nat, b: nat)
    requires fl.Valid() && k < 8 && 8 * b <= |t|
    ensures Near(fl.u, Horizontal(fl, t, k, b), LanesExact(t, k, b), LanesAbs(t, k, b), LanesLosses(fl.eta, k, b),
                 b + 1 + k)
  {
    LaneNear(fl, t, k, b);
    if k > 0 {
      HorizontalNear(fl, t, k - 1, b);
      MoreRoundings(fl.u, Lane(fl, t, k, b), LaneExact(t, k, b), LaneAbs(t, k, b), Repeated(fl.eta, b), b + 1, b + k);
      SumNear(fl, Horizontal(fl, t, k - 1, b), LanesExact(t, k - 1, b), LanesAbs(t, k - 1, b),
              LanesLosses(fl.eta, k - 1, b), Lane(fl, t, k, b), LaneExact(t, k, b), LaneAbs(t, k, b),
              Repeated(fl.eta, b), b + k);
    }
  }

  lemma {:induction false} RepeatedAdd(eta: real, m: nat, n: nat)
    requires eta >= 0.0
    ensures Repeated(eta, m + n) == Repeated(eta, m) + Repeated(eta, n)
  {
    if n > 0 { RepeatedAdd(eta, m, n - 1); }
  }

  /** One block adds its first `k + 1` columns to the first `k + 1` lanes. */
  lemma {:induction false} BlockJoins(t: seq<real>, k: nat, b: nat)
    requires k < 8 && b > 0 && 8 * b <= |t|
    ensures LanesExact(t, k, b) == LanesExact(t, k, b - 1) + Exact(t, 8 * (b - 1) + k + 1) - Exact(t, 8 * (b - 1))
    ensures LanesAbs(t, k, b) == LanesAbs(t, k, b - 1) + SumAbs(t, 8 * (b - 1) + k + 1) - SumAbs(t, 8 * (b - 1))
  {
    if k > 0 { BlockJoins(t, k - 1, b); }
  }

  lemma {:induction false} LanesStartEmpty(t: seq<real>, k: nat)
    requires k < 8
    ensures LanesExact(t, k, 0) == 0.0 && LanesAbs(t, k, 0) == 0.0
  {
    if k > 0 { LanesStartEmpty(t, k - 1); }
  }

  /** The eight lanes together hold exactly the first `8 * b` columns. */
  lemma {:induction false} LanesPartition(t: seq<real>, b: nat)
    requires 8 * b <= |t|
    ensures LanesExact(t, 7, b) == Exact(t, 8 * b) && LanesAbs(t, 7, b) == SumAbs(t, 8 * b)
  {
    if b == 0 {
      LanesStartEmpty(t, 7);
    } else {
      LanesPartition(t, b - 1);
      BlockJoins(t, 7, b);
    }
  }

  lemma {:induction false} LanesLossesTotal(eta: real, k: nat, b: nat)
    requires eta >= 0.0
    ensures LanesLosses(eta, k, b) == Repeated(eta, k * b + b)
  {
    if k > 0 {
      LanesLossesTotal(eta, k - 1, b);
      assert (k - 1) * b + b == k * b;
      RepeatedAdd(eta, k * b, b);
    }
  }

  /** The vector order makes at most `b + 8 + r` roundings on any path. */
  lemma {:induction false} VectorNear(fl: Arithmetic, t: seq<real>, b: nat, r: nat)
    requires fl.Valid() && 8 * b + r <= |t|
    ensures Near(fl.u, VectorSum(fl, t, b, r), Exact(t, 8 * b + r), SumAbs(t, 8 * b + r), Repeated(fl.eta, 8 * b + r),
                 b + 8 + r)
  {
    hide Near;
    if r == 0 {
      HorizontalNear(fl, t, 7, b);
      LanesPartition(t, b);
      LanesLossesTotal(fl.eta, 7, b);
    } else {
      var i := 8 * b + (r - 1);
      VectorNear(fl, t, b, r - 1);
      TermJoins(fl, VectorSum(fl, t, b, r - 1), Exact(t, i), SumAbs(t, i), Repeated(fl.eta, i), t[i], b + 8 + (r - 1));
    }
  }

  /** With fewer than eight columns the vector part is exactly zero and the orders coincide. */
  lemma {:induction false} ShortRows(fl: Arithmetic, t: seq<real>, r: nat)
    requires fl.Valid() && r <= |t|
    ensures VectorSum(fl, t, 0, r) == ScalarSum(fl, t, r)
  {
    if r == 0 {
      HorizontalZero(fl, t, 7);
    } else {
      ShortRows(fl, t, r - 1);
    }
  }

  lemma {:induction false} HorizontalZero(fl: Arithmetic, t: seq<real>, k: nat)
    requires fl.Valid() && k < 8
    ensures Horizontal(fl, t, k, 0) == 0.0
  {
    ZeroSum(fl);
    if k > 0 { HorizontalZero(fl, t, k - 1); }
  }

  // ---------------------------------------------------------------- the declared contract

  /** gamma(k) = k*u / (1 - k*u). */
  function Gamma(u: real, k: nat): real
    requires k as real * u < 1.0
  {
    k as real * u / (1.0 - k as real * u)
  }

  lemma {:induction false} RepeatedIsProduct(x: real, n: nat)
    ensures Repeated(x, n) == n as real * x
  {
    if n > 0 {
      RepeatedIsProduct(x, n - 1);
      OneMore((n - 1) as real, n as real, x);
    }
  }

  lemma OneMore(k: real, m: real, x: real)
    requires m == k + 1.0
    ensures m * x == k * x + x
  {}

  /** Bernoulli's bound: (1+u)^n * (1 - n*u) <= 1. */
  lemma {:induction false} PowerBound(u: real, n: nat)
    requires u >= 0.0
    ensures Repeated(u, n) >= 0.0 && Power(u, n) * (1.0 - Repeated(u, n)) <= 1.0
  {
    if n > 0 {
      PowerBound(u, n - 1);
      PowerBoundStep(u, Power(u, n - 1), Repeated(u, n - 1));
    }
  }

  lemma PowerBoundStep(u: real, p: real, ku: real)
    requires u >= 0.0 && p >= 1.0 && ku >= 0.0 && p * (1.0 - ku) <= 1.0
    ensures p * (1.0 + u) * (1.0 - (ku + u)) <= 1.0
  {
    var lost := (ku + u) * u;
    assert (1.0 + u) * (1.0 - (ku + u)) == (1.0 - ku) - lost;
    assert p * (1.0 + u) * (1.0 - (ku + u)) == p * ((1.0 + u) * (1.0 - (ku + u)));
    assert p * ((1.0 - ku) - lost) == p * (1.0 - ku) - p * lost;
    assert lost >= 0.0 && p * lost >= 0.0;
  }

  lemma Divide(p: real, d: real)
    requires d > 0.0 && p * d <= 1.0
    ensures p <= 1.0 / d
  {
    var q := 1.0 / d;
    assert q * d == 1.0;
    assert (q - p) * d >= 0.0;
  }

  lemma Reciprocal(p: real, d: real)
    requires d >= 1.0 / 16_777_216.0 && p * d <= 1.0
    ensures p <= 16_777_216.0
  {
    if p > 0.0 { Scaled(p, 1.0 / 16_777_216.0, d); }
  }

  lemma GammaDominates(u: real, n: nat)
    requires u >= 0.0 && n as real * u < 1.0
    ensures Power(u, n) <= 1.0 / (1.0 - n as real * u) == 1.0 + Gamma(u, n)
  {
    PowerBound(u, n);
    RepeatedIsProduct(u, n);
    var d := 1.0 - n as real * u;
    Divide(Power(u, n), d);
    assert (1.0 - d) / d == 1.0 / d - 1.0;
  }

  /** Single-precision rounding: unit roundoff 2^-24, and a product underflows by at most half the
      least subnormal, far below 10^-24. */
  ghost predicate SinglePrecision(fl: Arithmetic) {
    fl.Valid() && fl.u == 1.0 / 16_777_216.0 && fl.eta * 1_000_000_000_000_000_000_000_000.0 <= 1.0
  }

  /** Where gamma(2 * n) is defined for single precision, the underflow term is below 1e-7. */
  lemma UnderflowIsSmall(fl: Arithmetic, n: nat, p: real)
    requires SinglePrecision(fl) && (2 * n) as real * fl.u < 1.0
    requires p * (1.0 - (2 * n) as real * fl.u) <= 1.0
    ensures p * Repeated(fl.eta, n) <= 0.0000001
  {
    assert 2 * n < 16_777_216;
    var d := 1.0 - (2 * n) as real / 16_777_216.0;
    assert d >= 1.0 / 16_777_216.0;
    assert p <= 16_777_216.0 by { Reciprocal(p, d); }
    RepeatedIsProduct(fl.eta, n);
    SmallProduct(p, n as real, fl.eta, Repeated(fl.eta, n));
  }

  lemma SmallProduct(p: real, n: real, eta: real, l: real)
    requires p <= 16_777_216.0 && 0.0 <= n <= 8_388_608.0 && l == n * eta
    requires eta >= 0.0 && eta * 1_000_000_000_000_000_000_000_000.0 <= 1.0
    ensures p * l <= 0.0000001
  {
    assert l <= 8_388_608.0 * eta by { Scaled(eta, n, 8_388_608.0); }
    assert p * l <= 16_777_216.0 * l by { Scaled(l, p, 16_777_216.0); }
    assert 16_777_216.0 * l <= 16_777_216.0 * (8_388_608.0 * eta);
    assert 16_777_216.0 * (8_388_608.0 * eta) == 140_737_488_355_328.0 * eta;
  }

  lemma ContractFactors(fl: Arithmetic, n: nat)
    requires SinglePrecision(fl) && (2 * n) as real * fl.u < 1.0
    ensures Power(fl.u, 2 * n) - 1.0 <= Gamma(fl.u, 2 * n)
    ensures Power(fl.u, 2 * n) * Repeated(fl.eta, n) <= 0.0000001
  {
    GammaDominates(fl.u, 2 * n);
    PowerBound(fl.u, 2 * n);
    RepeatedIsProduct(fl.u, 2 * n);
    UnderflowIsSmall(fl, n, Power(fl.u, 2 * n));
  }

  /** gamma(k) * s + 1e-7. */
  function Contract(u: real, k: nat, s: real): real
    requires k as real * u < 1.0
  {
    Gamma(u, k) * s + 0.0000001
  }

  lemma ContractAboveError(fl: Arithmetic, n: nat, s: real)
    requires SinglePrecision(fl) && (2 * n) as real * fl.u < 1.0 && s >= 0.0
    ensures ErrorBound(fl.u, 2 * n, s, Repeated(fl.eta, n)) <= Contract(fl.u, 2 * n, s)
  {
    ContractFactors(fl, n);
    CombineBounds(Power(fl.u, 2 * n), Gamma(fl.u, 2 * n), s, Repeated(fl.eta, n));
  }

  lemma CombineBounds(p: real, g: real, s: real, l: real)
    requires p - 1.0 <= g && s >= 0.0 && p * l <= 0.0000001
    ensures (p - 1.0) * s + p * l <= g * s + 0.0000001
  {
    Scaled(s, p - 1.0, g);
  }

  /** `v` is one of the two rounded sums of all the terms. */
  ghost predicate IsSum(fl: Arithmetic, t: seq<real>, v: real) {
    v == ScalarSum(fl, t, |t|) || v == VectorSum(fl, t, |t| / 8, |t| % 8)
  }

  /** The rounding counts of both orders stay within twice the number of columns. */
  lemma WithinTwice(fl: Arithmetic, t: seq<real>, v: real)
    requires fl.Valid() && IsSum(fl, t, v)
    ensures Near(fl.u, v, Exact(t, |t|), SumAbs(t, |t|), Repeated(fl.eta, |t|), 2 * |t|)
  {
    var n := |t|;
    if n == 0 {
      ZeroNear(fl.u, 0);
      ShortRows(fl, t, 0);
    } else if n < 8 || v == ScalarSum(fl, t, n) {
      if n < 8 { ShortRows(fl, t, n); }
      ScalarNear(fl, t, n);
      MoreRoundings(fl.u, v, Exact(t, n), SumAbs(t, n), Repeated(fl.eta, n), n + 1, 2 * n);
    } else {
      VectorNear(fl, t, n / 8, n % 8);
      MoreRoundings(fl.u, v, Exact(t, n), SumAbs(t, n), Repeated(fl.eta, n), n / 8 + 8 + n % 8, 2 * n);
    }
  }

  /** Both orders stay within ((1+u)^(2n) - 1) * sum_abs, plus the grown underflow losses, for every
      rounding error `u` and every number of columns. */
  lemma BothOrdersBounded(fl: Arithmetic, t: seq<real>, v: real)
    requires fl.Valid() && IsSum(fl, t, v)
    ensures Abs(v - Exact(t, |t|)) <= ErrorBound(fl.u, 2 * |t|, SumAbs(t, |t|), Repeated(fl.eta, |t|))
  {
    WithinTwice(fl, t, v);
    NearMeans(fl.u, v, Exact(t, |t|), SumAbs(t, |t|), Repeated(fl.eta, |t|), 2 * |t|);
  }

  /** In single precision both orders meet gamma(2 * columns) * sum_abs + 1e-7 wherever gamma is
      defined. */
  lemma BothOrdersMeetContract(fl: Arithmetic, t: seq<real>, v: real)
    requires SinglePrecision(fl) && (2 * |t|) as real * fl.u < 1.0 && IsSum(fl, t, v)
    ensures Abs(v - Exact(t, |t|)) <= Contract(fl.u, 2 * |t|, SumAbs(t, |t|))
  {
    BothOrdersBounded(fl, t, v);
    ContractAboveError(fl, |t|, SumAbs(t, |t|));
  }

  // ---------------------------------------------------------------- the kernels

  datatype Matrix = Matrix(rows: nat, columns: nat, words: seq<Bf16.U16>)
  {
    predicate Valid() { rows > 0 && columns > 0 && |words| == rows * columns }

    lemma InRow(row: nat, column: nat)
      requires Valid() && row < rows && column < columns
      ensures row * columns + column < |words|
    {
      assert (row + 1) * columns <= rows * columns;
    }

    function Weight(row: nat, column: nat): real
      requires Valid() && row < rows && column < columns
    {
      InRow(row, column);
      Bf16.Value(words[row * columns + column])
    }

    /** The widened weights of one row. */
    function Row(row: nat): (w: seq<real>)
      requires Valid() && row < rows
      ensures |w| == columns
    {
      seq(columns, j requires 0 <= j < columns => Weight(row, j))
    }
  }

  function RowTerms(m: Matrix, input: seq<real>, row: nat): seq<real>
    requires m.Valid() && row < m.rows && |input| == m.columns
  {
    Terms(m.Row(row), input)
  }

  lemma RowTermAt(m: Matrix, input: seq<real>, row: nat, column: nat)
    requires m.Valid() && row < m.rows && |input| == m.columns && column < m.columns
    ensures RowTerms(m, input, row)[column] == m.Weight(row, column) * input[column]
  {
    assert m.Row(row)[column] == m.Weight(row, column);
  }

  datatype Backend = Scalar | Avx2

  function RowResult(fl: Arithmetic, backend: Backend, m: Matrix, input: seq<real>, row: nat): real
    requires m.Valid() && row < m.rows && |input| == m.columns
  {
    var t := RowTerms(m, input, row);
    match backend
    case Scalar => ScalarSum(fl, t, |t|)
    case Avx2 => VectorSum(fl, t, |t| / 8, |t| % 8)
  }

  method ScalarRow(fl: Arithmetic, m: Matrix, input: seq<real>, row: nat) returns (sum: real)
    requires m.Valid() && |input| == m.columns && row < m.rows
    ensures sum == RowResult(fl, Scalar, m, input, row)
  {
    ghost var t := RowTerms(m, input, row);
    sum := 0.0;
    for column := 0 to m.columns
      invariant sum == ScalarSum(fl, t, column)
    {
      RowTermAt(m, input, row, column);
      var product := fl.product(m.Weight(row, column) * input[column]);
      sum := fl.Add(sum, product);
    }
  }

  method ScalarCompute(fl: Arithmetic, m: Matrix, input: seq<real>, output: array<real>)
    requires m.Valid() && |input| == m.columns && output.Length == m.rows
    modifies output
    ensures forall row | 0 <= row < m.rows :: output[row] == RowResult(fl, Scalar, m, input, row)
  {
    for row := 0 to m.rows
      invariant forall k | 0 <= k < row :: output[k] == RowResult(fl, Scalar, m, input, k)
    {
      var sum := ScalarRow(fl, m, input, row);
      output[row] := sum;
    }
  }

  /** The vector accumulator after all whole blocks of one row. */
  method Accumulate(fl: Arithmetic, t: seq<real>) returns (lanes: seq<real>)
    ensures |lanes| == 8 && forall j | 0 <= j < 8 :: lanes[j] == Lane(fl, t, j, |t| / 8)
  {
    lanes := seq(8, _ => 0.0);
    for b := 0 to |t| / 8
      invariant |lanes| == 8 && forall j | 0 <= j < 8 :: lanes[j] == Lane(fl, t, j, b)
    {
      lanes := seq(8, j requires 0 <= j < 8 && |lanes| == 8 && 8 * b + j < |t| =>
        fl.Add(lanes[j], fl.product(t[8 * b + j])));
    }
  }

  method Avx2Row(fl: Arithmetic, t: seq<real>) returns (sum: real)
    ensures sum == VectorSum(fl, t, |t| / 8, |t| % 8)
  {
    var lanes := Accumulate(fl, t);
    sum := lanes[0];
    for k := 1 to 8
      invariant sum == Horizontal(fl, t, k - 1, |t| / 8)
    {
      sum := fl.Add(sum, lanes[k]);
    }
    for r := 0 to |t| % 8
      invariant sum == VectorSum(fl, t, |t| / 8, r)
    {
      sum := fl.Add(sum, fl.product(t[8 * (|t| / 8) + r]));
    }
  }

  method Avx2Compute(fl: Arithmetic, m: Matrix, input: seq<real>, output: array<real>)
    requires m.Valid() && |input| == m.columns && output.Length == m.rows
    modifies output
    ensures forall row | 0 <= row < m.rows :: output[row] == RowResult(fl, Avx2, m, input, row)
  {
    for row := 0 to m.rows
      invariant forall k | 0 <= k < row :: output[k] == RowResult(fl, Avx2, m, input, k)
    {
      var sum := Avx2Row(fl, RowTerms(m, input, row));
      output[row] := sum;
    }
  }

  datatype Outcome = Published | LengthMismatch | NativeRejected | NonFiniteOutput(index: nat)

  lemma RowMeetsContract(fl: Arithmetic, backend: Backend, m: Matrix, input: seq<real>, row: nat)
    requires SinglePrecision(fl) && m.Valid() && row < m.rows && |input| == m.columns
    requires (2 * m.columns) as real * fl.u < 1.0
    ensures
      var t := RowTerms(m, input, row);
      Abs(RowResult(fl, backend, m, input, row) - Exact(t, |t|)) <= Contract(fl.u, 2 * |t|, SumAbs(t, |t|))
  {
    BothOrdersMeetContract(fl, RowTerms(m, input, row), RowResult(fl, backend, m, input, row));
  }

  method Compute(fl: Arithmetic, backend: Backend, m: Matrix, input: seq<real>, output: array<real>)
    requires m.Valid() && |input| == m.columns && output.Length == m.rows
    modifies output
    ensures forall row | 0 <= row < m.rows :: output[row] == RowResult(fl, backend, m, input, row)
  {
    match backend
    case Scalar => ScalarCompute(fl, m, input, output);
    case Avx2 => Avx2Compute(fl, m, input, output);
  }

  /** Computes into scratch, validates, then publishes. `inRange` says which computed values are
      finite and `native` whether the native call is accepted. On any error the output keeps its
      old contents. */
  method Run(fl: Arithmetic, backend: Backend, m: Matrix, input: seq<real>, workspace: array<real>, output: array<real>,
             native: bool, inRange: real -> bool) returns (out: Outcome)
    requires m.Valid() && workspace != output
    modifies workspace, output
    ensures out != Published ==> output[..] == old(output[..])
    ensures out == LengthMismatch <==> |input| != m.columns || workspace.Length != m.rows || output.Length != m.rows
    ensures out == NativeRejected ==> backend == Avx2 && !native
    ensures out.NonFiniteOutput? ==>
      |input| == m.columns && out.index < m.rows && !inRange(RowResult(fl, backend, m, input, out.index))
    ensures out.NonFiniteOutput? ==>
      |input| == m.columns && out.index < m.rows
      && forall row | 0 <= row < out.index :: inRange(RowResult(fl, backend, m, input, row))
    ensures out == Published ==> |input| == m.columns && output.Length == m.rows && (backend == Avx2 ==> native)
    ensures out == Published ==>
      forall row | 0 <= row < m.rows :: output[row] == RowResult(fl, backend, m, input, row) && inRange(output[row])
  {
    hide RowResult;
    if |input| != m.columns || workspace.Length != m.rows || output.Length != m.rows {
      return LengthMismatch;
    }
    if backend == Avx2 && !native {
      return NativeRejected;
    }
    Compute(fl, backend, m, input, workspace);
    for i := 0 to m.rows
      invariant output[..] == old(output[..])
      invariant forall row | 0 <= row < m.rows :: workspace[row] == RowResult(fl, backend, m, input, row)
      invariant forall k | 0 <= k < i :: inRange(workspace[k])
    {
      if !inRange(workspace[i]) { return NonFiniteOutput(i); }
    }
    forall i | 0 <= i < output.Length { output[i] := workspace[i]; }
    out := Published;
  }
}
