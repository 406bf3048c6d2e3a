/** Incremental decoding with a key/value cache (`runnel-runtime`), against recomputing the whole
    prefix for every token (`oracle/generate.py`). Scalars and their rounded operations, learned
    maps, norms and the exponential are arbitrary; attention, routing, masking, state and control
    flow are modelled. */
module Decoding {
  import opened Common

  const EOS: nat := 0

  // ---------------------------------------------------------------- scalars

  /** The scalar operations of a machine, rounded as it rounds them. `lowest` is the minus infinity a
      mask is filled with. `settled` scalars are those that adding a zero of either sign leaves alone;
      in binary32 all but the negative zero. */
  datatype Arithmetic<!S(!new)> = Arithmetic(
    zero: S, lowest: S, add: (S, S) -> S, sub: (S, S) -> S, mul: (S, S) -> S, div: (S, S) -> S, max: (S, S) -> S,
    exp: S -> S, less: (S, S) -> bool, finite: S -> bool, settled: S -> bool, vanishes: S -> bool)
  {
    /** Finite scalars compare as a strict weak order. */
    ghost predicate Ordered() {
      && (forall x, y :: finite(x) && finite(y) && less(x, y) ==> !less(y, x))
      && forall x, y, z :: finite(x) && finite(y) && finite(z) && less(x, z) ==> less(x, y) || less(y, z)
    }

    /** A maximum picks one of its operands, the lowest scalar never wins over a finite one and has no
        exponential beside it, and a non-finite scalar taken from itself stays non-finite. */
    ghost predicate Floor() {
      && (forall x, y :: max(x, y) == x || max(x, y) == y)
      && (forall x :: finite(x) ==> max(x, lowest) == x)
      && (forall x :: !finite(x) ==> !finite(max(x, lowest)))
      && (forall x :: finite(x) ==> exp(sub(lowest, x)) == zero)
      && forall x :: !finite(x) ==> !finite(exp(sub(x, x)))
    }

    /** How zeros and non-finite scalars pass through sums, products and quotients. */
    ghost predicate Masks() {
      && Floor()
      && finite(zero) && settled(zero) && vanishes(zero)
      && (forall x, y :: settled(x) ==> settled(add(x, y)))
      && (forall x, z :: finite(x) && settled(x) && vanishes(z) ==> add(x, z) == x)
      && (forall x, y :: !finite(x) || !finite(y) ==> !finite(add(x, y)))
      && (forall v :: finite(v) ==> vanishes(mul(zero, v)))
      && (forall v :: !finite(v) ==> !finite(mul(zero, v)))
      && forall t :: finite(t) && less(zero, t) ==> div(zero, t) == zero
    }

    predicate AllFinite(s: seq<S>) { forall i | 0 <= i < |s| :: finite(s[i]) }
  }

  /** The reals with a minus infinity and one invalid value. */
  datatype Extended = Real(r: real) | Lowest | Invalid

  function Exact(exp: real -> real): Arithmetic<Extended> {
    Arithmetic(
      Real(0.0), Lowest,
      (x: Extended, y: Extended) => if x.Real? && y.Real? then Real(x.r + y.r) else Invalid,
      (x: Extended, y: Extended) =>
        if x.Real? && y.Real? then Real(x.r - y.r) else if x.Lowest? && y.Real? then Lowest else Invalid,
      (x: Extended, y: Extended) => if x.Real? && y.Real? then Real(x.r * y.r) else Invalid,
      (x: Extended, y: Extended) => if x.Real? && y.Real? && y.r != 0.0 then Real(x.r / y.r) else Invalid,
      (x: Extended, y: Extended) =>
        if x.Invalid? || y.Lowest? then x else if y.Invalid? || x.Lowest? || x.r < y.r then y else x,
      (x: Extended) => match x case Real(r) => Real(exp(r)) case Lowest => Real(0.0) case Invalid => Invalid,
      (x: Extended, y: Extended) => y.Real? && (x.Lowest? || (x.Real? && x.r < y.r)),
      (x: Extended) => x.Real?, (x: Extended) => true, (x: Extended) => x == Real(0.0))
  }

  /** The laws are consistent: exact arithmetic, with a minus infinity to mask with, obeys them. */
  lemma ExactObeys(exp: real -> real)
    ensures Exact(exp).Ordered() && Exact(exp).Masks()
  {
    var exact := Exact(exp);
    assert exact.Floor();
    forall v | exact.finite(v) ensures exact.vanishes(exact.mul(exact.zero, v)) {
      ZeroTimes(v.r);
    }
    forall t | exact.finite(t) && exact.less(exact.zero, t) ensures exact.div(exact.zero, t) == exact.zero {
      ZeroOver(t.r);
    }
  }

  lemma ZeroTimes(v: real)
    ensures 0.0 * v == 0.0
  {}

  lemma ZeroOver(t: real)
    requires t > 0.0
    ensures 0.0 / t == 0.0
  {}

  // ---------------------------------------------------------------- routing

  /** Higher score first, then lower index. */
  predicate Better<S(!new)>(a: Arithmetic<S>, scores: seq<S>, x: nat, y: nat)
    requires x < |scores| && y < |scores|
  {
    a.less(scores[y], scores[x]) || (!a.less(scores[x], scores[y]) && x < y)
  }

  ghost predicate Indexes<S(!new)>(scores: seq<S>, ids: seq<nat>) { forall i | 0 <= i < |ids| :: ids[i] < |scores| }

  ghost predicate BestFirst<S(!new)>(a: Arithmetic<S>, scores: seq<S>, ids: seq<nat>) {
    Indexes(scores, ids) && forall i, j | 0 <= i < j < |ids| :: Better(a, scores, ids[i], ids[j])
  }

  lemma BetterChains<S(!new)>(a: Arithmetic<S>, scores: seq<S>, x: nat, y: nat, z: nat)
    requires a.Ordered() && a.AllFinite(scores) && x < |scores| && y < |scores| && z < |scores|
    requires Better(a, scores, x, y) && Better(a, scores, y, z)
    ensures Better(a, scores, x, z)
  {
    var p, q, r := scores[x], scores[y], scores[z];
    assert a.finite(p) && a.finite(q) && a.finite(r);
    assert a.less(p, r) ==> a.less(p, q) || a.less(q, r);
    assert a.less(q, p) ==> a.less(q, r) || a.less(r, p);
    assert a.less(r, q) ==> a.less(r, p) || a.less(p, q);
  }

  lemma BetterEither<S(!new)>(a: Arithmetic<S>, scores: seq<S>, x: nat, y: nat)
    requires a.Ordered() && a.AllFinite(scores) && x < |scores| && y < |scores| && x != y
    ensures Better(a, scores, x, y) <==> !Better(a, scores, y, x)
  {
    assert a.finite(scores[x]) && a.finite(scores[y]);
  }

  function InsertIndex<S(!new)>(a: Arithmetic<S>, scores: seq<S>, ids: seq<nat>, x: nat): (r: seq<nat>)
    requires a.Ordered() && a.AllFinite(scores) && BestFirst(a, scores, ids) && x < |scores| && x !in ids
    ensures BestFirst(a, scores, r) && |r| == |ids| + 1 && forall y :: y in r <==> y == x || y in ids
  {
    if ids == [] then [x]
    else if Better(a, scores, x, ids[0]) then
      InsertFront(a, scores, ids, x);
      [x] + ids
    else
      var rest := InsertIndex(a, scores, ids[1..], x);
      InsertBehind(a, scores, ids, x, rest);
      [ids[0]] + rest
  }

  lemma InsertFront<S(!new)>(a: Arithmetic<S>, scores: seq<S>, ids: seq<nat>, x: nat)
    requires a.Ordered() && a.AllFinite(scores) && BestFirst(a, scores, ids) && x < |scores| && ids != []
    requires Better(a, scores, x, ids[0])
    ensures BestFirst(a, scores, [x] + ids) && forall y :: y in [x] + ids <==> y == x || y in ids
  {
    hide Better;
    forall j | 0 <= j < |ids| ensures Better(a, scores, x, ids[j]) {
      if j > 0 { BetterChains(a, scores, x, ids[0], ids[j]); }
    }
  }

  lemma InsertBehind<S(!new)>(a: Arithmetic<S>, scores: seq<S>, ids: seq<nat>, x: nat, rest: seq<nat>)
    requires a.Ordered() && a.AllFinite(scores) && BestFirst(a, scores, ids) && x < |scores| && ids != [] && x !in ids
    requires !Better(a, scores, x, ids[0]) && BestFirst(a, scores, rest)
    requires forall y :: y in rest <==> y == x || y in ids[1..]
    ensures BestFirst(a, scores, [ids[0]] + rest) && forall y :: y in [ids[0]] + rest <==> y == x || y in ids
  {
    hide Better;
    assert ids == [ids[0]] + ids[1..];
    BetterEither(a, scores, ids[0], x);
    forall j | 0 <= j < |rest| ensures Better(a, scores, ids[0], rest[j]) {
      assert rest[j] in rest;
      if rest[j] != x { var k :| 1 <= k < |ids| && ids[k] == rest[j]; }
    }
  }

  /** The first `n` indices in routing order. */
  function Ranking<S(!new)>(a: Arithmetic<S>, scores: seq<S>, n: nat): (r: seq<nat>)
    requires a.Ordered() && a.AllFinite(scores) && n <= |scores|
    ensures BestFirst(a, scores, r) && |r| == n && forall y: nat :: y in r <==> y < n
  {
    if n == 0 then [] else InsertIndex(a, scores, Ranking(a, scores, n - 1), n - 1)
  }

  function StableTopK<S(!new)>(a: Arithmetic<S>, scores: seq<S>, k: nat): (ids: seq<nat>)
    requires a.Ordered() && a.AllFinite(scores)
    ensures forall i | 0 <= i < |ids| :: ids[i] < |scores|
  {
    var ranked := Ranking(a, scores, |scores|);
    if k < |ranked| then ranked[..k] else ranked
  }

  ghost predicate IsTopK<S(!new)>(a: Arithmetic<S>, scores: seq<S>, k: nat, ids: seq<nat>) {
    && BestFirst(a, scores, ids) && |ids| == (if k < |scores| then k else |scores|)
    && forall i, y: nat | 0 <= i < |ids| && y < |scores| && y !in ids :: Better(a, scores, ids[i], y)
  }

  /** The routed experts are the `k` best, best first, ties to the lower index. */
  lemma TopKIsBest<S(!new)>(a: Arithmetic<S>, scores: seq<S>, k: nat)
    requires a.Ordered() && a.AllFinite(scores)
    ensures IsTopK(a, scores, k, StableTopK(a, scores, k))
  {
    hide Better;
    var ranked := Ranking(a, scores, |scores|);
    var ids := StableTopK(a, scores, k);
    forall i, y: nat | 0 <= i < |ids| && y < |scores| && y !in ids ensures Better(a, scores, ids[i], y) {
      assert y in ranked;
      var j :| 0 <= j < |ranked| && ranked[j] == y;
      assert j >= |ids|;
    }
  }

  // ---------------------------------------------------------------- softmax and attention

  function Max<S(!new)>(a: Arithmetic<S>, s: seq<S>): S
    requires s != []
  {
    if |s| == 1 then s[0] else a.max(Max(a, s[..|s| - 1]), s[|s| - 1])
  }

  function Sum<S(!new)>(a: Arithmetic<S>, s: seq<S>): S {
    if s == [] then a.zero else a.add(Sum(a, s[..|s| - 1]), s[|s| - 1])
  }

  function Shifted<S(!new)>(a: Arithmetic<S>, s: seq<S>, m: S): (e: seq<S>)
    ensures |e| == |s| && forall i | 0 <= i < |s| :: e[i] == a.exp(a.sub(s[i], m))
  {
    seq(|s|, i requires 0 <= i < |s| => a.exp(a.sub(s[i], m)))
  }

  /** Exponentials over their total; None unless the total is finite and positive and so are they. */
  function Normalized<S(!new)>(a: Arithmetic<S>, e: seq<S>): (r: Option<seq<S>>)
    ensures r.Some? ==> |r.value| == |e|
  {
    var total := Sum(a, e);
    if !a.finite(total) || !a.less(a.zero, total) then None
    else
      var out := seq(|e|, i requires 0 <= i < |e| => a.div(e[i], total));
      if a.AllFinite(out) then Some(out) else None
  }

  function Softmax<S(!new)>(a: Arithmetic<S>, s: seq<S>): (r: Option<seq<S>>)
    ensures r.Some? ==> |r.value| == |s|
  {
    if s == [] then None else Normalized(a, Shifted(a, s, Max(a, s)))
  }

  // In exact arithmetic the shift by the maximum cancels.

  ghost predicate Exponential(exp: real -> real) {
    (forall x :: exp(x) > 0.0) && forall x, y :: exp(x + y) == exp(x) * exp(y)
  }

  function Reals(s: seq<real>): (e: seq<Extended>)
    ensures |e| == |s| && forall i | 0 <= i < |s| :: e[i] == Real(s[i])
  {
    seq(|s|, i requires 0 <= i < |s| => Real(s[i]))
  }

  function Powers(exp: real -> real, s: seq<real>): (p: seq<real>)
    ensures |p| == |s| && forall i | 0 <= i < |s| :: p[i] == exp(s[i])
  {
    seq(|s|, i requires 0 <= i < |s| => exp(s[i]))
  }

  function RealSum(s: seq<real>): real { if s == [] then 0.0 else RealSum(s[..|s| - 1]) + s[|s| - 1] }

  function Lowered(s: seq<real>, top: real): (t: seq<real>)
    ensures |t| == |s| && forall i | 0 <= i < |s| :: t[i] == s[i] - top
  {
    seq(|s|, i requires 0 <= i < |s| => s[i] - top)
  }

  lemma {:induction false} MaxIsReal(exp: real -> real, s: seq<real>)
    requires s != []
    ensures Max(Exact(exp), Reals(s)).Real?
  {
    if |s| > 1 {
      MaxIsReal(exp, s[..|s| - 1]);
      assert Reals(s)[..|s| - 1] == Reals(s[..|s| - 1]);
    }
  }

  lemma ShiftedReals(exp: real -> real, s: seq<real>, top: real)
    ensures Shifted(Exact(exp), Reals(s), Real(top)) == Reals(Powers(exp, Lowered(s, top)))
  {}

  lemma {:induction false} SumOfReals(exp: real -> real, x: seq<real>)
    ensures Sum(Exact(exp), Reals(x)) == Real(RealSum(x))
  {
    if x != [] {
      var n := |x| - 1;
      SumOfReals(exp, x[..n]);
      assert Reals(x)[..n] == Reals(x[..n]);
    }
  }

  lemma Unshift(exp: real -> real, x: real, top: real)
    requires Exponential(exp)
    ensures exp(x - top) * exp(top) == exp(x) && exp(x - top) > 0.0 && exp(top) > 0.0
  {
    assert exp((x - top) + top) == exp(x - top) * exp(top);
    assert (x - top) + top == x;
  }

  lemma Spread(a: real, b: real, factor: real)
    ensures (a + b) * factor == a * factor + b * factor
  {}

  lemma {:induction false} SumUnshifts(exp: real -> real, s: seq<real>, top: real)
    requires Exponential(exp)
    ensures RealSum(Powers(exp, Lowered(s, top))) * exp(top) == RealSum(Powers(exp, s))
    ensures RealSum(Powers(exp, Lowered(s, top))) >= 0.0 && (s != [] ==> RealSum(Powers(exp, Lowered(s, top))) > 0.0)
  {
    hide Exponential;
    if s != [] {
      var n := |s| - 1;
      SumUnshifts(exp, s[..n], top);
      var low := Powers(exp, Lowered(s, top));
      assert low[..n] == Powers(exp, Lowered(s[..n], top));
      assert Powers(exp, s)[..n] == Powers(exp, s[..n]);
      Unshift(exp, s[n], top);
      Spread(RealSum(low[..n]), low[n], exp(top));
    }
  }

  lemma NormalizedReals(exp: real -> real, x: seq<real>)
    requires RealSum(x) > 0.0
    ensures
      var r := Normalized(Exact(exp), Reals(x));
      r.Some? && forall i | 0 <= i < |x| :: r.value[i] == Real(x[i] / RealSum(x))
  {
    hide Sum, RealSum;
    SumOfReals(exp, x);
  }

  lemma SameShare(part: real, total: real, factor: real)
    requires total > 0.0 && factor > 0.0
    ensures total * factor > 0.0 && part / total == (part * factor) / (total * factor)
  {}

  /** In exact arithmetic every score gets its exponential's share of all of them. */
  lemma SoftmaxShares(exp: real -> real, s: seq<real>)
    requires Exponential(exp) && s != []
    ensures
      var r, total := Softmax(Exact(exp), Reals(s)), RealSum(Powers(exp, s));
      total > 0.0 && r.Some? && forall i | 0 <= i < |s| :: r.value[i] == Real(exp(s[i]) / total)
  {
    hide Sum, Max, Exponential, Exact, Normalized, RealSum, Powers;
    MaxIsReal(exp, s);
    var top := Max(Exact(exp), Reals(s)).r;
    var low := Powers(exp, Lowered(s, top));
    ShiftedReals(exp, s, top);
    SumUnshifts(exp, s, top);
    NormalizedReals(exp, low);
    Unshift(exp, top, top);
    SameShare(0.0, RealSum(low), exp(top));
    forall i | 0 <= i < |s| ensures low[i] / RealSum(low) == exp(s[i]) / RealSum(Powers(exp, s)) {
      Unshift(exp, s[i], top);
      SameShare(low[i], RealSum(low), exp(top));
    }
  }

  function Dot<S(!new)>(a: Arithmetic<S>, x: seq<S>, y: seq<S>, lo: nat, hi: nat): S
    requires lo <= hi <= |x| && hi <= |y|
    decreases hi - lo
  {
    if lo == hi then a.zero else a.add(Dot(a, x, y, lo, hi - 1), a.mul(x[hi - 1], y[hi - 1]))
  }

  /** The weighted sum of component `i` of the first `n` values. */
  function Mixed<S(!new)>(a: Arithmetic<S>, p: seq<S>, values: seq<seq<S>>, i: nat, n: nat): S
    requires n <= |p| && n <= |values| && forall v | v in values :: i < |v|
  {
    if n == 0 then a.zero else a.add(Mixed(a, p, values, i, n - 1), a.mul(p[n - 1], values[n - 1][i]))
  }

  datatype Tail<S> = Tail(logits: seq<S>, scores: seq<S>, experts: seq<nat>, weights: seq<S>)

  datatype Model<!S(!new)> = Model(
    id: nat, contextLength: nat, vocab: nat, heads: nat, headSize: nat, topK: nat,
    a: Arithmetic<S>, scale: S, embed: nat -> seq<S>, attnNorm: seq<S> -> Option<seq<S>>,
    query: seq<S> -> seq<S>, key: seq<S> -> seq<S>, value: seq<S> -> seq<S>,
    attnOut: seq<S> -> seq<S>, ffnNorm: seq<S> -> Option<seq<S>>, router: seq<S> -> seq<S>,
    expert: (nat, seq<S>) -> Option<seq<S>>, finalNorm: seq<S> -> Option<seq<S>>,
    lmHead: seq<S> -> seq<S>)
  {
    function Hidden(): nat { heads * headSize }

    /** Shapes, and scalars that can be compared: embeddings, projections and experts have the hidden
        size and the head produces one logit per token. Nothing is asked of sums, products or rounding. */
    ghost predicate Valid() {
      && heads > 0 && headSize > 0 && vocab > 0 && a.Ordered()
      && (forall token: nat :: |embed(token)| == Hidden())
      && (forall x: seq<S> :: |query(x)| == Hidden())
      && (forall x: seq<S> :: |key(x)| == Hidden())
      && (forall x: seq<S> :: |value(x)| == Hidden())
      && (forall x: seq<S> :: |attnOut(x)| == Hidden())
      && (forall id: nat, x: seq<S> :: expert(id, x).Some? ==> |expert(id, x).value| == Hidden())
      && forall x: seq<S> :: |lmHead(x)| == vocab
    }
  }

  ghost predicate Shaped<S(!new)>(m: Model<S>, vs: seq<seq<S>>) { forall v | v in vs :: |v| == m.Hidden() }

  lemma HeadFits<S(!new)>(m: Model<S>, head: nat)
    requires head < m.heads
    ensures head * m.headSize + m.headSize <= m.Hidden()
  {
    assert (head + 1) * m.headSize <= m.heads * m.headSize;
  }

  function HeadScore<S(!new)>(m: Model<S>, q: seq<S>, key: seq<S>, head: nat): S
    requires |q| == m.Hidden() && |key| == m.Hidden() && head < m.heads
  {
    HeadFits(m, head);
    m.a.mul(Dot(m.a, q, key, head * m.headSize, head * m.headSize + m.headSize), m.scale)
  }

  function HeadScores<S(!new)>(m: Model<S>, q: seq<S>, keys: seq<seq<S>>, head: nat): (s: seq<S>)
    requires |q| == m.Hidden() && Shaped(m, keys) && head < m.heads
    ensures |s| == |keys|
  {
    seq(|keys|, j requires 0 <= j < |keys| => HeadScore(m, q, keys[j], head))
  }

  ghost predicate HeadFails<S(!new)>(m: Model<S>, q: seq<S>, keys: seq<seq<S>>, head: nat)
    requires |q| == m.Hidden() && Shaped(m, keys) && head < m.heads
  {
    Softmax(m.a, HeadScores(m, q, keys, head)).None?
  }

  ghost predicate AnyHeadFails<S(!new)>(m: Model<S>, q: seq<S>, keys: seq<seq<S>>)
    requires |q| == m.Hidden() && Shaped(m, keys)
  {
    exists head: nat :: head < m.heads && HeadFails(m, q, keys, head)
  }

  /** A query against as many keys as values, all of the hidden size. */
  ghost predicate Attends<S(!new)>(m: Model<S>, q: seq<S>, keys: seq<seq<S>>, values: seq<seq<S>>) {
    m.Valid() && |q| == m.Hidden() && Shaped(m, keys) && Shaped(m, values) && |keys| == |values|
  }

  /** The attention output vector, component by component. */
  ghost function AttentionVec<S(!new)>(m: Model<S>, q: seq<S>, keys: seq<seq<S>>, values: seq<seq<S>>): (out: seq<S>)
    requires Attends(m, q, keys, values)
    ensures |out| == m.Hidden()
    ensures forall i | 0 <= i < m.Hidden() :: out[i] == AttentionAt(m, q, keys, values, i)
  {
    seq(m.Hidden(), i requires 0 <= i < m.Hidden() => AttentionAt(m, q, keys, values, i))
  }

  /** Attention of one query over a sequence of keys and values, head by head. */
  ghost function Attention<S(!new)>(m: Model<S>, q: seq<S>, keys: seq<seq<S>>, values: seq<seq<S>>): (r: Option<seq<S>>)
    requires Attends(m, q, keys, values)
  {
    if AnyHeadFails(m, q, keys) then None
    else
      var out := AttentionVec(m, q, keys, values);
      if m.a.AllFinite(out) then Some(out) else None
  }

  lemma HeadOf<S(!new)>(m: Model<S>, i: nat)
    requires m.headSize > 0 && i < m.Hidden()
    ensures i / m.headSize < m.heads
  {
    if i / m.headSize >= m.heads { Multiples(m.heads, i / m.headSize, m.headSize); }
  }

  lemma HeadIndex<S(!new)>(m: Model<S>, i: nat)
    requires m.Valid() && i < m.Hidden()
    ensures m.headSize > 0 && i / m.headSize < m.heads
  {
    HeadOf(m, i);
  }

  lemma Multiples(a: nat, b: nat, d: nat)
    requires a <= b
    ensures a * d <= b * d
  {}

  ghost function AttentionAt<S(!new)>(m: Model<S>, q: seq<S>, keys: seq<seq<S>>, values: seq<seq<S>>, i: nat): S
    requires Attends(m, q, keys, values) && i < m.Hidden()
  {
    hide Softmax, HeadScores, Mixed, Model.Valid;
    HeadIndex(m, i);
    match Softmax(m.a, HeadScores(m, q, keys, i / m.headSize))
    case None => m.a.zero
    case Some(p) => Mixed(m.a, p, values, i, |values|)
  }

  function AddVec<S(!new)>(a: Arithmetic<S>, x: seq<S>, y: seq<S>): (z: seq<S>)
    requires |x| == |y|
    ensures |z| == |x|
  {
    seq(|x|, i requires 0 <= i < |x| => a.add(x[i], y[i]))
  }

  /** What the experts make of a vector, in order; None where one of them fails. */
  function Outputs<S(!new)>(m: Model<S>, ids: seq<nat>, x: seq<S>): (r: Option<seq<seq<S>>>)
    requires m.Valid()
    ensures r.Some? ==> |r.value| == |ids| && Shaped(m, r.value)
  {
    if ids == [] then Some([])
    else
      match Outputs(m, ids[..|ids| - 1], x) case None => None case Some(before) =>
      match m.expert(ids[|ids| - 1], x) case None => None case Some(last) => Some(before + [last])
  }

  /** The weighted sum of vectors, component by component. */
  function Mixture<S(!new)>(m: Model<S>, weights: seq<S>, outputs: seq<seq<S>>): (out: seq<S>)
    requires |weights| == |outputs| && Shaped(m, outputs)
    ensures |out| == m.Hidden()
  {
    seq(m.Hidden(), i requires 0 <= i < m.Hidden() => Mixed(m.a, weights, outputs, i, |outputs|))
  }

  function Gathered<S(!new)>(scores: seq<S>, ids: seq<nat>): (s: seq<S>)
    requires forall i | 0 <= i < |ids| :: ids[i] < |scores|
    ensures |s| == |ids|
  {
    seq(|ids|, i requires 0 <= i < |ids| => scores[ids[i]])
  }

  /** Everything after attention: routing, experts, final norm and logits. */
  function Finish<S(!new)>(m: Model<S>, residual: seq<S>, attended: seq<S>): (r: Option<Tail<S>>)
    requires m.Valid() && |residual| == m.Hidden()
    ensures r.Some? ==> |r.value.logits| == m.vocab && m.a.AllFinite(r.value.logits)
  {
    var r1 := AddVec(m.a, residual, m.attnOut(attended));
    if !m.a.AllFinite(r1) then None
    else match m.ffnNorm(r1) case None => None case Some(normalized) =>
      var scores := m.router(normalized);
      if !m.a.AllFinite(scores) then None
      else
        var ids := StableTopK(m.a, scores, m.topK);
        match Softmax(m.a, Gathered(scores, ids)) case None => None case Some(weights) =>
        match Outputs(m, ids, normalized) case None => None case Some(outputs) =>
          var mixture := Mixture(m, weights, outputs);
          var r2 := AddVec(m.a, r1, mixture);
          if !m.a.AllFinite(mixture) || !m.a.AllFinite(r2) then None
          else match m.finalNorm(r2) case None => None case Some(last) =>
            var logits := m.lmHead(last);
            if m.a.AllFinite(logits) then Some(Tail(logits, scores, ids, weights)) else None
  }

  // ---------------------------------------------------------------- the masked form of the reference

  /** A row of scores in which positions after `p` are filled with minus infinity. */
  function Filled<S(!new)>(a: Arithmetic<S>, s: seq<S>, p: nat): (row: seq<S>)
    requires p < |s|
    ensures |row| == |s|
  {
    s[..p + 1] + seq(|s| - p - 1, _ => a.lowest)
  }

  /** Softmax over a whole row of scores in which positions after `p` are masked out. */
  function MaskedSoftmax<S(!new)>(a: Arithmetic<S>, s: seq<S>, p: nat): (r: Option<seq<S>>)
    requires p < |s|
    ensures r.Some? ==> |r.value| == |s|
  {
    Softmax(a, Filled(a, s, p))
  }

  /** Filling leaves a finite maximum alone and cannot make another finite. */
  lemma {:induction false} MaxOfFilled<S(!new)>(a: Arithmetic<S>, row: seq<S>, n: nat)
    requires a.Floor() && 0 < n <= |row| && forall i | n <= i < |row| :: row[i] == a.lowest
    ensures a.finite(Max(a, row)) <==> a.finite(Max(a, row[..n]))
    ensures a.finite(Max(a, row)) ==> Max(a, row) == Max(a, row[..n])
  {
    if n == |row| {
      assert row[..n] == row;
    } else {
      var shorter := row[..|row| - 1];
      assert shorter[..n] == row[..n];
      MaxOfFilled(a, shorter, n);
    }
  }

  lemma {:induction false} MaxIsThere<S(!new)>(a: Arithmetic<S>, s: seq<S>)
    requires a.Floor() && s != []
    ensures Max(a, s) in s
  {
    if |s| > 1 { MaxIsThere(a, s[..|s| - 1]); }
  }

  /** A non-finite term makes the sum non-finite. */
  lemma {:induction false} SumShows<S(!new)>(a: Arithmetic<S>, e: seq<S>, i: nat)
    requires a.Masks() && i < |e| && !a.finite(e[i])
    ensures !a.finite(Sum(a, e))
  {
    if i < |e| - 1 { SumShows(a, e[..|e| - 1], i); }
  }

  /** Without a finite maximum there is no softmax. */
  lemma NoSoftmax<S(!new)>(a: Arithmetic<S>, s: seq<S>)
    requires a.Masks() && s != [] && !a.finite(Max(a, s))
    ensures Softmax(a, s).None?
  {
    hide Max, Sum;
    var m := Max(a, s);
    MaxIsThere(a, s);
    var i :| 0 <= i < |s| && s[i] == m;
    SumShows(a, Shifted(a, s, m), i);
  }

  lemma {:induction false} SumSettled<S(!new)>(a: Arithmetic<S>, e: seq<S>)
    requires a.Masks()
    ensures a.settled(Sum(a, e))
  {
    if e != [] { SumSettled(a, e[..|e| - 1]); }
  }

  /** Trailing zeros leave a finite sum alone and cannot repair another. */
  lemma {:induction false} SumOfTail<S(!new)>(a: Arithmetic<S>, e: seq<S>, n: nat)
    requires a.Masks() && n <= |e| && forall i | n <= i < |e| :: e[i] == a.zero
    ensures a.finite(Sum(a, e)) <==> a.finite(Sum(a, e[..n]))
    ensures a.finite(Sum(a, e)) ==> Sum(a, e) == Sum(a, e[..n])
  {
    if n == |e| {
      assert e[..n] == e;
    } else {
      var shorter := e[..|e| - 1];
      assert shorter[..n] == e[..n];
      SumOfTail(a, shorter, n);
      SumSettled(a, shorter);
    }
  }

  /** Normalising a row with trailing zeros normalises its front, padded with zeros. */
  lemma NormalizedTail<S(!new)>(a: Arithmetic<S>, e: seq<S>, n: nat)
    requires a.Masks() && n <= |e| && forall i | n <= i < |e| :: e[i] == a.zero
    ensures
      var long, short := Normalized(a, e), Normalized(a, e[..n]);
      && (long.Some? <==> short.Some?)
      && (long.Some? ==> long.value[..n] == short.value && forall i | n <= i < |e| :: long.value[i] == a.zero)
  {
    hide Sum;
    SumOfTail(a, e, n);
    var total := Sum(a, e);
    if a.finite(total) && a.less(a.zero, total) {
      var long := seq(|e|, i requires 0 <= i < |e| => a.div(e[i], total));
      var short := seq(n, i requires 0 <= i < n => a.div(e[..n][i], total));
      assert long[..n] == short;
      assert forall i | n <= i < |e| :: long[i] == a.zero;
      assert forall i | 0 <= i < n :: long[i] == short[i];
    }
  }

  /** Masking a row gives the softmax of the unmasked prefix, padded with zeros. */
  lemma MaskedIsPrefix<S(!new)>(a: Arithmetic<S>, s: seq<S>, p: nat)
    requires a.Masks() && p < |s|
    ensures
      var masked, prefix := MaskedSoftmax(a, s, p), Softmax(a, s[..p + 1]);
      && (masked.Some? <==> prefix.Some?)
      && (masked.Some? ==> masked.value[..p + 1] == prefix.value && forall i | p < i < |s| :: masked.value[i] == a.zero)
  {
    hide Normalized, Max;
    var row, front := Filled(a, s, p), s[..p + 1];
    assert row[..p + 1] == front;
    MaxOfFilled(a, row, p + 1);
    if a.finite(Max(a, row)) {
      var e := Shifted(a, row, Max(a, row));
      assert e[..p + 1] == Shifted(a, front, Max(a, front));
      NormalizedTail(a, e, p + 1);
    } else {
      NoSoftmax(a, row);
      NoSoftmax(a, front);
    }
  }

  /** At the last position nothing is masked, whatever the arithmetic. */
  lemma NothingMasked<S(!new)>(a: Arithmetic<S>, s: seq<S>)
    requires s != []
    ensures MaskedSoftmax(a, s, |s| - 1) == Softmax(a, s)
  {
    assert Filled(a, s, |s| - 1) == s;
  }

  lemma {:induction false} MixedSettled<S(!new)>(a: Arithmetic<S>, w: seq<S>, values: seq<seq<S>>, i: nat, n: nat)
    requires a.Masks() && n <= |w| && n <= |values| && forall v | v in values :: i < |v|
    ensures a.settled(Mixed(a, w, values, i, n))
  {
    if n > 0 { MixedSettled(a, w, values, i, n - 1); }
  }

  /** Zero weights drop finite values from a sum; a non-finite value shows through them. */
  lemma {:induction false} MixedZeroTail<S(!new)>(a: Arithmetic<S>, w: seq<S>, values: seq<seq<S>>, i: nat, n: nat,
                                                  k: nat)
    requires a.Masks() && k <= n <= |w| && n <= |values| && forall v | v in values :: i < |v|
    requires forall j | k <= j < n :: w[j] == a.zero
    ensures
      var all, some := Mixed(a, w, values, i, n), Mixed(a, w, values, i, k);
      && (a.finite(all) <==> a.finite(some) && forall j | k <= j < n :: a.finite(values[j][i]))
      && (a.finite(all) ==> all == some)
  {
    hide Arithmetic.Masks;
    if k < n {
      MixedZeroTail(a, w, values, i, n - 1, k);
      MixedSettled(a, w, values, i, n - 1);
      ZeroTerm(a, Mixed(a, w, values, i, n - 1), values[n - 1][i]);
      assert w[n - 1] == a.zero;
    }
  }

  lemma ZeroTerm<S(!new)>(a: Arithmetic<S>, before: S, v: S)
    requires a.Masks() && a.settled(before)
    ensures
      var all := a.add(before, a.mul(a.zero, v));
      (a.finite(all) <==> a.finite(before) && a.finite(v)) && (a.finite(all) ==> all == before)
  {}

  lemma {:induction false} MixedPrefix<S(!new)>(a: Arithmetic<S>, w: seq<S>, w': seq<S>, values: seq<seq<S>>,
                                                values': seq<seq<S>>, i: nat, n: nat)
    requires n <= |w| && n <= |w'| && n <= |values| && n <= |values'| && w[..n] == w'[..n]
    requires values[..n] == values'[..n]
    requires (forall v | v in values :: i < |v|) && forall v | v in values' :: i < |v|
    ensures Mixed(a, w, values, i, n) == Mixed(a, w', values', i, n)
  {
    if n > 0 {
      assert w[..n - 1] == w[..n][..n - 1] && w'[..n - 1] == w'[..n][..n - 1];
      assert values[..n - 1] == values[..n][..n - 1] && values'[..n - 1] == values'[..n][..n - 1];
      MixedPrefix(a, w, w', values, values', i, n - 1);
      assert w[n - 1] == w[..n][n - 1] == w'[..n][n - 1] == w'[n - 1];
      assert values[n - 1] == values[..n][n - 1] == values'[..n][n - 1] == values'[n - 1];
    }
  }

  ghost function MaskedAt<S(!new)>(m: Model<S>, q: seq<S>, keys: seq<seq<S>>, values: seq<seq<S>>, p: nat, i: nat): S
    requires Attends(m, q, keys, values) && p < |keys| && i < m.Hidden()
  {
    hide MaskedSoftmax, HeadScores, Mixed, Model.Valid;
    HeadIndex(m, i);
    match MaskedSoftmax(m.a, HeadScores(m, q, keys, i / m.headSize), p)
    case None => m.a.zero
    case Some(w) => Mixed(m.a, w, values, i, |values|)
  }

  ghost predicate MaskedHeadFails<S(!new)>(m: Model<S>, q: seq<S>, keys: seq<seq<S>>, p: nat, head: nat)
    requires |q| == m.Hidden() && Shaped(m, keys) && head < m.heads && p < |keys|
  {
    MaskedSoftmax(m.a, HeadScores(m, q, keys, head), p).None?
  }

  ghost predicate AnyMaskedHeadFails<S(!new)>(m: Model<S>, q: seq<S>, keys: seq<seq<S>>, p: nat)
    requires |q| == m.Hidden() && Shaped(m, keys) && p < |keys|
  {
    exists head: nat :: head < m.heads && MaskedHeadFails(m, q, keys, p, head)
  }

  ghost function MaskedVec<S(!new)>(m: Model<S>, q: seq<S>, keys: seq<seq<S>>, values: seq<seq<S>>,
                                    p: nat): (out: seq<S>)
    requires Attends(m, q, keys, values) && p < |keys|
    ensures |out| == m.Hidden()
    ensures forall i | 0 <= i < m.Hidden() :: out[i] == MaskedAt(m, q, keys, values, p, i)
  {
    seq(m.Hidden(), i requires 0 <= i < m.Hidden() => MaskedAt(m, q, keys, values, p, i))
  }

  /** Attention at position `p` over all positions, with the later ones masked. */
  ghost function MaskedAttention<S(!new)>(m: Model<S>, q: seq<S>, keys: seq<seq<S>>, values: seq<seq<S>>, p: nat)
    : Option<seq<S>>
    requires Attends(m, q, keys, values) && p < |keys|
  {
    if AnyMaskedHeadFails(m, q, keys, p) then None
    else
      var out := MaskedVec(m, q, keys, values, p);
      if m.a.AllFinite(out) then Some(out) else None
  }

  /** At the last position masked attention is plain attention, whatever the arithmetic. */
  lemma LastUnmasked<S(!new)>(m: Model<S>, q: seq<S>, keys: seq<seq<S>>, values: seq<seq<S>>)
    requires Attends(m, q, keys, values) && keys != []
    ensures MaskedAttention(m, q, keys, values, |keys| - 1) == Attention(m, q, keys, values)
  {
    hide MaskedSoftmax, Softmax, HeadScores, Mixed;
    var p := |keys| - 1;
    forall head: nat | head < m.heads ensures MaskedHeadFails(m, q, keys, p, head) <==> HeadFails(m, q, keys, head) {
      NothingMasked(m.a, HeadScores(m, q, keys, head));
    }
    forall i | 0 <= i < m.Hidden() ensures MaskedAt(m, q, keys, values, p, i) == AttentionAt(m, q, keys, values, i) {
      HeadOf(m, i);
      NothingMasked(m.a, HeadScores(m, q, keys, i / m.headSize));
    }
    assert MaskedVec(m, q, keys, values, p) == AttentionVec(m, q, keys, values);
  }

  lemma HeadScoresPrefix<S(!new)>(m: Model<S>, q: seq<S>, keys: seq<seq<S>>, head: nat, n: nat)
    requires |q| == m.Hidden() && Shaped(m, keys) && head < m.heads && n <= |keys|
    ensures HeadScores(m, q, keys, head)[..n] == HeadScores(m, q, keys[..n], head)
  {}

  /** The values after position `p` are finite in component `i`. */
  ghost predicate FiniteAfter<S(!new)>(m: Model<S>, values: seq<seq<S>>, p: nat, i: nat)
    requires Shaped(m, values) && i < m.Hidden()
  {
    forall j | p < j < |values| :: i < |values[j]| && m.a.finite(values[j][i])
  }

  ghost predicate AllFiniteAfter<S(!new)>(m: Model<S>, values: seq<seq<S>>, p: nat) {
    forall j | p < j < |values| :: m.a.AllFinite(values[j])
  }

  lemma MaskedAtIsPrefix<S(!new)>(m: Model<S>, q: seq<S>, keys: seq<seq<S>>, values: seq<seq<S>>, p: nat, i: nat,
                                  head: nat)
    requires m.a.Masks() && Attends(m, q, keys, values) && p < |keys| && i < m.Hidden()
    requires head < m.heads && head == i / m.headSize && !MaskedHeadFails(m, q, keys, p, head)
    ensures
      var all, some := MaskedAt(m, q, keys, values, p, i), AttentionAt(m, q, keys[..p + 1], values[..p + 1], i);
      && (m.a.finite(all) <==> m.a.finite(some) && FiniteAfter(m, values, p, i))
      && (m.a.finite(all) ==> all == some)
  {
    hide HeadScores, MaskedSoftmax, Softmax, Mixed;
    var s := HeadScores(m, q, keys, head);
    HeadScoresPrefix(m, q, keys, head, p + 1);
    MaskedIsPrefix(m.a, s, p);
    var w, prefix := MaskedSoftmax(m.a, s, p).value, Softmax(m.a, s[..p + 1]).value;
    MixedZeroTail(m.a, w, values, i, |values|, p + 1);
    assert prefix[..p + 1] == prefix && values[..p + 1][..p + 1] == values[..p + 1];
    MixedPrefix(m.a, w, prefix, values, values[..p + 1], i, p + 1);
    forall j | p < j < |values| ensures i < |values[j]| { assert values[j] in values; }
  }

  lemma MaskedHeadsFailTogether<S(!new)>(m: Model<S>, q: seq<S>, keys: seq<seq<S>>, p: nat, head: nat)
    requires m.a.Masks() && |q| == m.Hidden() && Shaped(m, keys) && head < m.heads && p < |keys|
    ensures MaskedHeadFails(m, q, keys, p, head) <==> HeadFails(m, q, keys[..p + 1], head)
  {
    HeadScoresPrefix(m, q, keys, head, p + 1);
    MaskedIsPrefix(m.a, HeadScores(m, q, keys, head), p);
  }

  lemma AnyMaskedHeadFailsIsPrefix<S(!new)>(m: Model<S>, q: seq<S>, keys: seq<seq<S>>, p: nat)
    requires m.a.Masks() && |q| == m.Hidden() && Shaped(m, keys) && p < |keys|
    ensures AnyMaskedHeadFails(m, q, keys, p) <==> AnyHeadFails(m, q, keys[..p + 1])
  {
    if AnyMaskedHeadFails(m, q, keys, p) {
      var head: nat :| head < m.heads && MaskedHeadFails(m, q, keys, p, head);
      MaskedHeadsFailTogether(m, q, keys, p, head);
    }
    if AnyHeadFails(m, q, keys[..p + 1]) {
      var head: nat :| head < m.heads && HeadFails(m, q, keys[..p + 1], head);
      MaskedHeadsFailTogether(m, q, keys, p, head);
    }
  }

  lemma MaskedVecIsPrefix<S(!new)>(m: Model<S>, q: seq<S>, keys: seq<seq<S>>, values: seq<seq<S>>, p: nat)
    requires m.a.Masks() && Attends(m, q, keys, values) && p < |keys| && !AnyMaskedHeadFails(m, q, keys, p)
    ensures
      var all, some := MaskedVec(m, q, keys, values, p), AttentionVec(m, q, keys[..p + 1], values[..p + 1]);
      && (m.a.AllFinite(all) <==> m.a.AllFinite(some) && AllFiniteAfter(m, values, p))
      && (m.a.AllFinite(all) ==> all == some)
  {
    hide MaskedHeadFails, Softmax;
    var all, some := MaskedVec(m, q, keys, values, p), AttentionVec(m, q, keys[..p + 1], values[..p + 1]);
    forall i | 0 <= i < m.Hidden()
      ensures m.a.finite(all[i]) <==> m.a.finite(some[i]) && FiniteAfter(m, values, p, i)
      ensures m.a.finite(all[i]) ==> all[i] == some[i]
    {
      HeadOf(m, i);
      MaskedAtIsPrefix(m, q, keys, values, p, i, i / m.headSize);
    }
    Transposed(m, values, p);
  }

  lemma Transposed<S(!new)>(m: Model<S>, values: seq<seq<S>>, p: nat)
    requires Shaped(m, values)
    ensures AllFiniteAfter(m, values, p) <==> forall i | 0 <= i < m.Hidden() :: FiniteAfter(m, values, p, i)
  {
    assert forall j | 0 <= j < |values| :: values[j] in values && |values[j]| == m.Hidden();
    if forall i | 0 <= i < m.Hidden() :: FiniteAfter(m, values, p, i) {
      forall j, i | p < j < |values| && 0 <= i < |values[j]| ensures m.a.finite(values[j][i]) {
        assert FiniteAfter(m, values, p, i);
      }
    }
  }

  /** Masked attention over all positions is attention over the prefix exactly when the masked
      values are finite; a non-finite one, times a zero weight, spoils the position. */
  lemma MaskedAttentionIsPrefix<S(!new)>(m: Model<S>, q: seq<S>, keys: seq<seq<S>>, values: seq<seq<S>>, p: nat)
    requires m.a.Masks() && Attends(m, q, keys, values) && p < |keys|
    ensures Shaped(m, keys[..p + 1]) && Shaped(m, values[..p + 1])
    ensures MaskedAttention(m, q, keys, values, p)
      == if AllFiniteAfter(m, values, p) then Attention(m, q, keys[..p + 1], values[..p + 1]) else None
  {
    hide MaskedHeadFails, HeadFails, MaskedAt, AttentionAt;
    AnyMaskedHeadFailsIsPrefix(m, q, keys, p);
    if !AnyMaskedHeadFails(m, q, keys, p) { MaskedVecIsPrefix(m, q, keys, values, p); }
  }
}
