/** One position of the reference model (`oracle/runnel_oracle/model.py`), told as equations between the
    values of a full pass over a prefix: heads as slices, scores and mixtures as products of rows and
    columns, both residuals, and experts by their rank. The runtime's formulas are proved to solve
    exactly these equations. */
module ReferenceModel {
  import opened Common
  import opened Decoding
  import Sorting

  /** Row times column, added up from the left. */
  function Inner<S(!new)>(a: Arithmetic<S>, x: seq<S>, y: seq<S>): S
    requires |x| == |y|
  {
    if x == [] then a.zero
    else
      var n := |x| - 1;
      a.add(Inner(a, x[..n], y[..n]), a.mul(x[n], y[n]))
  }

  function Column<S(!new)>(rows: seq<seq<S>>, i: nat): (c: seq<S>)
    requires forall r | r in rows :: i < |r|
    ensures |c| == |rows|
  {
    seq(|rows|, j requires 0 <= j < |rows| => rows[j][i])
  }

  function Head<S(!new)>(m: Model<S>, x: seq<S>, head: nat): (part: seq<S>)
    requires |x| == m.Hidden() && head < m.heads
    ensures |part| == m.headSize
  {
    HeadFits(m, head);
    x[head * m.headSize..head * m.headSize + m.headSize]
  }

  // ---------------------------------------------------------------- attention

  /** The scores of position `p` in one head; later positions are masked. */
  function Row<S(!new)>(m: Model<S>, q: seq<S>, keys: seq<seq<S>>, p: nat, head: nat): (row: seq<S>)
    requires |q| == m.Hidden() && Shaped(m, keys) && head < m.heads
    ensures |row| == |keys|
  {
    seq(|keys|, j requires 0 <= j < |keys| =>
      if j <= p then m.a.mul(Inner(m.a, Head(m, q, head), Head(m, keys[j], head)), m.scale) else m.a.lowest)
  }

  /** The probabilities of every head, and the context they mix from the values. */
  ghost predicate Attended<S(!new)>(m: Model<S>, q: seq<S>, keys: seq<seq<S>>, values: seq<seq<S>>, p: nat,
                                    probabilities: seq<seq<S>>, context: seq<S>)
    requires Attends(m, q, keys, values) && p < |keys|
  {
    && |probabilities| == m.heads && |context| == m.Hidden() && m.a.AllFinite(context)
    && (forall h: nat | h < m.heads :: Softmax(m.a, Row(m, q, keys, p, h)) == Some(probabilities[h]))
    && forall i: nat | i < m.Hidden() :: Mixes(m, probabilities, values, context, i)
  }

  /** A component of the context lies in the head that its index falls in. */
  ghost predicate Mixes<S(!new)>(m: Model<S>, probabilities: seq<seq<S>>, values: seq<seq<S>>, context: seq<S>, i: nat)
    requires m.headSize > 0 && i < m.Hidden() && |probabilities| == m.heads && |context| == m.Hidden()
    requires Shaped(m, values)
  {
    HeadOf(m, i);
    var row := probabilities[i / m.headSize];
    |row| == |values| && context[i] == Inner(m.a, row, Column(values, i))
  }

  lemma {:induction false} DotIsInner<S(!new)>(a: Arithmetic<S>, x: seq<S>, y: seq<S>, lo: nat, hi: nat)
    requires lo <= hi <= |x| && hi <= |y|
    ensures Dot(a, x, y, lo, hi) == Inner(a, x[lo..hi], y[lo..hi])
    decreases hi - lo
  {
    if lo < hi {
      DotIsInner(a, x, y, lo, hi - 1);
      assert x[lo..hi][..hi - lo - 1] == x[lo..hi - 1] && y[lo..hi][..hi - lo - 1] == y[lo..hi - 1];
    }
  }

  lemma {:induction false} MixedIsInner<S(!new)>(a: Arithmetic<S>, w: seq<S>, values: seq<seq<S>>, i: nat, n: nat)
    requires n <= |w| && n <= |values| && forall v | v in values :: i < |v|
    ensures Mixed(a, w, values, i, n) == Inner(a, w[..n], Column(values, i)[..n])
  {
    if n > 0 {
      MixedIsInner(a, w, values, i, n - 1);
      var column := Column(values, i);
      assert w[..n][..n - 1] == w[..n - 1] && column[..n][..n - 1] == column[..n - 1];
    }
  }

  lemma RowIsFilled<S(!new)>(m: Model<S>, q: seq<S>, keys: seq<seq<S>>, p: nat, head: nat)
    requires |q| == m.Hidden() && Shaped(m, keys) && head < m.heads && p < |keys|
    ensures Row(m, q, keys, p, head) == Filled(m.a, HeadScores(m, q, keys, head), p)
  {
    HeadFits(m, head);
    forall j | 0 <= j < |keys| ensures HeadScore(m, q, keys[j], head)
      == m.a.mul(Inner(m.a, Head(m, q, head), Head(m, keys[j], head)), m.scale)
    {
      assert keys[j] in keys;
      DotIsInner(m.a, q, keys[j], head * m.headSize, head * m.headSize + m.headSize);
    }
  }

  /** Masked attention is the one solution of these equations, and there is none where it fails. */
  lemma AttentionMeans<S(!new)>(m: Model<S>, q: seq<S>, keys: seq<seq<S>>, values: seq<seq<S>>, p: nat, context: seq<S>)
    requires Attends(m, q, keys, values) && p < |keys|
    ensures MaskedAttention(m, q, keys, values, p) == Some(context) <==>
      exists probabilities :: Attended(m, q, keys, values, p, probabilities, context)
  {
    hide Row, MaskedSoftmax, Softmax, HeadScores, Filled, Mixed, Inner, Mixes, MaskedAt, Probability;
    if MaskedAttention(m, q, keys, values, p) == Some(context) {
      var probabilities := seq(m.heads, h requires 0 <= h < m.heads => Probability(m, q, keys, p, h));
      forall h: nat | h < m.heads ensures Softmax(m.a, Row(m, q, keys, p, h)) == Some(probabilities[h]) {
        HeadSucceeds(m, q, keys, p, h);
      }
      forall i: nat | i < m.Hidden() ensures Mixes(m, probabilities, values, context, i) {
        ComponentMeans(m, q, keys, values, p, probabilities, context, i);
      }
      assert Attended(m, q, keys, values, p, probabilities, context);
    }
    if probabilities :| Attended(m, q, keys, values, p, probabilities, context) {
      forall h: nat | h < m.heads ensures !MaskedHeadFails(m, q, keys, p, h) {
        SoftmaxOfRow(m, q, keys, p, h);
      }
      forall i: nat | i < m.Hidden() ensures context[i] == MaskedAt(m, q, keys, values, p, i) {
        assert Mixes(m, probabilities, values, context, i);
        ComponentMeans(m, q, keys, values, p, probabilities, context, i);
      }
      assert context == MaskedVec(m, q, keys, values, p);
    }
  }

  lemma SoftmaxOfRow<S(!new)>(m: Model<S>, q: seq<S>, keys: seq<seq<S>>, p: nat, h: nat)
    requires |q| == m.Hidden() && Shaped(m, keys) && h < m.heads && p < |keys|
    ensures Softmax(m.a, Row(m, q, keys, p, h)) == MaskedSoftmax(m.a, HeadScores(m, q, keys, h), p)
  {
    RowIsFilled(m, q, keys, p, h);
  }

  ghost function Probability<S(!new)>(m: Model<S>, q: seq<S>, keys: seq<seq<S>>, p: nat, h: nat): seq<S>
    requires |q| == m.Hidden() && Shaped(m, keys) && p < |keys| && h < m.heads
  {
    match MaskedSoftmax(m.a, HeadScores(m, q, keys, h), p) case None => [] case Some(w) => w
  }

  lemma HeadSucceeds<S(!new)>(m: Model<S>, q: seq<S>, keys: seq<seq<S>>, p: nat, h: nat)
    requires |q| == m.Hidden() && Shaped(m, keys) && p < |keys| && h < m.heads && !AnyMaskedHeadFails(m, q, keys, p)
    ensures Softmax(m.a, Row(m, q, keys, p, h)) == Some(Probability(m, q, keys, p, h))
  {
    hide Row, MaskedSoftmax, Softmax, HeadScores;
    SoftmaxOfRow(m, q, keys, p, h);
    assert !MaskedHeadFails(m, q, keys, p, h);
  }

  lemma ComponentMeans<S(!new)>(m: Model<S>, q: seq<S>, keys: seq<seq<S>>, values: seq<seq<S>>, p: nat,
                                probabilities: seq<seq<S>>, context: seq<S>, i: nat)
    requires Attends(m, q, keys, values) && p < |keys| && i < m.Hidden()
    requires |probabilities| == m.heads && |context| == m.Hidden()
    requires forall h: nat | h < m.heads :: Softmax(m.a, Row(m, q, keys, p, h)) == Some(probabilities[h])
    ensures Mixes(m, probabilities, values, context, i) <==> context[i] == MaskedAt(m, q, keys, values, p, i)
  {
    hide Row, MaskedSoftmax, Softmax, HeadScores, Mixed, Inner, Model.Valid;
    HeadIndex(m, i);
    var h := i / m.headSize;
    SoftmaxOfRow(m, q, keys, p, h);
    var w := probabilities[h];
    MixedIsInner(m.a, w, values, i, |values|);
    assert w[..|values|] == w && Column(values, i)[..|values|] == Column(values, i);
  }

  // ---------------------------------------------------------------- after attention

  /** The values between the context and the logits: the residual with the attention output, its norm, the
      scores of the chosen experts, what they return and how it is mixed, the residual with the mixture
      and its norm. */
  datatype Block<S> = Block(
    first: seq<S>, normalized: seq<S>, chosen: seq<S>, outputs: seq<seq<S>>, mixture: seq<S>, second: seq<S>,
    last: seq<S>)

  ghost predicate Adds<S(!new)>(a: Arithmetic<S>, x: seq<S>, y: seq<S>, z: seq<S>) {
    |x| == |y| == |z| && (forall i | 0 <= i < |z| :: z[i] == a.add(x[i], y[i])) && a.AllFinite(z)
  }

  /** The experts are the best by score, weighted by the softmax of their scores. */
  ghost predicate Routed<S(!new)>(m: Model<S>, b: Block<S>, t: Tail<S>) {
    && t.scores == m.router(b.normalized) && m.a.AllFinite(t.scores)
    && IsTopK(m.a, t.scores, m.topK, t.experts) && |b.chosen| == |t.experts|
    && (forall k | 0 <= k < |t.experts| :: b.chosen[k] == t.scores[t.experts[k]])
    && Softmax(m.a, b.chosen) == Some(t.weights)
  }

  /** Their outputs, mixed by weight. */
  ghost predicate Combined<S(!new)>(m: Model<S>, b: Block<S>, t: Tail<S>) {
    && |b.outputs| == |t.experts| == |t.weights| && Shaped(m, b.outputs) && |b.mixture| == m.Hidden()
    && (forall k | 0 <= k < |t.experts| :: m.expert(t.experts[k], b.normalized) == Some(b.outputs[k]))
    && (forall i: nat | i < m.Hidden() :: b.mixture[i] == Inner(m.a, t.weights, Column(b.outputs, i)))
    && m.a.AllFinite(b.mixture)
  }

  ghost predicate Concludes<S(!new)>(m: Model<S>, residual: seq<S>, context: seq<S>, b: Block<S>, t: Tail<S>) {
    && Adds(m.a, residual, m.attnOut(context), b.first) && m.ffnNorm(b.first) == Some(b.normalized)
    && Routed(m, b, t) && Combined(m, b, t) && Adds(m.a, b.first, b.mixture, b.second)
    && m.finalNorm(b.second) == Some(b.last) && t.logits == m.lmHead(b.last) && m.a.AllFinite(t.logits)
  }

  lemma AddsMeans<S(!new)>(a: Arithmetic<S>, x: seq<S>, y: seq<S>, z: seq<S>)
    requires |x| == |y|
    ensures Adds(a, x, y, z) <==> z == AddVec(a, x, y) && a.AllFinite(z)
  {
    if Adds(a, x, y, z) { assert z == AddVec(a, x, y); }
  }

  lemma {:induction false} OutputsMean<S(!new)>(m: Model<S>, ids: seq<nat>, x: seq<S>, outputs: seq<seq<S>>)
    requires m.Valid()
    ensures Outputs(m, ids, x) == Some(outputs) <==>
      |outputs| == |ids| && forall k | 0 <= k < |ids| :: m.expert(ids[k], x) == Some(outputs[k])
  {
    if ids != [] {
      var n := |ids| - 1;
      if |outputs| == |ids| {
        OutputsMean(m, ids[..n], x, outputs[..n]);
        assert outputs == outputs[..n] + [outputs[n]];
      }
      if Outputs(m, ids, x).Some? {
        var before := Outputs(m, ids[..n], x).value;
        OutputsMean(m, ids[..n], x, before);
      }
    }
  }

  lemma MixtureMeans<S(!new)>(m: Model<S>, weights: seq<S>, outputs: seq<seq<S>>, mixture: seq<S>)
    requires |weights| == |outputs| && Shaped(m, outputs)
    ensures mixture == Mixture(m, weights, outputs) <==>
      |mixture| == m.Hidden() && forall i: nat | i < m.Hidden() :: mixture[i] == Inner(m.a, weights, Column(outputs, i))
  {
    var target := Mixture(m, weights, outputs);
    forall i: nat | i < m.Hidden() ensures target[i] == Inner(m.a, weights, Column(outputs, i)) {
      MixedIsInner(m.a, weights, outputs, i, |outputs|);
      assert weights[..|outputs|] == weights && Column(outputs, i)[..|outputs|] == Column(outputs, i);
    }
    if |mixture| == m.Hidden()
      && forall i: nat | i < m.Hidden() :: mixture[i] == Inner(m.a, weights, Column(outputs, i)) {
      assert mixture == target;
    }
  }

  // The `k` best in order are one list.

  function Before<S(!new)>(a: Arithmetic<S>, scores: seq<S>): (nat, nat) -> bool {
    (x: nat, y: nat) => x < |scores| && y < |scores| && Better(a, scores, x, y)
  }

  lemma BetterOrders<S(!new)>(a: Arithmetic<S>, scores: seq<S>, s: set<nat>)
    requires a.Ordered() && a.AllFinite(scores) && forall x | x in s :: x < |scores|
    ensures Sorting.Orders(Before(a, scores), s)
  {
    hide Better;
    forall x, y, z | x in s && y in s && z in s && Before(a, scores)(x, y) && Before(a, scores)(y, z)
      ensures Before(a, scores)(x, z)
    {
      BetterChains(a, scores, x, y, z);
    }
    forall x, y | x in s && y in s ensures x == y || Before(a, scores)(x, y) || Before(a, scores)(y, x) {
      if x != y { BetterEither(a, scores, x, y); }
    }
    forall x | x in s ensures !Before(a, scores)(x, x) {
      NotBetterThanItself(a, scores, x);
    }
  }

  lemma NotBetterThanItself<S(!new)>(a: Arithmetic<S>, scores: seq<S>, x: nat)
    requires a.Ordered() && a.AllFinite(scores) && x < |scores|
    ensures !Better(a, scores, x, x)
  {
    assert a.finite(scores[x]);
  }

  lemma TopKOnce<S(!new)>(a: Arithmetic<S>, scores: seq<S>, k: nat, ids: seq<nat>)
    requires a.Ordered() && a.AllFinite(scores)
    ensures IsTopK(a, scores, k, ids) <==> ids == StableTopK(a, scores, k)
  {
    hide Better, StableTopK;
    TopKIsBest(a, scores, k);
    if IsTopK(a, scores, k, ids) {
      var best := StableTopK(a, scores, k);
      SameMembers(a, scores, k, ids, best);
      BetterOrders(a, scores, Sorting.Members(ids));
      Sorting.SortedOnce(Before(a, scores), ids, best);
    }
  }

  lemma SameMembers<S(!new)>(a: Arithmetic<S>, scores: seq<S>, k: nat, x: seq<nat>, y: seq<nat>)
    requires a.Ordered() && a.AllFinite(scores) && IsTopK(a, scores, k, x) && IsTopK(a, scores, k, y)
    ensures Sorting.Members(x) == Sorting.Members(y)
  {
    hide Better;
    NoneMissing(a, scores, k, x, y);
    NoneMissing(a, scores, k, y, x);
  }

  lemma {:induction false} NoneMissing<S(!new)>(a: Arithmetic<S>, scores: seq<S>, k: nat, x: seq<nat>, y: seq<nat>)
    requires a.Ordered() && a.AllFinite(scores) && IsTopK(a, scores, k, x) && IsTopK(a, scores, k, y)
    ensures Sorting.Members(x) <= Sorting.Members(y)
  {
    hide Better;
    OnePlaceEach(a, scores, x);
    OnePlaceEach(a, scores, y);
    if e :| e in x && e !in y {
      if f :| f in y && f !in x {
        var i :| 0 <= i < |x| && x[i] == e;
        var j :| 0 <= j < |y| && y[j] == f;
        BetterEither(a, scores, e, f);
      } else {
        assert Sorting.Members(y) <= Sorting.Members(x) - {e};
        FewerThan(Sorting.Members(y), Sorting.Members(x) - {e});
      }
    }
  }

  lemma FewerThan(a: set<nat>, b: set<nat>)
    requires a <= b
    ensures |a| <= |b|
  {
    assert b == a + (b - a);
  }

  /** Nothing is listed twice. */
  lemma {:induction false} OnePlaceEach<S(!new)>(a: Arithmetic<S>, scores: seq<S>, ids: seq<nat>)
    requires a.Ordered() && a.AllFinite(scores) && BestFirst(a, scores, ids)
    ensures |Sorting.Members(ids)| == |ids|
  {
    hide Better;
    if ids != [] {
      var n := |ids| - 1;
      OnePlaceEach(a, scores, ids[..n]);
      Sorting.Appended(ids[..n], ids[n]);
      assert ids == ids[..n] + [ids[n]];
      forall i | 0 <= i < n ensures ids[i] != ids[n] {
        NotBetterThanItself(a, scores, ids[n]);
      }
    }
  }

  lemma GatheredMeans<S(!new)>(scores: seq<S>, ids: seq<nat>, chosen: seq<S>)
    requires forall i | 0 <= i < |ids| :: ids[i] < |scores|
    ensures chosen == Gathered(scores, ids) <==>
      |chosen| == |ids| && forall k | 0 <= k < |ids| :: chosen[k] == scores[ids[k]]
  {}

  /** What the runtime computes solves the equations. */
  lemma FinishSolves<S(!new)>(m: Model<S>, residual: seq<S>, context: seq<S>) returns (b: Block<S>)
    requires m.Valid() && |residual| == m.Hidden() && Finish(m, residual, context).Some?
    ensures Concludes(m, residual, context, b, Finish(m, residual, context).value)
  {
    hide Softmax, StableTopK, IsTopK, Outputs, Mixture, Inner, Column, AddVec, Adds, Gathered;
    var t := Finish(m, residual, context).value;
    var first := AddVec(m.a, residual, m.attnOut(context));
    var normalized := m.ffnNorm(first).value;
    var outputs := Outputs(m, t.experts, normalized).value;
    var mixture := Mixture(m, t.weights, outputs);
    var second := AddVec(m.a, first, mixture);
    b := Block(first, normalized, Gathered(t.scores, t.experts), outputs, mixture, second, m.finalNorm(second).value);
    AddsMeans(m.a, residual, m.attnOut(context), first);
    AddsMeans(m.a, first, mixture, second);
    TopKOnce(m.a, t.scores, m.topK, t.experts);
    GatheredMeans(t.scores, t.experts, b.chosen);
    OutputsMean(m, t.experts, normalized, outputs);
    MixtureMeans(m, t.weights, outputs, mixture);
  }

  /** A solution of the equations is what the runtime computes. */
  lemma SolutionFinishes<S(!new)>(m: Model<S>, residual: seq<S>, context: seq<S>, b: Block<S>, t: Tail<S>)
    requires m.Valid() && |residual| == m.Hidden() && Concludes(m, residual, context, b, t)
    ensures Finish(m, residual, context) == Some(t)
  {
    hide Softmax, StableTopK, IsTopK, Outputs, Mixture, Inner, Column, AddVec, Adds, Gathered;
    AddsMeans(m.a, residual, m.attnOut(context), b.first);
    AddsMeans(m.a, b.first, b.mixture, b.second);
    TopKOnce(m.a, t.scores, m.topK, t.experts);
    GatheredMeans(t.scores, t.experts, b.chosen);
    OutputsMean(m, t.experts, b.normalized, b.outputs);
    MixtureMeans(m, t.weights, b.outputs, b.mixture);
  }

  /** The block after attention is the one solution of its equations, and there is none where it fails. */
  lemma FinishMeans<S(!new)>(m: Model<S>, residual: seq<S>, context: seq<S>, t: Tail<S>)
    requires m.Valid() && |residual| == m.Hidden()
    ensures Finish(m, residual, context) == Some(t) <==> exists b :: Concludes(m, residual, context, b, t)
  {
    hide Finish, Concludes;
    if Finish(m, residual, context) == Some(t) {
      var b := FinishSolves(m, residual, context);
    }
    if b :| Concludes(m, residual, context, b, t) {
      SolutionFinishes(m, residual, context, b, t);
    }
  }

  // ---------------------------------------------------------------- a whole pass

  /** The values of a full pass over a prefix, as far as one position needs them. */
  datatype Pass<S> = Pass(normal: seq<seq<S>>, query: seq<S>, keys: seq<seq<S>>, values: seq<seq<S>>,
                          probabilities: seq<seq<S>>, context: seq<S>, block: Block<S>)

  /** Every token is embedded, normalised and projected; position `p` asks. */
  ghost predicate Projects<S(!new)>(m: Model<S>, tokens: seq<nat>, p: nat, v: Pass<S>)
    requires p < |tokens|
  {
    && |v.normal| == |v.keys| == |v.values| == |tokens| && v.query == m.query(v.normal[p])
    && (forall t | 0 <= t < |tokens| :: m.attnNorm(m.embed(tokens[t])) == Some(v.normal[t]))
    && forall t | 0 <= t < |tokens| :: v.keys[t] == m.key(v.normal[t]) && v.values[t] == m.value(v.normal[t])
  }

  /** Position `p` of the reference pass over `tokens`. */
  ghost predicate Recomputes<S(!new)>(m: Model<S>, tokens: seq<nat>, p: nat, v: Pass<S>, t: Tail<S>)
    requires p < |tokens|
  {
    && Projects(m, tokens, p, v) && Attends(m, v.query, v.keys, v.values)
    && Attended(m, v.query, v.keys, v.values, p, v.probabilities, v.context)
    && Concludes(m, m.embed(tokens[p]), v.context, v.block, t)
  }
}
