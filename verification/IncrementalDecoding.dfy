/** The runtime's token loop with its key/value state, and the theorem that it computes what
    recomputing every prefix from scratch computes. */
module IncrementalDecoding {
  import opened Common
  import opened Decoding
  import opened ReferenceModel

  datatype StepOutput<S> = StepOutput(token: nat, tail: Tail<S>)

  datatype StepError = InvalidToken | ContextLimit | StateMismatch | NonFinite | EmptySequence

  datatype Step<T> = Ok(value: T) | Err(error: StepError)

  // ---------------------------------------------------------------- the full-prefix reference

  function Normal<S(!new)>(m: Model<S>, token: nat): Option<seq<S>> { m.attnNorm(m.embed(token)) }

  predicate AllNormal<S(!new)>(m: Model<S>, tokens: seq<nat>) {
    forall i | 0 <= i < |tokens| :: Normal(m, tokens[i]).Some?
  }

  ghost function KeysOf<S(!new)>(m: Model<S>, tokens: seq<nat>): (k: seq<seq<S>>)
    requires m.Valid() && AllNormal(m, tokens)
    ensures |k| == |tokens| && Shaped(m, k)
  {
    seq(|tokens|, i requires 0 <= i < |tokens| => m.key(Normal(m, tokens[i]).value))
  }

  ghost function ValuesOf<S(!new)>(m: Model<S>, tokens: seq<nat>): (v: seq<seq<S>>)
    requires m.Valid() && AllNormal(m, tokens)
    ensures |v| == |tokens| && Shaped(m, v)
  {
    seq(|tokens|, i requires 0 <= i < |tokens| => m.value(Normal(m, tokens[i]).value))
  }

  /** What a token's attention leads to; the failure of either part is the failure of the step. */
  function Concluded<S(!new)>(m: Model<S>, token: nat, attended: Option<seq<S>>): Option<StepOutput<S>>
    requires m.Valid()
  {
    match attended
    case None => None
    case Some(v) =>
      match Finish(m, m.embed(token), v)
      case None => None
      case Some(tail) => Some(StepOutput(token, tail))
  }

  /** The output of position `p` of the reference pass. */
  ghost predicate IsFull<S(!new)>(m: Model<S>, tokens: seq<nat>, p: nat, out: StepOutput<S>)
    requires p < |tokens|
  {
    out.token == tokens[p] && exists v :: Recomputes(m, tokens, p, v, out.tail)
  }

  /** Position `p` of a full recomputation over all tokens by the reference; None where a value of it
      fails to exist or to be finite. */
  ghost function FullAt<S(!new)>(m: Model<S>, tokens: seq<nat>, p: nat): Option<StepOutput<S>>
    requires m.Valid() && p < |tokens|
  {
    if exists out :: IsFull(m, tokens, p, out) then
      var out :| IsFull(m, tokens, p, out);
      Some(out)
    else None
  }

  /** The same position by the runtime's formulas, later positions masked. */
  ghost function Computed<S(!new)>(m: Model<S>, tokens: seq<nat>, p: nat): Option<StepOutput<S>>
    requires m.Valid() && p < |tokens|
  {
    if !AllNormal(m, tokens) then None
    else
      var q := m.query(Normal(m, tokens[p]).value);
      Concluded(m, tokens[p], MaskedAttention(m, q, KeysOf(m, tokens), ValuesOf(m, tokens), p))
  }

  lemma ComputedIsFull<S(!new)>(m: Model<S>, tokens: seq<nat>, p: nat)
    requires m.Valid() && p < |tokens| && Computed(m, tokens, p).Some?
    ensures IsFull(m, tokens, p, Computed(m, tokens, p).value)
  {
    hide MaskedAttention, Finish, Attended, Concludes;
    var out := Computed(m, tokens, p).value;
    var normal := seq(|tokens|, i requires 0 <= i < |tokens| => Normal(m, tokens[i]).value);
    var q, keys, values := m.query(normal[p]), KeysOf(m, tokens), ValuesOf(m, tokens);
    var context := MaskedAttention(m, q, keys, values, p).value;
    AttentionMeans(m, q, keys, values, p, context);
    FinishMeans(m, m.embed(tokens[p]), context, out.tail);
    var probabilities :| Attended(m, q, keys, values, p, probabilities, context);
    var block :| Concludes(m, m.embed(tokens[p]), context, block, out.tail);
    assert Recomputes(m, tokens, p, Pass(normal, q, keys, values, probabilities, context, block), out.tail);
  }

  /** The projections of a pass are those of its tokens. */
  lemma ProjectsRows<S(!new)>(m: Model<S>, tokens: seq<nat>, p: nat, v: Pass<S>)
    requires m.Valid() && p < |tokens| && Projects(m, tokens, p, v)
    ensures AllNormal(m, tokens) && v.query == m.query(Normal(m, tokens[p]).value)
    ensures v.keys == KeysOf(m, tokens) && v.values == ValuesOf(m, tokens)
  {
    hide Model.Valid;
  }

  lemma FullIsComputed<S(!new)>(m: Model<S>, tokens: seq<nat>, p: nat, out: StepOutput<S>)
    requires m.Valid() && p < |tokens| && IsFull(m, tokens, p, out)
    ensures Computed(m, tokens, p) == Some(out)
  {
    hide MaskedAttention, Finish, Attended, Concludes, Projects, KeysOf, ValuesOf, Attends;
    var v :| Recomputes(m, tokens, p, v, out.tail);
    ProjectsRows(m, tokens, p, v);
    AttentionMeans(m, v.query, v.keys, v.values, p, v.context);
    FinishMeans(m, m.embed(tokens[p]), v.context, out.tail);
  }

  /** The runtime's formulas compute the reference. */
  lemma FullAtIs<S(!new)>(m: Model<S>, tokens: seq<nat>, p: nat)
    requires m.Valid() && p < |tokens|
    ensures FullAt(m, tokens, p) == Computed(m, tokens, p)
  {
    hide IsFull, Computed;
    if Computed(m, tokens, p).Some? { ComputedIsFull(m, tokens, p); }
    if FullAt(m, tokens, p).Some? { FullIsComputed(m, tokens, p, FullAt(m, tokens, p).value); }
  }

  /** Every later token of a recomputation can be normalised and has finite values. */
  ghost predicate LaterHarmless<S(!new)>(m: Model<S>, tokens: seq<nat>, p: nat)
    requires m.Valid()
  {
    AllNormal(m, tokens) && AllFiniteAfter(m, ValuesOf(m, tokens), p)
  }

  lemma PrefixRows<S(!new)>(m: Model<S>, tokens: seq<nat>, n: nat)
    requires m.Valid() && AllNormal(m, tokens) && n <= |tokens|
    ensures AllNormal(m, tokens[..n])
    ensures KeysOf(m, tokens[..n]) == KeysOf(m, tokens)[..n] && ValuesOf(m, tokens[..n]) == ValuesOf(m, tokens)[..n]
  {}

  /** A position of a recomputation is what its own prefix gives, and later tokens can only spoil
      it, by failing themselves or through a non-finite value. */
  lemma Causality<S(!new)>(m: Model<S>, tokens: seq<nat>, p: nat)
    requires m.Valid() && m.a.Masks() && p < |tokens|
    ensures FullAt(m, tokens, p) == if LaterHarmless(m, tokens, p) then FullAt(m, tokens[..p + 1], p) else None
  {
    hide FullAt, MaskedAttention, Attention, Finish, KeysOf, ValuesOf;
    FullAtIs(m, tokens, p);
    if AllNormal(m, tokens) {
      var q := m.query(Normal(m, tokens[p]).value);
      var keys, values := KeysOf(m, tokens), ValuesOf(m, tokens);
      PrefixRows(m, tokens, p + 1);
      FullAtRows(m, tokens, p, q, keys, values);
      FullAtRows(m, tokens[..p + 1], p, q, keys[..p + 1], values[..p + 1]);
      MaskedAttentionIsPrefix(m, q, keys, values, p);
      LastUnmasked(m, q, keys[..p + 1], values[..p + 1]);
    }
  }

  lemma FullAtRows<S(!new)>(m: Model<S>, tokens: seq<nat>, p: nat, q: seq<S>, keys: seq<seq<S>>, values: seq<seq<S>>)
    requires m.Valid() && p < |tokens| && AllNormal(m, tokens) && q == m.query(Normal(m, tokens[p]).value)
    requires keys == KeysOf(m, tokens) && values == ValuesOf(m, tokens)
    ensures FullAt(m, tokens, p) == Concluded(m, tokens[p], MaskedAttention(m, q, keys, values, p))
  {
    hide Concluded, MaskedAttention, FullAt;
    FullAtIs(m, tokens, p);
  }

  /** At the last position no mask is left: plain attention over the whole prefix. */
  lemma LastPosition<S(!new)>(m: Model<S>, tokens: seq<nat>)
    requires m.Valid() && tokens != [] && AllNormal(m, tokens)
    ensures
      var p := |tokens| - 1;
      var q := m.query(Normal(m, tokens[p]).value);
      MaskedAttention(m, q, KeysOf(m, tokens), ValuesOf(m, tokens), p)
      == Attention(m, q, KeysOf(m, tokens), ValuesOf(m, tokens))
  {
    LastUnmasked(m, m.query(Normal(m, tokens[|tokens| - 1]).value), KeysOf(m, tokens), ValuesOf(m, tokens));
  }

  // ---------------------------------------------------------------- attention with loops

  method HeadWeights<S(!new)>(m: Model<S>, q: seq<S>, keys: seq<seq<S>>, head: nat) returns (p: Option<seq<S>>)
    requires |q| == m.Hidden() && Shaped(m, keys) && head < m.heads
    ensures p == Softmax(m.a, HeadScores(m, q, keys, head))
  {
    var scores: seq<S> := [];
    HeadFits(m, head);
    for j := 0 to |keys|
      invariant |scores| == j && forall k | 0 <= k < j :: scores[k] == HeadScore(m, q, keys[k], head)
    {
      var score := m.a.zero;
      assert keys[j] in keys;
      for index := head * m.headSize to head * m.headSize + m.headSize
        invariant score == Dot(m.a, q, keys[j], head * m.headSize, index)
      {
        score := m.a.add(score, m.a.mul(q[index], keys[j][index]));
      }
      scores := scores + [m.a.mul(score, m.scale)];
    }
    assert scores == HeadScores(m, q, keys, head);
    p := Softmax(m.a, scores);
  }

  lemma InHead<S(!new)>(m: Model<S>, head: nat, i: nat)
    requires head < m.heads && m.headSize > 0 && head * m.headSize <= i < head * m.headSize + m.headSize
    ensures i / m.headSize == head
  {
    Quotient(head, m.headSize, i);
  }

  lemma Quotient(h: nat, d: nat, i: nat)
    requires d > 0 && h * d <= i < h * d + d
    ensures i / d == h
  {
    var q := i / d;
    assert q * d <= i < q * d + d;
    if q < h { Multiples(q + 1, h, d); }
    if h < q { Multiples(h + 1, q, d); }
  }

  /** Adds the weighted values into the components of one head. */
  method AccumulateHead<S(!new)>(a: Arithmetic<S>, p: seq<S>, values: seq<seq<S>>, start: nat, end: nat,
                                 output: array<S>)
    requires start <= end <= output.Length && |p| == |values| && forall v | v in values :: |v| == output.Length
    requires forall i | start <= i < end :: output[i] == a.zero
    modifies output
    ensures forall i: nat | i < output.Length ::
      output[i] == if start <= i < end then Mixed(a, p, values, i, |values|) else old(output[i])
  {
    for j := 0 to |values|
      invariant forall i: nat | i < output.Length ::
        output[i] == if start <= i < end then Mixed(a, p, values, i, j) else old(output[i])
    {
      assert values[j] in values;
      for index := start to end
        invariant forall i: nat | i < output.Length ::
          output[i] == if start <= i < index then Mixed(a, p, values, i, j + 1)
                       else if index <= i < end then Mixed(a, p, values, i, j) else old(output[i])
      {
        output[index] := a.add(output[index], a.mul(p[j], values[j][index]));
      }
    }
  }

  /** The first `done` components are final and the rest still zero. */
  ghost predicate HeadsDone<S(!new)>(a: Arithmetic<S>, target: seq<S>, out: seq<S>, done: nat) {
    |out| == |target| && forall i: nat | i < |out| :: out[i] == if i < done then target[i] else a.zero
  }

  function HeadStart<S(!new)>(m: Model<S>, head: nat): nat { head * m.headSize }

  lemma NextHead<S(!new)>(m: Model<S>, head: nat)
    ensures HeadStart(m, head + 1) == HeadStart(m, head) + m.headSize
  {}

  /** None of the first `n` heads fails. */
  ghost predicate HeadsOk<S(!new)>(m: Model<S>, q: seq<S>, keys: seq<seq<S>>, n: nat)
    requires |q| == m.Hidden() && Shaped(m, keys) && n <= m.heads
  {
    n > 0 ==> HeadsOk(m, q, keys, n - 1) && !HeadFails(m, q, keys, n - 1)
  }

  lemma {:induction false} HeadsOkBelow<S(!new)>(m: Model<S>, q: seq<S>, keys: seq<seq<S>>, n: nat, head: nat)
    requires |q| == m.Hidden() && Shaped(m, keys) && head < n <= m.heads && HeadsOk(m, q, keys, n)
    ensures !HeadFails(m, q, keys, head)
  {
    hide HeadFails;
    if head < n - 1 { HeadsOkBelow(m, q, keys, n - 1, head); }
  }

  lemma AllHeadsOk<S(!new)>(m: Model<S>, q: seq<S>, keys: seq<seq<S>>)
    requires |q| == m.Hidden() && Shaped(m, keys) && HeadsOk(m, q, keys, m.heads)
    ensures !AnyHeadFails(m, q, keys)
  {
    if AnyHeadFails(m, q, keys) {
      var head: nat :| head < m.heads && HeadFails(m, q, keys, head);
      HeadsOkBelow(m, q, keys, m.heads, head);
    }
  }

  lemma AttentionInHead<S(!new)>(m: Model<S>, q: seq<S>, keys: seq<seq<S>>, values: seq<seq<S>>, head: nat, p: seq<S>,
                                 i: nat)
    requires Attends(m, q, keys, values) && head < m.heads
    requires Softmax(m.a, HeadScores(m, q, keys, head)) == Some(p)
    requires i < m.Hidden() && HeadStart(m, head) <= i < HeadStart(m, head) + m.headSize
    ensures AttentionVec(m, q, keys, values)[i] == Mixed(m.a, p, values, i, |values|)
  {
    InHead(m, head, i);
  }

  method ProcessHead<S(!new)>(m: Model<S>, q: seq<S>, keys: seq<seq<S>>, values: seq<seq<S>>, head: nat,
                              output: array<S>) returns (ok: bool)
    requires Attends(m, q, keys, values) && head < m.heads
    requires HeadsDone(m.a, AttentionVec(m, q, keys, values), output[..], HeadStart(m, head))
    modifies output
    ensures ok <==> !HeadFails(m, q, keys, head)
    ensures ok ==> HeadsDone(m.a, AttentionVec(m, q, keys, values), output[..], HeadStart(m, head + 1))
  {
    ghost var target := AttentionVec(m, q, keys, values);
    var p := HeadWeights(m, q, keys, head);
    if p.None? { return false; }
    HeadFits(m, head);
    var start := HeadStart(m, head);
    NextHead(m, head);
    AccumulateHead(m.a, p.value, values, start, start + m.headSize, output);
    forall i: nat | start <= i < start + m.headSize ensures output[i] == target[i] {
      AttentionInHead(m, q, keys, values, head, p.value, i);
    }
    ok := true;
  }

  method CausalAttention<S(!new)>(m: Model<S>, q: seq<S>, keys: seq<seq<S>>, values: seq<seq<S>>)
    returns (r: Option<seq<S>>)
    requires Attends(m, q, keys, values)
    ensures r == Attention(m, q, keys, values)
  {
    ghost var target := AttentionVec(m, q, keys, values);
    var output := new S[m.Hidden()](_ => m.a.zero);
    for head := 0 to m.heads
      invariant HeadsOk(m, q, keys, head)
      invariant HeadsDone(m.a, target, output[..], HeadStart(m, head))
    {
      var ok := ProcessHead(m, q, keys, values, head, output);
      if !ok { return None; }
    }
    AllHeadsOk(m, q, keys);
    assert output[..] == target;
    r := if m.a.AllFinite(output[..]) then Some(output[..]) else None;
  }

  // ---------------------------------------------------------------- routing, experts and logits

  method AddInPlace<S(!new)>(a: Arithmetic<S>, x: array<S>, y: seq<S>)
    requires x.Length == |y|
    modifies x
    ensures x[..] == AddVec(a, old(x[..]), y)
  {
    for i := 0 to x.Length
      invariant forall k | 0 <= k < x.Length :: x[k] == if k < i then a.add(old(x[k]), y[k]) else old(x[k])
    {
      x[i] := a.add(x[i], y[i]);
    }
  }

  /** Adds one expert's output into the mixture, by its weight. */
  method AddWeighted<S(!new)>(a: Arithmetic<S>, mixture: array<S>, weight: S, output: seq<S>)
    requires mixture.Length == |output|
    modifies mixture
    ensures forall k | 0 <= k < mixture.Length :: mixture[k] == a.add(old(mixture[k]), a.mul(weight, output[k]))
  {
    for i := 0 to mixture.Length
      invariant forall k | 0 <= k < mixture.Length ::
        mixture[k] == if k < i then a.add(old(mixture[k]), a.mul(weight, output[k])) else old(mixture[k])
    {
      mixture[i] := a.add(mixture[i], a.mul(weight, output[i]));
    }
  }

  /** The mixture of the first `n` experts. */
  ghost predicate MixedSoFar<S(!new)>(m: Model<S>, weights: seq<S>, outputs: seq<seq<S>>, mixture: seq<S>, n: nat) {
    && n == |outputs| <= |weights| && |mixture| == m.Hidden() && Shaped(m, outputs)
    && forall i: nat | i < m.Hidden() :: mixture[i] == Decoding.Mixed(m.a, weights, outputs, i, n)
  }

  lemma MixOneMore<S(!new)>(m: Model<S>, weights: seq<S>, outputs: seq<seq<S>>, before: seq<S>, output: seq<S>,
                            after: seq<S>)
    requires |outputs| < |weights| && MixedSoFar(m, weights, outputs, before, |outputs|)
    requires |output| == |after| == m.Hidden()
    requires forall k | 0 <= k < |after| :: after[k] == m.a.add(before[k], m.a.mul(weights[|outputs|], output[k]))
    ensures MixedSoFar(m, weights, outputs + [output], after, |outputs| + 1)
  {
    hide Decoding.Mixed;
    var longer := outputs + [output];
    forall i: nat | i < m.Hidden() ensures after[i] == Decoding.Mixed(m.a, weights, longer, i, |longer|) {
      MixedStep(m.a, weights, outputs, output, i);
    }
  }

  lemma MixedStep<S(!new)>(a: Arithmetic<S>, weights: seq<S>, outputs: seq<seq<S>>, output: seq<S>, i: nat)
    requires |outputs| < |weights| && i < |output| && forall v | v in outputs :: i < |v|
    ensures
      Decoding.Mixed(a, weights, outputs + [output], i, |outputs| + 1)
      == a.add(Decoding.Mixed(a, weights, outputs, i, |outputs|), a.mul(weights[|outputs|], output[i]))
  {
    var longer := outputs + [output];
    assert longer[..|outputs|] == outputs[..|outputs|];
    MixedPrefix(a, weights, weights, longer, outputs, i, |outputs|);
  }

  /** Runs the chosen experts one by one and mixes what they return. */
  method Accumulate<S(!new)>(m: Model<S>, ids: seq<nat>, weights: seq<S>, x: seq<S>) returns (r: Option<seq<S>>)
    requires m.Valid() && |ids| == |weights|
    ensures r.Some? <==> Outputs(m, ids, x).Some?
    ensures r.Some? ==> r.value == Mixture(m, weights, Outputs(m, ids, x).value)
  {
    hide Decoding.Mixed;
    var mixture := new S[m.Hidden()](_ => m.a.zero);
    ghost var outputs: seq<seq<S>> := [];
    NothingMixed(m, weights, mixture[..]);
    for n := 0 to |ids|
      invariant Outputs(m, ids[..n], x) == Some(outputs) && MixedSoFar(m, weights, outputs, mixture[..], n)
    {
      assert ids[..n + 1][..n] == ids[..n];
      var output := m.expert(ids[n], x);
      if output.None? {
        OutputsFail(m, ids, n + 1, x);
        return None;
      }
      ghost var before := mixture[..];
      AddWeighted(m.a, mixture, weights[n], output.value);
      MixOneMore(m, weights, outputs, before, output.value, mixture[..]);
      outputs := outputs + [output.value];
    }
    assert ids[..|ids|] == ids;
    assert mixture[..] == Mixture(m, weights, outputs);
    r := Some(mixture[..]);
  }

  lemma NothingMixed<S(!new)>(m: Model<S>, weights: seq<S>, mixture: seq<S>)
    requires |mixture| == m.Hidden() && forall i | 0 <= i < |mixture| :: mixture[i] == m.a.zero
    ensures MixedSoFar(m, weights, [], mixture, 0)
  {}

  lemma {:induction false} OutputsFail<S(!new)>(m: Model<S>, ids: seq<nat>, n: nat, x: seq<S>)
    requires m.Valid() && n <= |ids| && Outputs(m, ids[..n], x).None?
    ensures Outputs(m, ids, x).None?
    decreases |ids|
  {
    if n == |ids| {
      assert ids[..n] == ids;
    } else {
      assert ids[..|ids| - 1][..n] == ids[..n];
      OutputsFail(m, ids[..|ids| - 1], n, x);
    }
  }

  /** Everything after attention, on a residual that is updated in place. */
  method Complete<S(!new)>(m: Model<S>, embedding: seq<S>, attended: seq<S>) returns (r: Option<Tail<S>>)
    requires m.Valid() && |embedding| == m.Hidden()
    ensures r == Finish(m, embedding, attended)
  {
    hide Softmax, StableTopK, Outputs, Mixture, AddVec, Gathered;
    var residual := new S[|embedding|](i requires 0 <= i < |embedding| => embedding[i]);
    assert residual[..] == embedding;
    AddInPlace(m.a, residual, m.attnOut(attended));
    if !m.a.AllFinite(residual[..]) { return None; }
    var normalized := m.ffnNorm(residual[..]);
    if normalized.None? { return None; }
    var scores := m.router(normalized.value);
    if !m.a.AllFinite(scores) { return None; }
    var ids := StableTopK(m.a, scores, m.topK);
    var weights := Softmax(m.a, Gathered(scores, ids));
    if weights.None? { return None; }
    var mixture := Accumulate(m, ids, weights.value, normalized.value);
    if mixture.None? || !m.a.AllFinite(mixture.value) { return None; }
    AddInPlace(m.a, residual, mixture.value);
    if !m.a.AllFinite(residual[..]) { return None; }
    var last := m.finalNorm(residual[..]);
    if last.None? { return None; }
    var logits := m.lmHead(last.value);
    r := if m.a.AllFinite(logits) then Some(Tail(logits, scores, ids, weights.value)) else None;
  }

  // ---------------------------------------------------------------- one token

  datatype Cache<S> = Cache(instance: Option<nat>, keys: seq<seq<S>>, values: seq<seq<S>>)

  /** The state holds exactly the keys and values of `tokens`, under this model. */
  ghost predicate Holds<S(!new)>(m: Model<S>, c: Cache<S>, tokens: seq<nat>) {
    && m.Valid() && AllNormal(m, tokens) && |tokens| <= m.contextLength
    && c.keys == KeysOf(m, tokens) && c.values == ValuesOf(m, tokens)
    && (c.instance == None || c.instance == Some(m.id))
  }

  class SequenceState<S(!new)> {
    var cache: Cache<S>

    constructor ()
      ensures cache == Cache(None, [], [])
    {
      cache := Cache(None, [], []);
    }

    /** Runs one token. `tokens` are those a state of this model already holds; a state of another
        model is refused. On success the state holds one more token and the output is the last
        position of a full recomputation; on any failure the state is what it was. */
    method ForwardToken(m: Model<S>, token: nat, ghost tokens: seq<nat>) returns (r: Step<StepOutput<S>>)
      requires m.Valid() && (Mine(m, cache) ==> Holds(m, cache, tokens))
      modifies this
      ensures r.Err? ==> cache == old(cache) && r.error == Refusal(m, token, old(cache))
      ensures r.Ok? ==> Mine(m, old(cache)) && Holds(m, cache, tokens + [token]) && Mine(m, cache)
      ensures r.Ok? <==> Mine(m, old(cache)) && token < m.vocab && |tokens| < m.contextLength
                         && FullAt(m, tokens + [token], |tokens|).Some?
      ensures r.Ok? ==> FullAt(m, tokens + [token], |tokens|) == Some(r.value)
    {
      if token >= m.vocab { return Err(InvalidToken); }
      if |cache.keys| >= m.contextLength { return Err(ContextLimit); }
      if cache.instance.Some? && cache.instance.value != m.id { return Err(StateMismatch); }
      var next := Evaluate(m, cache, token, tokens);
      if next.None? { return Err(NonFinite); }
      cache := next.value.0;
      r := Ok(next.value.1);
    }
  }

  /** The state is new or was made by this model. */
  predicate Mine<S(!new)>(m: Model<S>, c: Cache<S>) { c.instance == None || c.instance == Some(m.id) }

  /** Why a token is refused, in the order the checks are made. */
  function Refusal<S(!new)>(m: Model<S>, token: nat, c: Cache<S>): StepError {
    if token >= m.vocab then InvalidToken
    else if |c.keys| >= m.contextLength then ContextLimit
    else if !Mine(m, c) then StateMismatch
    else NonFinite
  }

  lemma FullAtFromCache<S(!new)>(m: Model<S>, tokens: seq<nat>, token: nat)
    requires m.Valid() && AllNormal(m, tokens + [token]) && Normal(m, token).Some?
    ensures
      var longer := tokens + [token];
      FullAt(m, longer, |tokens|)
      == Concluded(m, token, Attention(m, m.query(Normal(m, token).value), KeysOf(m, longer), ValuesOf(m, longer)))
  {
    hide Concluded, Attention, MaskedAttention, FullAt;
    LastPosition(m, tokens + [token]);
    assert (tokens + [token])[|tokens|] == token;
    FullAtIs(m, tokens + [token], |tokens|);
  }

  /** Everything `forward_token` does between its checks and the commit of the pending state. */
  method Evaluate<S(!new)>(m: Model<S>, c: Cache<S>, token: nat, ghost tokens: seq<nat>)
    returns (r: Option<(Cache<S>, StepOutput<S>)>)
    requires Holds(m, c, tokens) && |tokens| < m.contextLength
    ensures r.Some? <==> FullAt(m, tokens + [token], |tokens|).Some?
    ensures r.Some? ==> FullAt(m, tokens + [token], |tokens|) == Some(r.value.1)
    ensures r.Some? ==> Holds(m, r.value.0, tokens + [token]) && Mine(m, r.value.0)
  {
    var normalized := m.attnNorm(m.embed(token));
    assert (tokens + [token])[|tokens|] == token;
    if normalized.None? {
      assert !AllNormal(m, tokens + [token]);
      return None;
    }
    var pending := Cache(Some(m.id), c.keys + [m.key(normalized.value)], c.values + [m.value(normalized.value)]);
    ExtendHolds(m, c, tokens, token, pending);
    FullAtFromCache(m, tokens, token);
    var attended := CausalAttention(m, m.query(normalized.value), pending.keys, pending.values);
    if attended.None? { return None; }
    var tail := Complete(m, m.embed(token), attended.value);
    if tail.None? { return None; }
    r := Some((pending, StepOutput(token, tail.value)));
  }

  lemma ExtendHolds<S(!new)>(m: Model<S>, c: Cache<S>, tokens: seq<nat>, token: nat, pending: Cache<S>)
    requires Holds(m, c, tokens) && |tokens| < m.contextLength && Normal(m, token).Some?
    requires pending == Cache(Some(m.id), c.keys + [m.key(Normal(m, token).value)],
                              c.values + [m.value(Normal(m, token).value)])
    ensures Holds(m, pending, tokens + [token])
  {
    var longer := tokens + [token];
    assert pending.keys == KeysOf(m, longer);
    assert pending.values == ValuesOf(m, longer);
  }

  // ---------------------------------------------------------------- greedy generation

  /** The first position of a largest logit. */
  ghost predicate IsGreedy<S(!new)>(a: Arithmetic<S>, logits: seq<S>, token: nat) {
    && token < |logits|
    && (forall i | 0 <= i < |logits| :: !a.less(logits[token], logits[i]))
    && forall i | 0 <= i < token :: a.less(logits[i], logits[token])
  }

  function Greedy<S(!new)>(a: Arithmetic<S>, logits: seq<S>): (token: nat)
    requires logits != [] && a.Ordered() && a.AllFinite(logits)
    ensures IsGreedy(a, logits, token)
  {
    GreedyUpTo(a, logits, |logits|)
  }

  function GreedyUpTo<S(!new)>(a: Arithmetic<S>, logits: seq<S>, n: nat): (token: nat)
    requires 0 < n <= |logits| && a.Ordered() && a.AllFinite(logits)
    ensures token < n
    ensures forall i | 0 <= i < n :: !a.less(logits[token], logits[i])
    ensures forall i | 0 <= i < token :: a.less(logits[i], logits[token])
  {
    if n == 1 then 0
    else
      var best := GreedyUpTo(a, logits, n - 1);
      if a.less(logits[best], logits[n - 1]) then
        GreedyMoves(a, logits, n - 1, best);
        n - 1
      else best
  }

  lemma GreedyMoves<S(!new)>(a: Arithmetic<S>, logits: seq<S>, n: nat, best: nat)
    requires best < n < |logits| && a.Ordered() && a.AllFinite(logits) && a.less(logits[best], logits[n])
    requires forall i | 0 <= i < n :: !a.less(logits[best], logits[i])
    ensures forall i | 0 <= i < n :: a.less(logits[i], logits[n]) && !a.less(logits[n], logits[i])
  {
    forall i | 0 <= i < n ensures a.less(logits[i], logits[n]) && !a.less(logits[n], logits[i]) {
      assert a.finite(logits[i]) && a.finite(logits[n]) && a.finite(logits[best]);
      assert a.less(logits[best], logits[i]) || a.less(logits[i], logits[n]);
    }
  }

  method GreedyToken<S(!new)>(a: Arithmetic<S>, logits: seq<S>) returns (token: nat)
    requires logits != [] && a.Ordered() && a.AllFinite(logits)
    ensures token == Greedy(a, logits) && IsGreedy(a, logits, token)
  {
    token := 0;
    for candidate := 1 to |logits|
      invariant token < candidate && token == GreedyUpTo(a, logits, candidate)
    {
      if a.less(logits[token], logits[candidate]) { token := candidate; }
    }
  }

  lemma LogitsShape<S(!new)>(m: Model<S>, tokens: seq<nat>, p: nat)
    requires m.Valid() && p < |tokens| && FullAt(m, tokens, p).Some?
    ensures
      var logits := FullAt(m, tokens, p).value.tail.logits;
      |logits| == m.vocab && m.a.AllFinite(logits)
  {
    hide MaskedAttention, KeysOf, ValuesOf, Finish, FullAt;
    FullAtIs(m, tokens, p);
  }

  /** The next token of the reference: greedy on the last position of a full recomputation. */
  ghost function NextToken<S(!new)>(m: Model<S>, tokens: seq<nat>): (t: nat)
    requires m.Valid() && tokens != [] && FullAt(m, tokens, |tokens| - 1).Some?
    ensures t < m.vocab
  {
    LogitsShape(m, tokens, |tokens| - 1);
    Greedy(m.a, FullAt(m, tokens, |tokens| - 1).value.tail.logits)
  }

  /** The full-prefix greedy loop of the reference: None where a recomputation is not finite. */
  ghost function ReferenceLoop<S(!new)>(m: Model<S>, tokens: seq<nat>, budget: nat): Option<seq<nat>>
    requires m.Valid() && tokens != []
    decreases budget
  {
    if budget == 0 then Some([])
    else if FullAt(m, tokens, |tokens| - 1).None? then None
    else
      var next := NextToken(m, tokens);
      if next == EOS then Some([next])
      else
        match ReferenceLoop(m, tokens + [next], budget - 1)
        case None => None
        case Some(rest) => Some([next] + rest)
  }

  /** Every position of the first `n` prompt tokens can be computed. */
  ghost predicate PromptOk<S(!new)>(m: Model<S>, prompt: seq<nat>, n: nat)
    requires m.Valid() && n <= |prompt|
  {
    n > 0 ==> PromptOk(m, prompt, n - 1) && prompt[n - 1] < m.vocab && FullAt(m, prompt[..n], n - 1).Some?
  }

  /** The outputs are the last positions of full recomputations of every prefix. */
  ghost predicate OutputsAre<S(!new)>(m: Model<S>, tokens: seq<nat>, outputs: seq<StepOutput<S>>)
    requires m.Valid()
  {
    && |outputs| <= |tokens|
    && forall p: nat | p < |outputs| :: FullAt(m, tokens[..p + 1], p) == Some(outputs[p])
  }

  lemma HoldsLength<S(!new)>(m: Model<S>, c: Cache<S>, tokens: seq<nat>)
    requires Holds(m, c, tokens)
    ensures |c.keys| == |tokens|
  {}

  lemma NothingYet<S(!new)>(m: Model<S>, tokens: seq<nat>, c: Cache<S>)
    requires m.Valid() && c == Cache(None, [], [])
    ensures Holds(m, c, []) && Mine(m, c) && OutputsAre(m, tokens, [])
  {}

  lemma OutputsExtend<S(!new)>(m: Model<S>, tokens: seq<nat>, outputs: seq<StepOutput<S>>, prefix: seq<nat>,
                               o: StepOutput<S>)
    requires m.Valid() && |outputs| < |tokens| && OutputsAre(m, tokens, outputs)
    requires prefix == tokens[..|outputs| + 1] && FullAt(m, prefix, |outputs|) == Some(o)
    ensures OutputsAre(m, tokens, outputs + [o])
  {
    hide FullAt;
    var longer := outputs + [o];
    forall p: nat | p < |longer| ensures FullAt(m, tokens[..p + 1], p) == Some(longer[p]) {
      if p < |outputs| { assert longer[p] == outputs[p]; }
    }
  }

  function Required(prompt: seq<nat>, budget: nat): nat { |prompt| + if budget == 0 then 0 else budget - 1 }

  datatype Generation<S> = Generation(generated: seq<nat>, steps: seq<StepOutput<S>>)

  method RunPrompt<S(!new)>(m: Model<S>, prompt: seq<nat>, state: SequenceState<S>)
    returns (r: Step<seq<StepOutput<S>>>)
    requires m.Valid() && prompt != [] && |prompt| <= m.contextLength && state.cache == Cache(None, [], [])
    modifies state
    ensures r.Ok? <==> PromptOk(m, prompt, |prompt|)
    ensures r.Ok? ==> Holds(m, state.cache, prompt) && Mine(m, state.cache)
    ensures r.Ok? ==> |r.value| == |prompt| && OutputsAre(m, prompt, r.value)
    ensures r.Err? ==> r.error == InvalidToken || r.error == NonFinite
  {
    hide FullAt, Holds, Mine, OutputsAre;
    var outputs: seq<StepOutput<S>> := [];
    assert prompt[..0] == [];
    NothingYet(m, prompt, state.cache);
    for i := 0 to |prompt|
      invariant Holds(m, state.cache, prompt[..i]) && Mine(m, state.cache)
      invariant |outputs| == i && OutputsAre(m, prompt, outputs) && PromptOk(m, prompt, i)
    {
      PrefixStep(prompt, i);
      HoldsLength(m, state.cache, prompt[..i]);
      var step := state.ForwardToken(m, prompt[i], prompt[..i]);
      if step.Err? {
        PromptFails(m, prompt, i + 1, |prompt|);
        return Err(step.error);
      }
      OutputsExtend(m, prompt, outputs, prompt[..i] + [prompt[i]], step.value);
      outputs := outputs + [step.value];
    }
    assert prompt[..|prompt|] == prompt;
    r := Ok(outputs);
  }

  lemma PrefixStep(s: seq<nat>, i: nat)
    requires i < |s|
    ensures s[..i + 1] == s[..i] + [s[i]]
  {}

  lemma {:induction false} PromptFails<S(!new)>(m: Model<S>, prompt: seq<nat>, i: nat, n: nat)
    requires m.Valid() && i <= n <= |prompt| && !PromptOk(m, prompt, i)
    ensures !PromptOk(m, prompt, n)
  {
    hide FullAt;
    if i < n { PromptFails(m, prompt, i, n - 1); }
  }

  ghost function Prepend(prefix: seq<nat>, r: Option<seq<nat>>): Option<seq<nat>> {
    match r case None => None case Some(s) => Some(prefix + s)
  }

  /** One turn of the reference loop, seen from the tokens so far. */
  lemma ReferenceTurn<S(!new)>(m: Model<S>, tokens: seq<nat>, budget: nat, prefix: seq<nat>, next: nat)
    requires m.Valid() && tokens != [] && budget > 0 && FullAt(m, tokens, |tokens| - 1).Some?
    requires next == NextToken(m, tokens)
    ensures next == EOS || budget == 1 ==> Prepend(prefix, ReferenceLoop(m, tokens, budget)) == Some(prefix + [next])
    ensures next != EOS ==> Prepend(prefix, ReferenceLoop(m, tokens, budget)) ==
                            Prepend(prefix + [next], ReferenceLoop(m, tokens + [next], budget - 1))
  {
    hide FullAt, NextToken;
    if next != EOS {
      match ReferenceLoop(m, tokens + [next], budget - 1)
      case None =>
      case Some(rest) => assert prefix + ([next] + rest) == prefix + [next] + rest;
    }
    if budget == 1 { assert [next] + [] == [next]; }
  }

  /** Outputs for a prefix of the tokens stay right when tokens are appended. */
  lemma OutputsGrow<S(!new)>(m: Model<S>, tokens: seq<nat>, outputs: seq<StepOutput<S>>, next: nat)
    requires m.Valid() && OutputsAre(m, tokens, outputs)
    ensures OutputsAre(m, tokens + [next], outputs)
  {
    forall p: nat | p < |outputs| ensures FullAt(m, (tokens + [next])[..p + 1], p) == Some(outputs[p]) {
      assert (tokens + [next])[..p + 1] == tokens[..p + 1];
    }
  }

  lemma LastOutput<S(!new)>(m: Model<S>, tokens: seq<nat>, outputs: seq<StepOutput<S>>)
    requires m.Valid() && tokens != [] && |outputs| == |tokens| && OutputsAre(m, tokens, outputs)
    ensures FullAt(m, tokens, |tokens| - 1) == Some(outputs[|outputs| - 1])
    ensures |outputs[|outputs| - 1].tail.logits| == m.vocab && m.a.AllFinite(outputs[|outputs| - 1].tail.logits)
  {
    hide FullAt;
    var p := |tokens| - 1;
    assert tokens[..p + 1] == tokens;
    assert FullAt(m, tokens[..p + 1], p) == Some(outputs[p]);
    LogitsShape(m, tokens, |tokens| - 1);
  }

  /** What the reference has left to produce once `generated` is out. */
  ghost predicate Remaining<S(!new)>(m: Model<S>, prompt: seq<nat>, budget: nat, generated: seq<nat>, tokens: seq<nat>)
    requires m.Valid() && prompt != [] && tokens != []
  {
    && |generated| <= budget && tokens == prompt + generated
    && ReferenceLoop(m, prompt, budget) == Prepend(generated, ReferenceLoop(m, tokens, budget - |generated|))
  }

  lemma RemainingStarts<S(!new)>(m: Model<S>, prompt: seq<nat>, budget: nat)
    requires m.Valid() && prompt != []
    ensures Remaining(m, prompt, budget, [], prompt)
  {
    hide ReferenceLoop;
    assert prompt + [] == prompt;
    match ReferenceLoop(m, prompt, budget)
    case None =>
    case Some(g) => assert [] + g == g;
  }

  lemma RemainingTurn<S(!new)>(m: Model<S>, prompt: seq<nat>, budget: nat, generated: seq<nat>, tokens: seq<nat>,
                               next: nat)
    requires m.Valid() && prompt != [] && tokens != [] && Remaining(m, prompt, budget, generated, tokens)
    requires |generated| < budget && FullAt(m, tokens, |tokens| - 1).Some? && next == NextToken(m, tokens)
    ensures next == EOS || |generated| + 1 == budget ==> ReferenceLoop(m, prompt, budget) == Some(generated + [next])
    ensures next != EOS ==> Remaining(m, prompt, budget, generated + [next], tokens + [next])
  {
    hide ReferenceLoop, NextToken, FullAt;
    ReferenceTurn(m, tokens, budget - |generated|, generated, next);
    assert prompt + (generated + [next]) == tokens + [next];
  }

  lemma RemainingFails<S(!new)>(m: Model<S>, prompt: seq<nat>, budget: nat, generated: seq<nat>, tokens: seq<nat>)
    requires m.Valid() && prompt != [] && tokens != [] && Remaining(m, prompt, budget, generated, tokens)
    requires |generated| < budget && FullAt(m, tokens, |tokens| - 1).None?
    ensures ReferenceLoop(m, prompt, budget).None?
  {}

  lemma RemainingDone<S(!new)>(m: Model<S>, prompt: seq<nat>, budget: nat, generated: seq<nat>, tokens: seq<nat>)
    requires m.Valid() && prompt != [] && tokens != [] && Remaining(m, prompt, budget, generated, tokens)
    requires |generated| == budget
    ensures ReferenceLoop(m, prompt, budget) == Some(generated)
  {
    assert generated + [] == generated;
  }

  /** Where the state stands after the tokens: their keys and values, and all their outputs. */
  ghost predicate Ready<S(!new)>(m: Model<S>, c: Cache<S>, tokens: seq<nat>, steps: seq<StepOutput<S>>)
    requires m.Valid()
  {
    && Holds(m, c, tokens) && Mine(m, c) && |steps| == |tokens| && OutputsAre(m, tokens, steps)
  }

  /** Feeds one more token; within the context only a non-finite value can stop it. */
  method Advance<S(!new)>(m: Model<S>, state: SequenceState<S>, steps: seq<StepOutput<S>>, ghost tokens: seq<nat>,
                          next: nat)
    returns (r: Step<seq<StepOutput<S>>>)
    requires m.Valid() && Ready(m, state.cache, tokens, steps) && |tokens| < m.contextLength && next < m.vocab
    modifies state
    ensures r.Ok? ==> Ready(m, state.cache, tokens + [next], r.value)
    ensures r.Err? ==> r.error == NonFinite && FullAt(m, tokens + [next], |tokens|).None?
  {
    hide FullAt, Holds, OutputsAre;
    OutputsGrow(m, tokens, steps, next);
    HoldsLength(m, state.cache, tokens);
    var step := state.ForwardToken(m, next, tokens);
    if step.Err? { return Err(step.error); }
    assert (tokens + [next])[..|steps| + 1] == tokens + [next];
    OutputsExtend(m, tokens + [next], steps, tokens + [next], step.value);
    r := Ok(steps + [step.value]);
  }

  /** The token chosen after the tokens so far, and the loop's position one turn later. */
  method Choose<S(!new)>(m: Model<S>, ghost tokens: seq<nat>, steps: seq<StepOutput<S>>) returns (next: nat)
    requires m.Valid() && tokens != [] && |steps| == |tokens| && OutputsAre(m, tokens, steps)
    ensures FullAt(m, tokens, |tokens| - 1).Some? && next == NextToken(m, tokens)
  {
    LastOutput(m, tokens, steps);
    next := GreedyToken(m.a, steps[|steps| - 1].tail.logits);
  }

  /** The generation loop after the prompt. */
  method Continue<S(!new)>(m: Model<S>, prompt: seq<nat>, budget: nat, state: SequenceState<S>,
                           outputs: seq<StepOutput<S>>)
    returns (r: Step<Generation<S>>)
    requires m.Valid() && prompt != [] && Required(prompt, budget) <= m.contextLength
    requires Ready(m, state.cache, prompt, outputs)
    modifies state
    ensures r.Ok? <==> ReferenceLoop(m, prompt, budget).Some?
    ensures r.Ok? ==> ReferenceLoop(m, prompt, budget) == Some(r.value.generated)
    ensures r.Ok? ==> |prompt| <= |r.value.steps| && OutputsAre(m, prompt + r.value.generated, r.value.steps)
    ensures r.Err? ==> r.error == NonFinite
  {
    hide ReferenceLoop, NextToken, FullAt, Holds;
    var steps := outputs;
    var generated: seq<nat> := [];
    ghost var tokens := prompt;
    RemainingStarts(m, prompt, budget);
    while |generated| < budget
      invariant tokens != [] && Remaining(m, prompt, budget, generated, tokens)
      invariant generated != [] ==> |generated| < budget
      invariant Ready(m, state.cache, tokens, steps)
    {
      var next := Choose(m, tokens, steps);
      RemainingTurn(m, prompt, budget, generated, tokens, next);
      generated := generated + [next];
      if next == EOS || |generated| == budget {
        OutputsGrow(m, tokens, steps, next);
        assert prompt + generated == tokens + [next];
        return Ok(Generation(generated, steps));
      }
      var more := Advance(m, state, steps, tokens, next);
      tokens := tokens + [next];
      if more.Err? {
        RemainingFails(m, prompt, budget, generated, tokens);
        return Err(more.error);
      }
      steps := more.value;
    }
    RemainingDone(m, prompt, budget, generated, tokens);
    r := Ok(Generation(generated, steps));
  }

  /** Greedy generation. It produces exactly the tokens of the full-prefix reference loop, it
      succeeds exactly when the request is admitted and every recomputed position is finite, and
      after admission it can never run into the context limit. */
  method GenerateGreedy<S(!new)>(m: Model<S>, prompt: seq<nat>, budget: nat) returns (r: Step<Generation<S>>)
    requires m.Valid()
    ensures r == Err(EmptySequence) <==> prompt == []
    ensures r == Err(ContextLimit) <==> prompt != [] && Required(prompt, budget) > m.contextLength
    ensures r.Ok? <==> prompt != [] && Required(prompt, budget) <= m.contextLength
                       && PromptOk(m, prompt, |prompt|) && ReferenceLoop(m, prompt, budget).Some?
    ensures r.Ok? ==> ReferenceLoop(m, prompt, budget) == Some(r.value.generated)
    ensures r.Ok? ==> |r.value.steps| >= |prompt| && OutputsAre(m, prompt + r.value.generated, r.value.steps)
  {
    if prompt == [] { return Err(EmptySequence); }
    if Required(prompt, budget) > m.contextLength { return Err(ContextLimit); }
    var state := new SequenceState();
    var outputs := RunPrompt(m, prompt, state);
    if outputs.Err? { return Err(outputs.error); }
    r := Continue(m, prompt, budget, state, outputs.value);
  }
}
