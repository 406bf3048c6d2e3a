/** Random choices made from a stream of 64-bit words: rejection sampling, harmonic draws and the
    shuffle. The words are arbitrary; what is proved is how many words lead to each outcome. */
module Sampling {
  import opened Common

  const WORDS: nat := 0x1_0000_0000_0000_0000

  type Word = n: nat | n < WORDS

  /** A value and the words left after drawing it. */
  datatype Drawn<+T> = Drawn(value: T, rest: seq<Word>)

  // ---------------------------------------------------------------- bounded draws

  /** `bound.wrapping_neg() % bound`. */
  function Threshold(bound: nat): nat
    requires 0 < bound < WORDS
  {
    (WORDS - bound) % bound
  }

  /** The first word at or above the threshold, reduced; None when the stream runs dry first. */
  function Draw(stream: seq<Word>, bound: nat): (r: Option<Drawn<nat>>)
    requires 0 < bound < WORDS
    ensures r.Some? ==> r.value.value < bound && |r.value.rest| < |stream|
  {
    if stream == [] then None
    else if stream[0] >= Threshold(bound) then Some(Drawn(stream[0] % bound, stream[1..]))
    else Draw(stream[1..], bound)
  }

  class Rng {
    var stream: seq<Word>

    constructor (stream: seq<Word>)
      ensures this.stream == stream
    {
      this.stream := stream;
    }

    method Bounded(bound: nat) returns (r: Option<nat>)
      requires 0 < bound < WORDS
      modifies this
      ensures r.None? <==> Draw(old(stream), bound).None?
      ensures r.Some? ==> Draw(old(stream), bound) == Some(Drawn(r.value, stream))
    {
      var threshold := Threshold(bound);
      while stream != []
        invariant Draw(stream, bound) == Draw(old(stream), bound)
        decreases |stream|
      {
        var draw := stream[0];
        stream := stream[1..];
        if draw >= threshold { return Some(draw % bound); }
      }
      r := None;
    }
  }

  /** The words that are accepted and give this result. */
  ghost function Accepted(bound: nat, result: nat): set<nat>
    requires 0 < bound < WORDS
  {
    Residues(Threshold(bound), WORDS, bound, result)
  }

  ghost function Residues(lo: nat, hi: nat, bound: nat, result: nat): set<nat>
    requires bound > 0
  {
    set d | lo <= d < hi && d % bound == result
  }

  lemma DivMod(k: nat, b: nat, r: nat)
    requires r < b
    ensures (k * b + r) / b == k && (k * b + r) % b == r
  {
    var n := k * b + r;
    var q, m := n / b, n % b;
    assert n == q * b + m;
    if q < k { Apart(q, k, b); }
    if k < q { Apart(k, q, b); }
  }

  lemma Apart(a: nat, c: nat, b: nat)
    requires a < c
    ensures a * b + b <= c * b
  {
    assert c * b == (a + 1) * b + (c - a - 1) * b;
  }

  /** A window of `bound` consecutive words holds each residue exactly once. */
  lemma OneEach(x: nat, bound: nat, result: nat)
    requires result < bound
    ensures |Residues(x, x + bound, bound, result)| == 1
  {
    Division(x, bound);
    OneEachAt(x, bound, result, x / bound, x % bound);
  }

  lemma Division(x: nat, bound: nat)
    requires bound > 0
    ensures x == x / bound * bound + x % bound && x % bound < bound
  {}

  lemma OneEachAt(x: nat, bound: nat, result: nat, k: nat, s: nat)
    requires result < bound && 0 <= s < bound && x == k * bound + s
    ensures |Residues(x, x + bound, bound, result)| == 1
  {
    hide Residues;
    var at := if result >= s then k * bound + result else (k + 1) * bound + result;
    assert (k + 1) * bound == k * bound + bound;
    DivMod(k, bound, result);
    DivMod(k + 1, bound, result);
    OnlyAt(x, bound, result, k, s, at);
  }

  lemma OnlyAt(x: nat, bound: nat, result: nat, k: nat, s: nat, at: nat)
    requires 0 <= s < bound && x == k * bound + s && result < bound && x <= at < x + bound && at % bound == result
    requires at == if result >= s then k * bound + result else (k + 1) * bound + result
    ensures |Residues(x, x + bound, bound, result)| == 1
  {
    forall d | x <= d < x + bound && d % bound == result ensures d == at {
      OnlyOne(x, bound, d, k, s);
    }
    assert Residues(x, x + bound, bound, result) == {at};
  }

  lemma OnlyOne(x: nat, bound: nat, d: nat, k: nat, s: nat)
    requires 0 <= s < bound && x == k * bound + s && x <= d < x + bound
    ensures d == if d % bound >= s then k * bound + d % bound else (k + 1) * bound + d % bound
  {
    assert (k + 1) * bound == k * bound + bound;
    if d < (k + 1) * bound {
      DivMod(k, bound, d - k * bound);
    } else {
      DivMod(k + 1, bound, d - (k + 1) * bound);
    }
  }

  lemma {:induction false} EvenlySpread(lo: nat, q: nat, bound: nat, result: nat)
    requires result < bound
    ensures |Residues(lo, lo + q * bound, bound, result)| == q
  {
    if q == 0 {
      assert Residues(lo, lo, bound, result) == {};
    } else {
      EvenlySpread(lo, q - 1, bound, result);
      assert q * bound == (q - 1) * bound + bound;
      Joined(lo, lo + (q - 1) * bound, lo + q * bound, bound, result);
      OneEach(lo + (q - 1) * bound, bound, result);
    }
  }

  lemma Joined(lo: nat, mid: nat, hi: nat, bound: nat, result: nat)
    requires bound > 0 && lo <= mid <= hi
    ensures |Residues(lo, hi, bound, result)| == |Residues(lo, mid, bound, result)| + |Residues(mid, hi, bound, result)|
  {
    assert Residues(lo, hi, bound, result) == Residues(lo, mid, bound, result) + Residues(mid, hi, bound, result);
    assert Residues(lo, mid, bound, result) !! Residues(mid, hi, bound, result);
  }

  /** The words above the threshold fill whole windows. */
  lemma ThresholdIsRemainder(bound: nat)
    requires 0 < bound < WORDS
    ensures Threshold(bound) == WORDS % bound && WORDS == Threshold(bound) + (WORDS / bound) * bound
  {
    var q, t := (WORDS - bound) / bound, (WORDS - bound) % bound;
    assert WORDS - bound == q * bound + t;
    assert (q + 1) * bound == q * bound + bound;
    DivMod(q + 1, bound, t);
  }

  /** Rejection sampling is exactly fair: every result below the bound has the same number of
      accepted words, the whole part of 2^64 / bound. */
  lemma BoundedIsFair(bound: nat, result: nat)
    requires 0 < bound < WORDS && result < bound
    ensures |Accepted(bound, result)| == WORDS / bound
  {
    ThresholdIsRemainder(bound);
    EvenlySpread(Threshold(bound), WORDS / bound, bound, result);
  }

  // ---------------------------------------------------------------- harmonic draws

  function Weight(index: nat): nat { 1_000_000 / (index + 1) }

  /** A weight is the whole part of a million over its place. */
  lemma WeightIsFloor(index: nat)
    ensures Weight(index) * (index + 1) <= 1_000_000 < (Weight(index) + 1) * (index + 1)
  {
    var place := index + 1;
    assert 1_000_000 == Weight(index) * place + 1_000_000 % place;
    assert (Weight(index) + 1) * place == Weight(index) * place + place;
  }

  /** The weights of the indices from `from` on, without the excluded one. */
  function TotalFrom(from: nat, count: nat, excluded: Option<nat>): nat
    decreases count - from
  {
    if from >= count then 0
    else (if Some(from) == excluded then 0 else Weight(from)) + TotalFrom(from + 1, count, excluded)
  }

  /** The index a draw falls on. */
  function Pick(from: nat, count: nat, excluded: Option<nat>, draw: nat): (index: nat)
    requires draw < TotalFrom(from, count, excluded)
    ensures from <= index < count && Some(index) != excluded
    decreases count - from
  {
    if Some(from) == excluded then Pick(from + 1, count, excluded, draw)
    else if draw < Weight(from) then from
    else Pick(from + 1, count, excluded, draw - Weight(from))
  }

  function WeightsBetween(from: nat, to: nat, excluded: Option<nat>): nat
    decreases to - from
  {
    if from >= to then 0
    else (if Some(from) == excluded then 0 else Weight(from)) + WeightsBetween(from + 1, to, excluded)
  }

  /** The draws that pick an index are an interval as long as its weight. */
  lemma {:induction false} PickInterval(from: nat, count: nat, excluded: Option<nat>, draw: nat, index: nat)
    requires draw < TotalFrom(from, count, excluded) && from <= index < count && Some(index) != excluded
    ensures
      var lo := WeightsBetween(from, index, excluded);
      Pick(from, count, excluded, draw) == index <==> lo <= draw < lo + Weight(index)
    decreases index - from
  {
    hide Weight;
    if from < index {
      if Some(from) == excluded {
        PickInterval(from + 1, count, excluded, draw, index);
      } else if draw >= Weight(from) {
        PickInterval(from + 1, count, excluded, draw - Weight(from), index);
      }
    }
  }

  lemma {:induction false} IntervalFits(from: nat, count: nat, excluded: Option<nat>, index: nat)
    requires from <= index < count && Some(index) != excluded
    ensures WeightsBetween(from, index, excluded) + Weight(index) <= TotalFrom(from, count, excluded)
    decreases index - from
  {
    hide Weight;
    if from < index { IntervalFits(from + 1, count, excluded, index); }
  }

  ghost function Preimages(count: nat, excluded: Option<nat>, index: nat): set<nat> {
    set draw | 0 <= draw < TotalFrom(0, count, excluded) && Pick(0, count, excluded, draw) == index
  }

  predicate Within(d: nat, lo: nat, n: nat) { lo <= d < lo + n }

  ghost function Interval(lo: nat, n: nat): set<nat> { set d: nat | lo <= d < lo + n && Within(d, lo, n) }

  lemma {:induction false} IntervalSize(lo: nat, n: nat)
    ensures |Interval(lo, n)| == n
  {
    if n == 0 {
      assert Interval(lo, n) == {};
    } else {
      IntervalSize(lo, n - 1);
      assert Interval(lo, n) == Interval(lo, n - 1) + {lo + n - 1};
    }
  }

  /** Every index but the excluded one has exactly its integer weight of draws; the excluded one has none. */
  lemma HarmonicWeights(count: nat, excluded: Option<nat>, index: nat)
    requires index < count
    ensures |Preimages(count, excluded, index)| == if Some(index) == excluded then 0 else Weight(index)
  {
    hide Weight;
    if Some(index) == excluded {
      assert Preimages(count, excluded, index) == {};
    } else {
      var lo := WeightsBetween(0, index, excluded);
      IntervalFits(0, count, excluded, index);
      forall draw | 0 <= draw < TotalFrom(0, count, excluded)
        ensures Pick(0, count, excluded, draw) == index <==> lo <= draw < lo + Weight(index)
      {
        PickInterval(0, count, excluded, draw, index);
      }
      assert Preimages(count, excluded, index) == Interval(lo, Weight(index));
      IntervalSize(lo, Weight(index));
    }
  }

  /** The summed weights are a legal bound: positive, and far below 2^64. */
  lemma TotalInRange(count: nat, excluded: Option<nat>)
    requires 1 < count <= 1_000_000
    ensures 0 < TotalFrom(0, count, excluded) < WORDS
  {
    TotalAtMost(0, count, excluded);
    assert Weight(0) == 1_000_000 && Weight(1) == 500_000;
  }

  lemma {:induction false} TotalAtMost(from: nat, count: nat, excluded: Option<nat>)
    requires from <= count
    ensures TotalFrom(from, count, excluded) <= 1_000_000 * (count - from)
    decreases count - from
  {
    if from < count {
      TotalAtMost(from + 1, count, excluded);
      WeightAtMost(from);
    }
  }

  lemma WeightAtMost(index: nat)
    ensures Weight(index) <= 1_000_000
  {
    var q := Weight(index);
    assert q * (index + 1) <= 1_000_000;
    assert q * 1 <= q * (index + 1);
  }

  /** Accepted words whose reduced draw falls in an interval. */
  ghost function WordsInto(bound: nat, lo: nat, n: nat): set<nat>
    requires 0 < bound < WORDS
  {
    set d | Threshold(bound) <= d < WORDS && lo <= d % bound < lo + n
  }

  lemma {:induction false} IntervalWords(bound: nat, lo: nat, n: nat)
    requires 0 < bound < WORDS && lo + n <= bound
    ensures |WordsInto(bound, lo, n)| == n * (WORDS / bound)
  {
    if n == 0 {
      assert WordsInto(bound, lo, n) == {};
    } else {
      IntervalWords(bound, lo, n - 1);
      BoundedIsFair(bound, lo + n - 1);
      assert WordsInto(bound, lo, n) == WordsInto(bound, lo, n - 1) + Accepted(bound, lo + n - 1);
      OneMoreTimes(n, WORDS / bound);
    }
  }

  lemma OneMoreTimes(n: nat, q: nat)
    requires n > 0
    ensures n * q == (n - 1) * q + q
  {}

  /** The 64-bit words that make a harmonic draw return an index. */
  ghost function HarmonicWords(count: nat, excluded: Option<nat>, index: nat): set<nat>
    requires 0 < TotalFrom(0, count, excluded) < WORDS
  {
    var total := TotalFrom(0, count, excluded);
    set d | Threshold(total) <= d < WORDS && Pick(0, count, excluded, d % total) == index
  }

  /** Through rejection and weighting together, an index is returned for exactly its weight times
      floor(2^64 / total) words. */
  lemma HarmonicIsFair(count: nat, excluded: Option<nat>, index: nat)
    requires 1 < count <= 1_000_000 && index < count && Some(index) != excluded
    ensures 0 < TotalFrom(0, count, excluded) < WORDS
    ensures |HarmonicWords(count, excluded, index)| == Weight(index) * (WORDS / TotalFrom(0, count, excluded))
  {
    TotalInRange(count, excluded);
    hide Weight;
    var total, lo := TotalFrom(0, count, excluded), WeightsBetween(0, index, excluded);
    IntervalFits(0, count, excluded, index);
    forall d | 0 <= d < WORDS
      ensures Pick(0, count, excluded, d % total) == index <==> lo <= d % total < lo + Weight(index)
    {
      PickInterval(0, count, excluded, d % total, index);
    }
    assert HarmonicWords(count, excluded, index) == WordsInto(total, lo, Weight(index));
    IntervalWords(total, lo, Weight(index));
  }

  /** A harmonic draw from a stream. */
  function HarmonicDraw(stream: seq<Word>, count: nat, excluded: Option<nat>): (r: Option<Drawn<nat>>)
    requires 1 < count <= 1_000_000
    ensures r.Some? ==> r.value.value < count && Some(r.value.value) != excluded
  {
    TotalInRange(count, excluded);
    var drawn :- Draw(stream, TotalFrom(0, count, excluded));
    Some(Drawn(Pick(0, count, excluded, drawn.value), drawn.rest))
  }

  method SumWeights(count: nat, excluded: Option<nat>) returns (total: nat)
    ensures total == TotalFrom(0, count, excluded)
  {
    hide Weight;
    total := 0;
    for index := 0 to count
      invariant total + TotalFrom(index, count, excluded) == TotalFrom(0, count, excluded)
    {
      if Some(index) != excluded { total := total + Weight(index); }
    }
  }

  /** Walks the indices until a weight covers the draw. The walk always stops inside the range,
      so the branch past its end is never taken. */
  method Walk(count: nat, excluded: Option<nat>, start: nat) returns (index: nat)
    requires start < TotalFrom(0, count, excluded)
    ensures index == Pick(0, count, excluded, start)
  {
    hide Weight;
    index := 0;
    var draw: nat := start;
    while Some(index) == excluded || draw >= Weight(index)
      invariant index < count && draw < TotalFrom(index, count, excluded)
      invariant Pick(index, count, excluded, draw) == Pick(0, count, excluded, start)
      decreases count - index
    {
      if Some(index) != excluded { draw := draw - Weight(index); }
      index := index + 1;
    }
  }

  method DrawHarmonic(rng: Rng, count: nat, excluded: Option<nat>) returns (r: Option<nat>)
    requires 1 < count <= 1_000_000
    modifies rng
    ensures r.None? <==> HarmonicDraw(old(rng.stream), count, excluded).None?
    ensures r.Some? ==> HarmonicDraw(old(rng.stream), count, excluded) == Some(Drawn(r.value, rng.stream))
  {
    TotalInRange(count, excluded);
    hide Weight, TotalFrom, Pick, Draw;
    var total := SumWeights(count, excluded);
    var draw :- rng.Bounded(total);
    var index := Walk(count, excluded, draw);
    r := Some(index);
  }

  // ---------------------------------------------------------------- the shuffle

  predicate Permutation(p: seq<nat>) {
    && (forall i | 0 <= i < |p| :: p[i] < |p|)
    && forall i, j | 0 <= i < j < |p| :: p[i] != p[j]
  }

  function Swapped(p: seq<nat>, i: nat, j: nat): seq<nat>
    requires i < |p| && j < |p|
  {
    p[i := p[j]][j := p[i]]
  }

  /** One index per position, each at most its position. */
  predicate Choices(c: seq<nat>) { forall h | 0 <= h < |c| :: c[h] <= h }

  /** Positions `k - 1` down to 1 exchanged with the chosen ones. */
  function Shuffled(p: seq<nat>, k: nat, c: seq<nat>): (q: seq<nat>)
    requires k <= |p| == |c| && Choices(c)
    ensures |q| == |p|
    decreases k
  {
    if k <= 1 then p else Shuffled(Swapped(p, k - 1, c[k - 1]), k - 1, c)
  }

  lemma SwapPermutes(p: seq<nat>, i: nat, j: nat)
    requires Permutation(p) && i < |p| && j < |p|
    ensures Permutation(Swapped(p, i, j))
  {}

  lemma {:induction false} ShufflePermutes(p: seq<nat>, k: nat, c: seq<nat>)
    requires k <= |p| == |c| && Choices(c) && Permutation(p)
    ensures Permutation(Shuffled(p, k, c))
    decreases k
  {
    if k > 1 {
      SwapPermutes(p, k - 1, c[k - 1]);
      ShufflePermutes(Swapped(p, k - 1, c[k - 1]), k - 1, c);
    }
  }

  /** Later positions are settled. */
  lemma {:induction false} ShuffleSettles(p: seq<nat>, k: nat, c: seq<nat>, at: nat)
    requires k <= |p| == |c| && Choices(c) && k <= at < |p|
    ensures Shuffled(p, k, c)[at] == p[at]
    decreases k
  {
    if k > 1 { ShuffleSettles(Swapped(p, k - 1, c[k - 1]), k - 1, c, at); }
  }

  /** Different choices give different orders. */
  lemma {:induction false} ShuffleInjective(p: seq<nat>, k: nat, c: seq<nat>, d: seq<nat>)
    requires k <= |p| == |c| == |d| && Choices(c) && Choices(d) && Permutation(p)
    requires Shuffled(p, k, c) == Shuffled(p, k, d)
    ensures forall h | 1 <= h < k :: c[h] == d[h]
    decreases k
  {
    if k > 1 {
      var pc, pd := Swapped(p, k - 1, c[k - 1]), Swapped(p, k - 1, d[k - 1]);
      ShuffleSettles(pc, k - 1, c, k - 1);
      ShuffleSettles(pd, k - 1, d, k - 1);
      assert p[c[k - 1]] == p[d[k - 1]];
      assert c[k - 1] == d[k - 1];
      SwapPermutes(p, k - 1, c[k - 1]);
      ShuffleInjective(pc, k - 1, c, d);
    }
  }

  /** The list of choices that leads from one order to another. */
  function ChoicesFor(p: seq<nat>, k: nat, q: seq<nat>): (c: seq<nat>)
    requires k <= |p| == |q|
    ensures |c| == |p| && Choices(c)
    decreases k
  {
    if k <= 1 then seq(|p|, _ => 0)
    else
      var at := Find(p, k, q[k - 1]);
      ChoicesFor(Swapped(p, k - 1, at), k - 1, q)[k - 1 := at]
  }

  function Find(p: seq<nat>, k: nat, v: nat): (at: nat)
    requires 0 < k <= |p|
    ensures at < k && (v in p[..k] ==> p[at] == v)
  {
    if k == 1 || p[k - 1] == v then k - 1
    else
      assert p[..k] == p[..k - 1] + [p[k - 1]];
      Find(p, k - 1, v)
  }

  /** The orders agree from `k` on, and what the target has before `k` is there to be moved. */
  predicate InReach(p: seq<nat>, k: nat, q: seq<nat>)
    requires k <= |p| == |q|
  {
    (forall i | k <= i < |p| :: p[i] == q[i]) && forall i | 0 <= i < k :: q[i] in p[..k]
  }

  /** Every order that agrees past `k` and holds the same values is reached. */
  lemma {:induction false} ShuffleReaches(p: seq<nat>, k: nat, q: seq<nat>)
    requires k <= |p| == |q| && Permutation(p) && Permutation(q) && InReach(p, k, q)
    ensures Shuffled(p, k, ChoicesFor(p, k, q)) == q
    decreases k
  {
    hide Shuffled, Permutation, ChoicesFor, InReach;
    if k <= 1 {
      AlreadyThere(p, k, q);
    } else {
      var at := Find(p, k, q[k - 1]);
      var next := Swapped(p, k - 1, at);
      StepTowards(p, k, q);
      ShuffleReaches(next, k - 1, q);
      ChoicesForStep(p, k, q);
    }
  }

  /** One exchange settles one position and keeps the rest within reach. */
  lemma StepTowards(p: seq<nat>, k: nat, q: seq<nat>)
    requires 1 < k <= |p| == |q| && Permutation(p) && Permutation(q) && InReach(p, k, q)
    ensures
      var next := Swapped(p, k - 1, Find(p, k, q[k - 1]));
      Permutation(next) && InReach(next, k - 1, q)
  {
    hide Permutation;
    var at := Find(p, k, q[k - 1]);
    assert q[k - 1] in p[..k];
    SwapPermutes(p, k - 1, at);
    StillThere(p, k, q, at);
    Settled(p, k, q, at);
  }

  lemma Settled(p: seq<nat>, k: nat, q: seq<nat>, at: nat)
    requires 1 < k <= |p| == |q| && at < k && p[at] == q[k - 1] && forall i | k <= i < |p| :: p[i] == q[i]
    ensures forall i | k - 1 <= i < |p| :: Swapped(p, k - 1, at)[i] == q[i]
  {}

  lemma ChoicesForStep(p: seq<nat>, k: nat, q: seq<nat>)
    requires 1 < k <= |p| == |q|
    ensures
      var next := Swapped(p, k - 1, Find(p, k, q[k - 1]));
      Shuffled(p, k, ChoicesFor(p, k, q)) == Shuffled(next, k - 1, ChoicesFor(next, k - 1, q))
  {
    hide Shuffled;
    var next := Swapped(p, k - 1, Find(p, k, q[k - 1]));
    ShuffledAgrees(next, k - 1, ChoicesFor(next, k - 1, q), ChoicesFor(p, k, q));
    ShuffleStep(p, k, ChoicesFor(p, k, q));
  }

  lemma AlreadyThere(p: seq<nat>, k: nat, q: seq<nat>)
    requires k <= |p| == |q| && k <= 1 && InReach(p, k, q)
    ensures Shuffled(p, k, ChoicesFor(p, k, q)) == q
  {
    if k == 1 { assert q[0] in p[..1]; }
    assert p == q;
  }

  lemma ShuffleStep(p: seq<nat>, k: nat, c: seq<nat>)
    requires 1 < k <= |p| == |c| && Choices(c)
    ensures Shuffled(p, k, c) == Shuffled(Swapped(p, k - 1, c[k - 1]), k - 1, c)
  {}

  lemma StillThere(p: seq<nat>, k: nat, q: seq<nat>, at: nat)
    requires 1 < k <= |p| == |q| && Permutation(p) && Permutation(q) && at < k && p[at] == q[k - 1]
    requires forall i | 0 <= i < k :: q[i] in p[..k]
    ensures forall i | 0 <= i < k - 1 :: q[i] in Swapped(p, k - 1, at)[..k - 1]
  {
    var next := Swapped(p, k - 1, at);
    forall i | 0 <= i < k - 1 ensures q[i] in next[..k - 1] {
      var j :| 0 <= j < k && p[..k][j] == q[i];
      assert j != at;
      if j == k - 1 {
        assert next[..k - 1][at] == q[i];
      } else {
        assert next[..k - 1][j] == q[i];
      }
    }
  }

  lemma {:induction false} ShuffledAgrees(p: seq<nat>, k: nat, c: seq<nat>, d: seq<nat>)
    requires k <= |p| == |c| == |d| && Choices(c) && Choices(d) && forall h | 0 <= h < k :: c[h] == d[h]
    ensures Shuffled(p, k, c) == Shuffled(p, k, d)
    decreases k
  {
    if k > 1 { ShuffledAgrees(Swapped(p, k - 1, c[k - 1]), k - 1, c, d); }
  }

  function Identity(n: nat): (p: seq<nat>)
    ensures |p| == n && Permutation(p)
  {
    seq(n, i => i)
  }

  /** The shuffle is exactly fair: every order of `n` items comes from one list of choices, and
      from no other. */
  lemma ShuffleIsFair(q: seq<nat>)
    requires Permutation(q)
    ensures Shuffled(Identity(|q|), |q|, ChoicesFor(Identity(|q|), |q|, q)) == q
    ensures forall d | |d| == |q| && Choices(d) && Shuffled(Identity(|q|), |q|, d) == q ::
      forall h | 1 <= h < |q| :: d[h] == ChoicesFor(Identity(|q|), |q|, q)[h]
  {
    var p := Identity(|q|);
    forall i | 0 <= i < |q| ensures q[i] in p[..|q|] {
      assert p[..|q|][q[i]] == q[i];
    }
    ShuffleReaches(p, |q|, q);
    forall d | |d| == |q| && Choices(d) && Shuffled(p, |q|, d) == q
      ensures forall h | 1 <= h < |q| :: d[h] == ChoicesFor(p, |q|, q)[h]
    {
      ShuffleInjective(p, |q|, d, ChoicesFor(p, |q|, q));
    }
  }

  /** The shuffle drawn from a stream. */
  function ShuffleDraw(p: seq<nat>, k: nat, stream: seq<Word>): (r: Option<Drawn<seq<nat>>>)
    requires k <= |p| < WORDS
    ensures r.Some? ==> |r.value.value| == |p|
    decreases k
  {
    if k <= 1 then Some(Drawn(p, stream))
    else
      var drawn :- Draw(stream, k);
      ShuffleDraw(Swapped(p, k - 1, drawn.value), k - 1, drawn.rest)
  }

  /** The choices a stream leads to. */
  function Chosen(n: nat, k: nat, stream: seq<Word>): (c: seq<nat>)
    requires k <= n < WORDS
    ensures |c| == n && Choices(c)
    decreases k
  {
    if k <= 1 || Draw(stream, k).None? then seq(n, _ => 0)
    else
      var drawn := Draw(stream, k).value;
      Chosen(n, k - 1, drawn.rest)[k - 1 := drawn.value]
  }

  /** Words that make the choices: the first decides the last position, and so on down to position 1. */
  ghost predicate WordsFor(words: seq<Word>, c: seq<nat>, k: nat)
    requires 0 < k <= |c| < WORDS
  {
    |words| == k - 1 && forall j | 0 <= j < k - 1 :: words[j] in Accepted(k - j, c[k - 1 - j])
  }

  /** Every list of choices is drawn, by words that are accepted for each of them; so by `BoundedIsFair`
      every order is drawn by equally many lists of accepted words. */
  lemma {:induction false} ShuffleReached(p: seq<nat>, k: nat, c: seq<nat>, words: seq<Word>, rest: seq<Word>)
    requires 0 < k <= |p| == |c| < WORDS && Choices(c) && WordsFor(words, c, k)
    ensures ShuffleDraw(p, k, words + rest) == Some(Drawn(Shuffled(p, k, c), rest))
    decreases k
  {
    hide Shuffled, Draw, Accepted;
    if k == 1 {
      assert words + rest == rest;
      ShuffleNone(p, c);
    } else {
      var word, more := words[0], words[1..];
      assert words + rest == [word] + (more + rest);
      FirstAccepted(word, more + rest, k, c[k - 1]);
      forall j | 0 <= j < k - 2 ensures more[j] in Accepted(k - 1 - j, c[k - 2 - j]) {
        assert more[j] == words[j + 1];
      }
      ShuffleReached(Swapped(p, k - 1, c[k - 1]), k - 1, c, more, rest);
      ShuffleStep(p, k, c);
    }
  }

  lemma ShuffleNone(p: seq<nat>, c: seq<nat>)
    requires 0 < |p| == |c| && Choices(c)
    ensures Shuffled(p, 1, c) == p
  {}

  /** An accepted first word decides a bounded draw. */
  lemma FirstAccepted(w: Word, rest: seq<Word>, bound: nat, result: nat)
    requires 0 < bound < WORDS && w in Accepted(bound, result)
    ensures Draw([w] + rest, bound) == Some(Drawn(result, rest))
  {
    assert ([w] + rest)[1..] == rest;
  }

  lemma ChosenStep(p: seq<nat>, k: nat, stream: seq<Word>)
    requires 1 < k <= |p| < WORDS && Draw(stream, k).Some?
    ensures
      var drawn := Draw(stream, k).value;
      Shuffled(p, k, Chosen(|p|, k, stream))
        == Shuffled(Swapped(p, k - 1, drawn.value), k - 1, Chosen(|p|, k - 1, drawn.rest))
  {
    hide Shuffled, Draw;
    var drawn := Draw(stream, k).value;
    var next := Swapped(p, k - 1, drawn.value);
    ShuffledAgrees(next, k - 1, Chosen(|p|, k - 1, drawn.rest), Chosen(|p|, k, stream));
    ShuffleStep(p, k, Chosen(|p|, k, stream));
  }

  /** A drawn shuffle is the shuffle by the drawn choices. */
  lemma {:induction false} ShuffleDrawn(p: seq<nat>, k: nat, stream: seq<Word>)
    requires k <= |p| < WORDS && ShuffleDraw(p, k, stream).Some?
    ensures ShuffleDraw(p, k, stream).value.value == Shuffled(p, k, Chosen(|p|, k, stream))
    decreases k
  {
    if k > 1 {
      hide Shuffled, Draw, Chosen;
      var drawn := Draw(stream, k).value;
      ShuffleDrawn(Swapped(p, k - 1, drawn.value), k - 1, drawn.rest);
      ChosenStep(p, k, stream);
    }
  }

  /** The in-place shuffle. */
  method Shuffle(rng: Rng, p: array<nat>) returns (ok: bool)
    requires p.Length < WORDS
    modifies rng, p
    ensures ok <==> ShuffleDraw(old(p[..]), p.Length, old(rng.stream)).Some?
    ensures ok ==> ShuffleDraw(old(p[..]), p.Length, old(rng.stream)) == Some(Drawn(p[..], rng.stream))
  {
    var k: nat := p.Length;
    while k > 1
      invariant k <= p.Length
      invariant ShuffleDraw(p[..], k, rng.stream) == ShuffleDraw(old(p[..]), p.Length, old(rng.stream))
    {
      var high := k - 1;
      ghost var before := p[..];
      var selected := rng.Bounded(high + 1);
      if selected.None? { return false; }
      p[high], p[selected.value] := p[selected.value], p[high];
      assert p[..] == Swapped(before, high, selected.value);
      k := high;
    }
    ok := true;
  }
}
