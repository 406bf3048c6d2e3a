/** The synthetic route generator: six families of top-two expert routes drawn from a stream of
    64-bit words through a shuffled expert order. */
module Routes {
  import opened Common
  import opened Sampling

  const EXPERTS: nat := 128

  datatype Family = StationaryZipf | ScanPollution | PhaseShift | CyclicPressure | MarkovClusters | IidUniform

  datatype Pair = Pair(first: nat, second: nat)

  /** Two different numbers from an interval. */
  predicate Apiece(p: Pair, lo: nat, n: nat) {
    lo <= p.first < lo + n && lo <= p.second < lo + n && p.first != p.second
  }

  predicate ValidRoute(r: Pair) { Apiece(r, 0, EXPERTS) }

  /** The words left and the current cluster. */
  datatype RouteState = RouteState(stream: seq<Word>, cluster: nat)

  datatype Moved = Moved(pair: Pair, state: RouteState)

  // ---------------------------------------------------------------- what each family draws

  function HarmonicPair(stream: seq<Word>, start: nat, count: nat): (r: Option<Drawn<Pair>>)
    requires 1 < count <= 1_000_000
    ensures r.Some? ==> Apiece(r.value.value, start, count)
  {
    var first :- HarmonicDraw(stream, count, None);
    var second :- HarmonicDraw(first.rest, count, Some(first.value));
    Some(Drawn(Pair(start + first.value, start + second.value), second.rest))
  }

  /** The second rank, numbered without the first. */
  function Skip(first: nat, raw: nat): nat { if raw >= first then raw + 1 else raw }

  function UniformPair(stream: seq<Word>, count: nat): (r: Option<Drawn<Pair>>)
    requires 1 < count < WORDS
    ensures r.Some? ==> Apiece(r.value.value, 0, count)
  {
    var first :- Draw(stream, count);
    var raw :- Draw(first.rest, count - 1);
    Some(Drawn(Pair(first.value, Skip(first.value, raw.value)), raw.rest))
  }

  /** Every ordered pair of different ranks comes from exactly one pair of draws. */
  lemma UniformPairsOnce(count: nat, pair: Pair) returns (raw: nat)
    requires 1 < count && Apiece(pair, 0, count)
    ensures raw < count - 1 && Skip(pair.first, raw) == pair.second
    ensures forall other: nat | other < count - 1 && Skip(pair.first, other) == pair.second :: other == raw
  {
    raw := if pair.second > pair.first then pair.second - 1 else pair.second;
  }

  function ScanPair(stream: seq<Word>, step: nat): (r: Option<Drawn<Pair>>)
    ensures r.Some? ==> Apiece(r.value.value, 0, EXPERTS)
  {
    var phase := step % 64;
    if phase < 48 then HarmonicPair(stream, 0, 16)
    else
      var first := (step / 64 * 32 + (phase - 48) * 2) % 112;
      Some(Drawn(Pair(16 + first, 16 + (first + 1) % 112), stream))
  }

  /** A jump to one of the fourteen clusters that are neither the current nor the next one. */
  function Jump(cluster: nat, other: nat): nat { (cluster + 2 + other) % 16 }

  lemma JumpsOnce(cluster: nat, target: nat) returns (other: nat)
    requires cluster < 16 && target < 16 && target != cluster && target != (cluster + 1) % 16
    ensures other < 14 && Jump(cluster, other) == target
    ensures forall o: nat | o < 14 && Jump(cluster, o) == target :: o == other
  {
    other := (target + 30 - cluster) % 16;
  }

  function Cluster(s: RouteState, step: nat): (r: Option<RouteState>)
    requires s.cluster < 16
    ensures r.Some? ==> r.value.cluster < 16
  {
    if step == 0 then Some(s)
    else
      var transition :- Draw(s.stream, 100);
      if 85 <= transition.value < 95 then Some(RouteState(transition.rest, (s.cluster + 1) % 16))
      else if transition.value >= 95 then
        var other :- Draw(transition.rest, 14);
        Some(RouteState(other.rest, Jump(s.cluster, other.value)))
      else Some(RouteState(transition.rest, s.cluster))
  }

  function NextRanks(family: Family, s: RouteState, step: nat): (r: Option<Moved>)
    requires s.cluster < 16
    ensures r.Some? ==> ValidRoute(r.value.pair) && r.value.state.cluster < 16
  {
    match family
    case StationaryZipf => Kept(s, HarmonicPair(s.stream, 0, EXPERTS))
    case ScanPollution => Kept(s, ScanPair(s.stream, step))
    case PhaseShift => Kept(s, HarmonicPair(s.stream, step / 256 % 8 * 16, 16))
    case CyclicPressure =>
      var offset := step * 2 % EXPERTS;
      Some(Moved(Pair(offset, (offset + 1) % EXPERTS), s))
    case MarkovClusters =>
      var next :- Cluster(s, step);
      Kept(next, HarmonicPair(next.stream, next.cluster * 8, 8))
    case IidUniform => Kept(s, UniformPair(s.stream, EXPERTS))
  }

  function Kept(s: RouteState, drawn: Option<Drawn<Pair>>): Option<Moved> {
    var d :- drawn;
    Some(Moved(d.value, s.(stream := d.rest)))
  }

  /** A shuffled order of the experts, as every generator holds one. */
  predicate ExpertOrder(order: seq<nat>) { |order| == EXPERTS && Permutation(order) }

  /** The next route: ranks looked up in the expert order. Its experts are always different. */
  function NextRoute(family: Family, order: seq<nat>, s: RouteState, step: nat): (r: Option<Moved>)
    requires ExpertOrder(order) && s.cluster < 16
    ensures r.Some? ==> ValidRoute(r.value.pair) && r.value.state.cluster < 16
  {
    var ranks :- NextRanks(family, s, step);
    Some(Moved(Pair(order[ranks.pair.first], order[ranks.pair.second]), ranks.state))
  }

  // ---------------------------------------------------------------- whole streams of routes

  datatype Progress = Progress(order: seq<nat>, routes: seq<Pair>, state: RouteState)

  ghost predicate Sane(p: Progress) {
    ExpertOrder(p.order) && p.state.cluster < 16 && forall i | 0 <= i < |p.routes| :: ValidRoute(p.routes[i])
  }

  lemma OrderIsPermutation(stream: seq<Word>)
    requires ShuffleDraw(Identity(EXPERTS), EXPERTS, stream).Some?
    ensures ExpertOrder(ShuffleDraw(Identity(EXPERTS), EXPERTS, stream).value.value)
  {
    hide Shuffled, ShuffleDraw, Chosen;
    ShuffleDrawn(Identity(EXPERTS), EXPERTS, stream);
    ShufflePermutes(Identity(EXPERTS), EXPERTS, Chosen(EXPERTS, EXPERTS, stream));
  }

  ghost function Begun(family: Family, stream: seq<Word>): (r: Option<Progress>)
    ensures r.Some? ==> Sane(r.value) && r.value.routes == []
  {
    var shuffled :- ShuffleDraw(Identity(EXPERTS), EXPERTS, stream);
    OrderIsPermutation(stream);
    if family.MarkovClusters? then
      var cluster :- Draw(shuffled.rest, 16);
      Some(Progress(shuffled.value, [], RouteState(cluster.rest, cluster.value)))
    else Some(Progress(shuffled.value, [], RouteState(shuffled.rest, 0)))
  }

  /** The first `n` routes. For every family and every stream they are routes to two different
      experts below 128. */
  ghost function RoutesUpTo(family: Family, stream: seq<Word>, n: nat): (r: Option<Progress>)
    ensures r.Some? ==> Sane(r.value) && |r.value.routes| == n
  {
    if n == 0 then Begun(family, stream)
    else
      var p :- RoutesUpTo(family, stream, n - 1);
      var moved :- NextRoute(family, p.order, p.state, n - 1);
      Some(Progress(p.order, p.routes + [moved.pair], moved.state))
  }

  /** Asking for more routes never changes the earlier ones. */
  lemma {:induction false} RoutesOnlyAppend(family: Family, stream: seq<Word>, m: nat, n: nat)
    requires m <= n && RoutesUpTo(family, stream, n).Some?
    ensures RoutesUpTo(family, stream, m).Some?
    ensures RoutesUpTo(family, stream, m).value.routes == RoutesUpTo(family, stream, n).value.routes[..m]
  {
    hide Begun, NextRoute;
    if m < n { RoutesOnlyAppend(family, stream, m, n - 1); }
  }

  // ---------------------------------------------------------------- the generator

  class RouteGenerator {
    const family: Family
    const rng: Rng
    var order: seq<nat>
    var cluster: nat

    ghost predicate Valid()
      reads this
    {
      ExpertOrder(order) && cluster < 16
    }

    ghost function State(): RouteState
      reads this, rng
    {
      RouteState(rng.stream, cluster)
    }

    constructor (family: Family, rng: Rng, order: seq<nat>, cluster: nat)
      requires ExpertOrder(order) && cluster < 16
      ensures Valid() && this.family == family && this.rng == rng && this.order == order && this.cluster == cluster
    {
      this.family, this.rng, this.order, this.cluster := family, rng, order, cluster;
    }

    method HarmonicRanks(start: nat, count: nat) returns (r: Option<Pair>)
      requires 1 < count <= 1_000_000
      modifies rng
      ensures r.Some? <==> HarmonicPair(old(rng.stream), start, count).Some?
      ensures r.Some? ==> HarmonicPair(old(rng.stream), start, count) == Some(Drawn(r.value, rng.stream))
    {
      hide HarmonicDraw;
      var first :- DrawHarmonic(rng, count, None);
      var second :- DrawHarmonic(rng, count, Some(first));
      r := Some(Pair(start + first, start + second));
    }

    method UniformRanks(count: nat) returns (r: Option<Pair>)
      requires 1 < count < WORDS
      modifies rng
      ensures r.Some? <==> UniformPair(old(rng.stream), count).Some?
      ensures r.Some? ==> UniformPair(old(rng.stream), count) == Some(Drawn(r.value, rng.stream))
    {
      hide Draw;
      var first :- rng.Bounded(count);
      var raw :- rng.Bounded(count - 1);
      var second := if raw >= first then raw + 1 else raw;
      r := Some(Pair(first, second));
    }

    method ScanRanks(step: nat) returns (r: Option<Pair>)
      modifies rng
      ensures r.Some? <==> ScanPair(old(rng.stream), step).Some?
      ensures r.Some? ==> ScanPair(old(rng.stream), step) == Some(Drawn(r.value, rng.stream))
    {
      hide HarmonicPair;
      var phase := step % 64;
      if phase < 48 {
        r := HarmonicRanks(0, 16);
      } else {
        var epoch := step / 64;
        var first := (epoch * 32 + (phase - 48) * 2) % 112;
        r := Some(Pair(16 + first, 16 + (first + 1) % 112));
      }
    }

    method MoveCluster(step: nat) returns (r: Option<()>)
      requires Valid()
      modifies this`cluster, rng
      ensures r.Some? <==> Cluster(old(State()), step).Some?
      ensures r.Some? ==> Valid() && Cluster(old(State()), step) == Some(State())
    {
      hide Draw;
      if step != 0 {
        var transition :- rng.Bounded(100);
        if 85 <= transition < 95 {
          cluster := (cluster + 1) % 16;
        } else if transition >= 95 {
          var other :- rng.Bounded(14);
          cluster := (cluster + 2 + other) % 16;
        }
      }
      r := Some(());
    }

    method Ranks(step: nat) returns (r: Option<Pair>)
      requires Valid()
      modifies this`cluster, rng
      ensures r.Some? <==> NextRanks(family, old(State()), step).Some?
      ensures r.Some? ==> Valid() && NextRanks(family, old(State()), step) == Some(Moved(r.value, State()))
    {
      hide HarmonicPair, UniformPair, ScanPair, Cluster;
      match family
      case StationaryZipf => r := HarmonicRanks(0, EXPERTS);
      case ScanPollution => r := ScanRanks(step);
      case PhaseShift => r := HarmonicRanks(step / 256 % 8 * 16, 16);
      case CyclicPressure =>
        var offset := step * 2 % EXPERTS;
        r := Some(Pair(offset, (offset + 1) % EXPERTS));
      case MarkovClusters =>
        var _ :- MoveCluster(step);
        r := HarmonicRanks(cluster * 8, 8);
      case IidUniform => r := UniformRanks(EXPERTS);
    }

    /** The next route, two different experts below 128. */
    method Next(step: nat) returns (r: Option<Pair>)
      requires Valid()
      modifies this`cluster, rng
      ensures r.Some? <==> NextRoute(family, order, old(State()), step).Some?
      ensures r.Some? ==>
        Valid() && ValidRoute(r.value) && NextRoute(family, order, old(State()), step) == Some(Moved(r.value, State()))
    {
      hide NextRanks;
      var ranks :- Ranks(step);
      r := Some(Pair(order[ranks.first], order[ranks.second]));
    }
  }

  /** Shuffles the expert order and, for the Markov family, draws the first cluster. */
  method Begin(family: Family, stream: seq<Word>) returns (r: Option<RouteGenerator>)
    ensures r.Some? <==> Begun(family, stream).Some?
    ensures r.Some? ==> fresh(r.value) && fresh(r.value.rng) && r.value.Valid() && r.value.family == family
    ensures r.Some? ==> Begun(family, stream) == Some(Progress(r.value.order, [], r.value.State()))
  {
    hide ShuffleDraw, Draw;
    var rng := new Rng(stream);
    var order := new nat[EXPERTS](i => i);
    assert order[..] == Identity(EXPERTS);
    var ok := Shuffle(rng, order);
    if !ok { return None; }
    OrderIsPermutation(stream);
    var cluster := 0;
    if family.MarkovClusters? {
      var drawn :- rng.Bounded(16);
      cluster := drawn;
    }
    var generator := new RouteGenerator(family, rng, order[..], cluster);
    r := Some(generator);
  }
}
