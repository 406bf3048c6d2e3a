/** What the six families of synthetic routes are for: laws about the routes of every stream, read
    back through the shuffled expert order. */
module RouteLaws {
  import opened Common
  import opened Routes
  import opened Sampling
  import Sorting

  // ---------------------------------------------------------------- reading ranks back

  lemma {:induction false} MembersOf(p: seq<nat>)
    requires forall i, j | 0 <= i < j < |p| :: p[i] != p[j]
    ensures |Sorting.Members(p)| == |p|
  {
    if p != [] {
      var n := |p| - 1;
      MembersOf(p[..n]);
      Sorting.Appended(p[..n], p[n]);
      assert p == p[..n] + [p[n]];
    }
  }

  lemma SubsetIsAll(a: set<nat>, b: set<nat>)
    requires a <= b && |a| == |b|
    ensures a == b
  {
    if x :| x in b && x !in a {
      assert a <= b - {x};
      SmallerSet(a, b - {x});
    }
  }

  lemma SmallerSet(a: set<nat>, b: set<nat>)
    requires a <= b
    ensures |a| <= |b|
  {
    assert b == a + (b - a);
  }

  /** Every expert has a place in the order. */
  lemma EveryExpert(order: seq<nat>, expert: nat)
    requires ExpertOrder(order) && expert < EXPERTS
    ensures expert in order
  {
    MembersOf(order);
    IntervalSize(0, EXPERTS);
    assert Sorting.Members(order) <= Interval(0, EXPERTS);
    SubsetIsAll(Sorting.Members(order), Interval(0, EXPERTS));
    assert expert in Interval(0, EXPERTS);
  }

  ghost function Rank(order: seq<nat>, expert: nat): (rank: nat)
    requires ExpertOrder(order) && expert < EXPERTS
    ensures rank < EXPERTS && order[rank] == expert
  {
    EveryExpert(order, expert);
    var rank: nat :| rank < |order| && order[rank] == expert;
    rank
  }

  /** The ranks behind route `i`. */
  ghost function Ranks(p: Progress, i: nat): (ranks: Pair)
    requires Sane(p) && i < |p.routes|
    ensures ValidRoute(ranks) && p.routes[i] == Pair(p.order[ranks.first], p.order[ranks.second])
  {
    Pair(Rank(p.order, p.routes[i].first), Rank(p.order, p.routes[i].second))
  }

  lemma RanksAre(p: Progress, i: nat, ranks: Pair)
    requires Sane(p) && i < |p.routes| && ValidRoute(ranks)
    requires p.routes[i] == Pair(p.order[ranks.first], p.order[ranks.second])
    ensures Ranks(p, i) == ranks
  {}

  /** A route of a longer run was drawn in the state of the run before it. */
  lemma {:induction false} RouteDrawn(family: Family, stream: seq<Word>, n: nat, i: nat)
    requires RoutesUpTo(family, stream, n).Some? && i < n
    ensures RoutesUpTo(family, stream, i).Some? && RoutesUpTo(family, stream, i + 1).Some?
    ensures
      var p, before, after := RoutesUpTo(family, stream, n).value, RoutesUpTo(family, stream, i).value.state,
                              RoutesUpTo(family, stream, i + 1).value.state;
      NextRanks(family, before, i) == Some(Moved(Ranks(p, i), after))
    decreases n
  {
    hide NextRanks, Begun, Ranks;
    if i == n - 1 {
      var p, before := RoutesUpTo(family, stream, n).value, RoutesUpTo(family, stream, i).value;
      var moved := NextRanks(family, before.state, i).value;
      RanksAre(p, i, moved.pair);
    } else {
      RouteDrawn(family, stream, n - 1, i);
      SameRanks(family, stream, n, i);
    }
  }

  lemma SameRanks(family: Family, stream: seq<Word>, n: nat, i: nat)
    requires RoutesUpTo(family, stream, n).Some? && i < n - 1
    ensures RoutesUpTo(family, stream, n - 1).Some?
    ensures Ranks(RoutesUpTo(family, stream, n).value, i) == Ranks(RoutesUpTo(family, stream, n - 1).value, i)
  {
    hide NextRoute, Begun;
  }

  // ---------------------------------------------------------------- phase shift

  /** Sixteen experts at a time, the next sixteen after every 256 steps. */
  lemma PhaseShifts(stream: seq<Word>, n: nat, i: nat)
    requires RoutesUpTo(PhaseShift, stream, n).Some? && i < n
    ensures Apiece(Ranks(RoutesUpTo(PhaseShift, stream, n).value, i), 16 * (i / 256 % 8), 16)
  {
    hide RoutesUpTo, HarmonicPair;
    RouteDrawn(PhaseShift, stream, n, i);
  }

  // ---------------------------------------------------------------- cyclic pressure

  predicate Names(route: Pair, expert: nat) { route.first == expert || route.second == expert }

  lemma CyclicRanks(stream: seq<Word>, n: nat, i: nat)
    requires RoutesUpTo(CyclicPressure, stream, n).Some? && i < n
    ensures Ranks(RoutesUpTo(CyclicPressure, stream, n).value, i) == Pair(2 * i % 128, (2 * i + 1) % 128)
  {
    hide RoutesUpTo;
    RouteDrawn(CyclicPressure, stream, n, i);
  }

  /** The steps of a window that name an expert. */
  ghost function Naming(p: Progress, start: nat, expert: nat): set<nat>
    requires start + 64 <= |p.routes|
  {
    set i | start <= i < start + 64 && Names(p.routes[i], expert)
  }

  /** Any 64 consecutive steps name every expert exactly once. */
  lemma CyclicCoversAll(stream: seq<Word>, n: nat, start: nat, expert: nat)
    requires RoutesUpTo(CyclicPressure, stream, n).Some? && start + 64 <= n && expert < EXPERTS
    ensures |Naming(RoutesUpTo(CyclicPressure, stream, n).value, start, expert)| == 1
  {
    hide RoutesUpTo;
    var p := RoutesUpTo(CyclicPressure, stream, n).value;
    var rank := Rank(p.order, expert);
    forall i | start <= i < start + 64
      ensures Names(p.routes[i], expert) <==> i % 64 == rank / 2
    {
      CyclicRanks(stream, n, i);
      CyclicNames(p, i, expert, rank);
    }
    OneEach(start, 64, rank / 2);
    assert Naming(p, start, expert) == Residues(start, start + 64, 64, rank / 2);
  }

  lemma CyclicNames(p: Progress, i: nat, expert: nat, rank: nat)
    requires Sane(p) && i < |p.routes| && Ranks(p, i) == Pair(2 * i % 128, (2 * i + 1) % 128)
    requires rank < EXPERTS && p.order[rank] == expert
    ensures Names(p.routes[i], expert) <==> i % 64 == rank / 2
  {
    hide Rank;
    TwicePhase(i);
    var ranks, phase := Ranks(p, i), i % 64;
    assert p.order[ranks.first] == expert <==> ranks.first == rank;
    assert p.order[ranks.second] == expert <==> ranks.second == rank;
    assert phase == rank / 2 <==> rank == 2 * phase || rank == 2 * phase + 1;
  }

  lemma TwicePhase(i: nat)
    ensures 2 * i % 128 == 2 * (i % 64) && (2 * i + 1) % 128 == 2 * (i % 64) + 1
  {
    DivMod(i / 64, 128, 2 * (i % 64));
    DivMod(i / 64, 128, 2 * (i % 64) + 1);
  }

  // ---------------------------------------------------------------- scan pollution

  /** The ranks that are only ever scanned, over and over. */
  function Scanned(t: int): nat { 16 + t % 112 }

  /** How many ranks were scanned before step `i` of a run, if that step scans. */
  function ScannedBefore(i: nat): int { 32 * (i / 64) + 2 * (i % 64 - 48) }

  /** Three quarters of every 64 steps stay in the first sixteen ranks; the rest scans the others, 32
      an epoch, going on where the epoch before stopped. */
  lemma ScanPollutes(stream: seq<Word>, n: nat, i: nat)
    requires RoutesUpTo(ScanPollution, stream, n).Some? && i < n
    ensures
      var ranks := Ranks(RoutesUpTo(ScanPollution, stream, n).value, i);
      if i % 64 < 48 then Apiece(ranks, 0, 16)
      else ranks == Pair(Scanned(ScannedBefore(i)), Scanned(ScannedBefore(i) + 1))
  {
    hide RoutesUpTo, HarmonicPair;
    RouteDrawn(ScanPollution, stream, n, i);
    if i % 64 >= 48 { ScanNext(ScannedBefore(i)); }
  }

  lemma ScanNext(t: int)
    ensures (t % 112 + 1) % 112 == (t + 1) % 112
  {}

  /** The steps of a window that stay in the first sixteen ranks. */
  ghost function Staying(p: Progress, start: nat): set<nat>
    requires Sane(p) && start + 64 <= |p.routes|
  {
    set i | start <= i < start + 64 && Apiece(Ranks(p, i), 0, 16)
  }

  predicate Hot(i: nat) { i % 64 < 48 }

  ghost function Early(start: nat): set<nat> { set i: nat | start <= i < start + 64 && Hot(i) }

  lemma {:induction false} EarlySteps(start: nat)
    ensures |Early(start)| == 48
  {
    if start == 0 {
      IntervalSize(0, 48);
      assert Early(0) == Interval(0, 48);
    } else {
      EarlySteps(start - 1);
      EarlyShifts(start - 1);
    }
  }

  /** A window moved by one step loses its first step and gains one of the same phase. */
  lemma EarlyShifts(first: nat)
    ensures |Early(first + 1)| == |Early(first)|
  {
    hide Hot;
    var last := first + 64;
    SamePhase(first);
    var kept := set i: nat | first < i < last && Hot(i);
    if Hot(first) {
      assert Early(first) == kept + {first};
      assert Early(first + 1) == kept + {last};
    } else {
      assert Early(first) == kept;
      assert Early(first + 1) == kept;
    }
  }

  /** The scanning steps before `i`. */
  ghost function Scans(i: nat): set<nat> { set j: nat | j < i && !Hot(j) }

  lemma {:induction false} ScansCounted(i: nat)
    ensures |Scans(i)| == 16 * (i / 64) + if Hot(i) then 0 else i % 64 - 48
  {
    if i == 0 {
      assert Scans(0) == {};
    } else {
      var j := i - 1;
      ScansCounted(j);
      NextStep(j);
      assert Scans(i) == if Hot(j) then Scans(j) else Scans(j) + {j};
    }
  }

  lemma NextStep(j: nat)
    ensures if j % 64 == 63 then (j + 1) / 64 == j / 64 + 1 && (j + 1) % 64 == 0
            else (j + 1) / 64 == j / 64 && (j + 1) % 64 == j % 64 + 1
  {}

  /** Every scanning step before took two ranks, so a scan goes on where the last one stopped. */
  lemma ScansGoOn(i: nat)
    requires i % 64 >= 48
    ensures ScannedBefore(i) == 2 * |Scans(i)|
  {
    ScansCounted(i);
  }

  lemma SamePhase(i: nat)
    ensures Hot(i + 64) <==> Hot(i)
  {}

  /** Of any 64 consecutive routes 48 stay. */
  lemma ScanShare(stream: seq<Word>, n: nat, start: nat)
    requires RoutesUpTo(ScanPollution, stream, n).Some? && start + 64 <= n
    ensures |Staying(RoutesUpTo(ScanPollution, stream, n).value, start)| == 48
  {
    hide RoutesUpTo, Ranks;
    var p := RoutesUpTo(ScanPollution, stream, n).value;
    forall i | start <= i < start + 64 ensures Apiece(Ranks(p, i), 0, 16) <==> Hot(i) {
      ScanPollutes(stream, n, i);
    }
    EarlySteps(start);
    assert Staying(p, start) == Early(start);
  }

  // ---------------------------------------------------------------- Markov clusters

  /** A route stays inside the eight ranks of its cluster. */
  lemma MarkovInCluster(stream: seq<Word>, n: nat, i: nat)
    requires RoutesUpTo(MarkovClusters, stream, n).Some? && i < n
    ensures RoutesUpTo(MarkovClusters, stream, i + 1).Some?
    ensures
      var cluster := RoutesUpTo(MarkovClusters, stream, i + 1).value.state.cluster;
      cluster < 16 && Apiece(Ranks(RoutesUpTo(MarkovClusters, stream, n).value, i), 8 * cluster, 8)
  {
    hide RoutesUpTo, HarmonicPair, Cluster;
    RouteDrawn(MarkovClusters, stream, n, i);
  }

  /** After the first step one draw of a hundred decides: below 85 the cluster stays, below 95 it
      moves to the next, and otherwise to one of the fourteen others, as one draw of fourteen says. */
  lemma MarkovMoves(stream: seq<Word>, n: nat)
    requires RoutesUpTo(MarkovClusters, stream, n + 1).Some?
    ensures RoutesUpTo(MarkovClusters, stream, n).Some?
    ensures
      var before, after := RoutesUpTo(MarkovClusters, stream, n).value.state,
                           RoutesUpTo(MarkovClusters, stream, n + 1).value.state.cluster;
      if n == 0 then after == before.cluster
      else
        var draw := Draw(before.stream, 100);
        && draw.Some?
        && (draw.value.value < 85 <==> after == before.cluster)
        && (85 <= draw.value.value < 95 <==> after == (before.cluster + 1) % 16)
        && (draw.value.value >= 95 ==>
              var jump := Draw(draw.value.rest, 14);
              jump.Some? && after == (before.cluster + 2 + jump.value.value) % 16)
  {
    hide RoutesUpTo, HarmonicPair, Draw;
    RouteDrawn(MarkovClusters, stream, n + 1, n);
  }

  lemma OrderDrawn(order: seq<nat>, words: seq<Word>, rest: seq<Word>)
    requires ExpertOrder(order) && WordsFor(words, ChoicesFor(Identity(EXPERTS), EXPERTS, order), EXPERTS)
    ensures ShuffleDraw(Identity(EXPERTS), EXPERTS, words + rest) == Some(Drawn(order, rest))
  {
    hide ShuffleDraw, Shuffled, WordsFor, ChoicesFor;
    ShuffleIsFair(order);
    ShuffleReached(Identity(EXPERTS), EXPERTS, ChoicesFor(Identity(EXPERTS), EXPERTS, order), words, rest);
  }

  /** The generator begins with any order of the experts and, in the Markov family, any of the sixteen
      clusters, by words that are accepted for each choice. */
  lemma BeginsAnywhere(order: seq<nat>, words: seq<Word>, w: Word, rest: seq<Word>, cluster: nat)
    requires ExpertOrder(order) && cluster < 16 && w in Accepted(16, cluster)
    requires WordsFor(words, ChoicesFor(Identity(EXPERTS), EXPERTS, order), EXPERTS)
    ensures
      Begun(MarkovClusters, words + ([w] + rest)) == Some(Progress(order, [], RouteState(rest, cluster)))
    ensures Begun(CyclicPressure, words + rest) == Some(Progress(order, [], RouteState(rest, 0)))
    ensures |Accepted(16, cluster)| == WORDS / 16
  {
    hide ShuffleDraw, Draw, Accepted, WordsFor, ChoicesFor, Permutation;
    OrderDrawn(order, words, [w] + rest);
    OrderDrawn(order, words, rest);
    FirstAccepted(w, rest, 16, cluster);
    BoundedIsFair(16, cluster);
  }

  // ---------------------------------------------------------------- every pair is reached

  lemma HarmonicWord(w: Word, rest: seq<Word>, count: nat, excluded: Option<nat>, index: nat)
    requires 1 < count <= 1_000_000 && 0 < TotalFrom(0, count, excluded) < WORDS
    requires w in HarmonicWords(count, excluded, index)
    ensures HarmonicDraw([w] + rest, count, excluded) == Some(Drawn(index, rest))
  {
    assert ([w] + rest)[1..] == rest;
  }

  /** Two words out of exactly these many draw this pair. */
  lemma HarmonicPairDrawn(w: Word, v: Word, rest: seq<Word>, lo: nat, count: nat, pair: Pair)
    requires 1 < count <= 1_000_000 && Apiece(pair, lo, count)
    requires 0 < TotalFrom(0, count, None) < WORDS && 0 < TotalFrom(0, count, Some(pair.first - lo)) < WORDS
    requires w in HarmonicWords(count, None, pair.first - lo)
    requires v in HarmonicWords(count, Some(pair.first - lo), pair.second - lo)
    ensures HarmonicPair([w, v] + rest, lo, count) == Some(Drawn(pair, rest))
  {
    hide HarmonicDraw, TotalFrom, HarmonicWords;
    assert [w, v] + rest == [w] + ([v] + rest);
    HarmonicWord(w, [v] + rest, count, None, pair.first - lo);
    HarmonicWord(v, rest, count, Some(pair.first - lo), pair.second - lo);
  }

  /** The stationary family reaches every ordered pair of different ranks, the first in proportion to
      its harmonic weight and the second in proportion to its weight among the others. */
  lemma ZipfReaches(pair: Pair, w: Word, v: Word, rest: seq<Word>, cluster: nat, step: nat)
    requires ValidRoute(pair) && cluster < 16
    requires 0 < TotalFrom(0, EXPERTS, None) < WORDS && 0 < TotalFrom(0, EXPERTS, Some(pair.first)) < WORDS
    requires w in HarmonicWords(EXPERTS, None, pair.first) && v in HarmonicWords(EXPERTS, Some(pair.first), pair.second)
    ensures
      NextRanks(StationaryZipf, RouteState([w, v] + rest, cluster), step)
      == Some(Moved(pair, RouteState(rest, cluster)))
    ensures
      |HarmonicWords(EXPERTS, None, pair.first)| == 1_000_000 / (pair.first + 1) * (WORDS / TotalFrom(0, EXPERTS, None))
    ensures
      |HarmonicWords(EXPERTS, Some(pair.first), pair.second)|
      == 1_000_000 / (pair.second + 1) * (WORDS / TotalFrom(0, EXPERTS, Some(pair.first)))
  {
    hide HarmonicPair, TotalFrom, HarmonicWords;
    HarmonicPairDrawn(w, v, rest, 0, EXPERTS, pair);
    HarmonicIsFair(EXPERTS, None, pair.first);
    HarmonicIsFair(EXPERTS, Some(pair.first), pair.second);
  }

  /** Where a family draws its pair from a block of ranks. */
  predicate DrawsFrom(family: Family, step: nat, cluster: nat, lo: nat, count: nat) {
    match family
    case PhaseShift => lo == 16 * (step / 256 % 8) && count == 16
    case ScanPollution => step % 64 < 48 && lo == 0 && count == 16
    case MarkovClusters => step == 0 && lo == 8 * cluster && count == 8
    case _ => false
  }

  /** The families that draw from blocks reach every ordered pair of the block in the same proportions. */
  lemma BlockReaches(family: Family, pair: Pair, w: Word, v: Word, rest: seq<Word>, cluster: nat, step: nat, lo: nat,
                     count: nat)
    requires cluster < 16 && DrawsFrom(family, step, cluster, lo, count) && Apiece(pair, lo, count)
    requires 0 < TotalFrom(0, count, None) < WORDS && 0 < TotalFrom(0, count, Some(pair.first - lo)) < WORDS
    requires w in HarmonicWords(count, None, pair.first - lo)
    requires v in HarmonicWords(count, Some(pair.first - lo), pair.second - lo)
    ensures NextRanks(family, RouteState([w, v] + rest, cluster), step) == Some(Moved(pair, RouteState(rest, cluster)))
  {
    hide HarmonicPair, TotalFrom, HarmonicWords;
    HarmonicPairDrawn(w, v, rest, lo, count, pair);
  }

  /** The second rank numbered without the first. */
  function Unskipped(pair: Pair): nat { if pair.second > pair.first then pair.second - 1 else pair.second }

  /** The uniform family reaches every ordered pair of different ranks, all by equally many words. */
  lemma UniformReaches(pair: Pair, w: Word, v: Word, rest: seq<Word>, cluster: nat, step: nat)
    requires ValidRoute(pair) && cluster < 16
    requires w in Accepted(EXPERTS, pair.first) && v in Accepted(EXPERTS - 1, Unskipped(pair))
    ensures
      NextRanks(IidUniform, RouteState([w, v] + rest, cluster), step) == Some(Moved(pair, RouteState(rest, cluster)))
    ensures |Accepted(EXPERTS, pair.first)| == WORDS / 128 && |Accepted(EXPERTS - 1, Unskipped(pair))| == WORDS / 127
  {
    hide Draw, Accepted;
    var raw := Unskipped(pair);
    assert [w, v] + rest == [w] + ([v] + rest);
    FirstAccepted(w, [v] + rest, EXPERTS, pair.first);
    FirstAccepted(v, rest, EXPERTS - 1, raw);
    BoundedIsFair(EXPERTS, pair.first);
    BoundedIsFair(EXPERTS - 1, raw);
  }
}
