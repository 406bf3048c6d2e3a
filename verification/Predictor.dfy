/** The causal predictor: an aged table of expert transitions and the top-two scores read from
    it. Its 16-bit saturating cells always hold the exact aged counts. */
module Predictor {
  import opened CacheModel
  import opened Routes
  import opened Sampling
  import opened Totals
  import RouterScores

  const AGE_INTERVAL: nat := 256
  const MIN_SUPPORT: nat := 8
  const MIN_SCORE: nat := 100_000
  const MAX_U16: nat := 65_535

  /** A route and the one before it. */
  datatype Observation = Observation(prior: Pair, current: Pair)

  predicate Observed(history: seq<Observation>) {
    forall i | 0 <= i < |history| :: ValidRoute(history[i].prior) && ValidRoute(history[i].current)
  }

  predicate In(e: nat, r: Pair) { e == r.first || e == r.second }

  function Halved(n: nat): nat { (n + 1) / 2 }

  // ---------------------------------------------------------------- exact aged counts

  function Bit(o: Observation, source: nat, destination: nat): nat {
    if In(source, o.prior) && In(destination, o.current) then 1 else 0
  }

  /** How often the source led to the destination, halved upwards after every 256 observations. */
  function Exact(history: seq<Observation>, source: nat, destination: nat): nat {
    if history == [] then 0
    else
      var prior := history[..|history| - 1];
      var count := Exact(prior, source, destination) + Bit(history[|history| - 1], source, destination);
      if |history| % AGE_INTERVAL == 0 then Halved(count) else count
  }

  /** The first `n` cells of a row. */
  ghost function RowTo(history: seq<Observation>, source: nat, n: nat): nat {
    if n == 0 then 0 else RowTo(history, source, n - 1) + Exact(history, source, n - 1)
  }

  ghost function BitsTo(o: Observation, source: nat, n: nat): nat {
    if n == 0 then 0 else BitsTo(o, source, n - 1) + Bit(o, source, n - 1)
  }

  ghost function Row(history: seq<Observation>, source: nat): nat { RowTo(history, source, EXPERTS) }

  /** One observation adds at most two to a row. */
  lemma {:induction false} BitsInRow(o: Observation, source: nat, n: nat)
    requires o.current.first != o.current.second
    ensures BitsTo(o, source, n) <= (if o.current.first < n then 1 else 0) + (if o.current.second < n then 1 else 0)
  {
    if n > 0 { BitsInRow(o, source, n - 1); }
  }

  lemma {:induction false} RowGrows(history: seq<Observation>, source: nat, n: nat)
    requires history != []
    ensures
      var grown := RowTo(history[..|history| - 1], source, n) + BitsTo(history[|history| - 1], source, n);
      if |history| % AGE_INTERVAL == 0 then 2 * RowTo(history, source, n) <= grown + n
      else RowTo(history, source, n) == grown
  {
    if n > 0 { RowGrows(history, source, n - 1); }
  }

  /** No row of the table ever totals more than 640 plus twice the observations since aging. */
  lemma {:induction false} RowBound(history: seq<Observation>, source: nat)
    requires Observed(history)
    ensures Row(history, source) <= 640 + 2 * (|history| % AGE_INTERVAL)
  {
    if history == [] {
      NothingCounted(source, EXPERTS);
    } else {
      RowBound(history[..|history| - 1], source);
      RowGrows(history, source, EXPERTS);
      BitsInRow(history[|history| - 1], source, EXPERTS);
      NextAge(|history| - 1);
    }
  }

  lemma NextAge(n: nat)
    ensures (n + 1) % AGE_INTERVAL == if n % AGE_INTERVAL == AGE_INTERVAL - 1 then 0 else n % AGE_INTERVAL + 1
  {}

  lemma {:induction false} NothingCounted(source: nat, n: nat)
    ensures RowTo([], source, n) == 0
  {
    if n > 0 { NothingCounted(source, n - 1); }
  }

  lemma {:induction false} CellInRow(history: seq<Observation>, source: nat, n: nat, destination: nat)
    requires destination < n
    ensures Exact(history, source, destination) <= RowTo(history, source, n)
  {
    if destination < n - 1 { CellInRow(history, source, n - 1, destination); }
  }

  /** Even between the counting and the aging of one observation a row holds at most 1152. */
  lemma RowBeforeAging(history: seq<Observation>, o: Observation, source: nat)
    requires Observed(history) && ValidRoute(o.current)
    ensures Row(history, source) + BitsTo(o, source, EXPERTS) <= 1152
  {
    RowBound(history, source);
    BitsInRow(o, source, EXPERTS);
  }

  /** A cell fits 16 bits with room to spare. */
  lemma CellBound(history: seq<Observation>, source: nat, destination: nat)
    requires Observed(history) && destination < EXPERTS
    ensures Exact(history, source, destination) <= Row(history, source) <= 1150
  {
    RowBound(history, source);
    CellInRow(history, source, EXPERTS, destination);
  }

  // ---------------------------------------------------------------- what the counts count

  /** The observations from `lo` up to `hi` in which the source led to the destination. */
  ghost function Leading(history: seq<Observation>, lo: nat, hi: nat, source: nat, destination: nat): set<nat>
    requires lo <= hi <= |history|
  {
    set i | lo <= i < hi && In(source, history[i].prior) && In(destination, history[i].current)
  }

  /** Since the last aging every observation counts as one. */
  lemma {:induction false} CountsSinceAging(history: seq<Observation>, source: nat, destination: nat)
    ensures
      var aged := |history| - |history| % AGE_INTERVAL;
      Exact(history, source, destination)
      == Exact(history[..aged], source, destination) + |Leading(history, aged, |history|, source, destination)|
  {
    var aged := |history| - |history| % AGE_INTERVAL;
    if aged == |history| {
      assert history[..aged] == history;
      assert Leading(history, aged, |history|, source, destination) == {};
    } else {
      var n := |history| - 1;
      var prior := history[..n];
      NextAge(n);
      CountsSinceAging(prior, source, destination);
      assert prior[..aged] == history[..aged];
      LeadingGrows(history, aged, source, destination);
    }
  }

  lemma LeadingGrows(history: seq<Observation>, lo: nat, source: nat, destination: nat)
    requires lo < |history|
    ensures
      var n := |history| - 1;
      |Leading(history, lo, |history|, source, destination)|
      == |Leading(history[..n], lo, n, source, destination)| + Bit(history[n], source, destination)
  {
    var n := |history| - 1;
    var before := Leading(history[..n], lo, n, source, destination);
    var after := Leading(history, lo, |history|, source, destination);
    assert after == if Bit(history[n], source, destination) == 1 then before + {n} else before;
  }

  /** An aging halves what the last 256 observations led to, rounding upwards: a positive count never
      ages to zero. */
  lemma CountsAge(history: seq<Observation>, source: nat, destination: nat)
    requires |history| >= AGE_INTERVAL && |history| % AGE_INTERVAL == 0
    ensures
      var lo := |history| - AGE_INTERVAL;
      var count := Exact(history[..lo], source, destination) + |Leading(history, lo, |history|, source, destination)|;
      var aged := Exact(history, source, destination);
      count <= 2 * aged <= count + 1 && (aged == 0 <==> count == 0)
  {
    var lo, n := |history| - AGE_INTERVAL, |history| - 1;
    var prior := history[..n];
    WindowStart(|history|);
    CountsSinceAging(prior, source, destination);
    assert prior[..lo] == history[..lo];
    LeadingGrows(history, lo, source, destination);
  }

  lemma WindowStart(n: nat)
    requires n >= AGE_INTERVAL && n % AGE_INTERVAL == 0
    ensures (n - 1) % AGE_INTERVAL == AGE_INTERVAL - 1
  {}

  // ---------------------------------------------------------------- scores

  function Support(history: seq<Observation>, current: Pair, expert: nat): nat {
    Exact(history, current.first, expert) + Exact(history, current.second, expert)
  }

  function SupportTo(history: seq<Observation>, current: Pair, n: nat): nat {
    if n == 0 then 0 else SupportTo(history, current, n - 1) + Support(history, current, n - 1)
  }

  function Tallies(history: seq<Observation>, current: Pair, n: nat): (t: seq<Prediction>)
    ensures |t| == n && forall e | 0 <= e < n :: t[e] == Prediction(e, Support(history, current, e))
  {
    seq(n, (e: nat) => Prediction(e, Support(history, current, e)))
  }

  function Score(count: nat, total: nat): nat
    requires total > 0
  {
    count * PPM / total
  }

  /** Scores in parts per million, keeping those of at least the minimum. */
  function Scored(best: seq<Prediction>, total: nat): seq<Prediction>
    requires total > 0
  {
    if best == [] then []
    else
      var last := best[|best| - 1];
      var score := Score(last.score, total);
      Scored(best[..|best| - 1], total) + if score >= MIN_SCORE then [Prediction(last.expert, score)] else []
  }

  /** What is predicted after a history, for the route just seen. */
  function Predicted(history: seq<Observation>, current: Pair): seq<Prediction> {
    var total := SupportTo(history, current, EXPERTS);
    if total < MIN_SUPPORT then [] else Scored(Selected(Tallies(history, current, EXPERTS), 1, 2), total)
  }

  lemma {:induction false} SupportIsRows(history: seq<Observation>, current: Pair, n: nat)
    ensures SupportTo(history, current, n) == RowTo(history, current.first, n) + RowTo(history, current.second, n)
  {
    if n > 0 { SupportIsRows(history, current, n - 1); }
  }

  lemma TotalSupport(history: seq<Observation>, current: Pair)
    requires Observed(history)
    ensures SupportTo(history, current, EXPERTS) <= 2300
  {
    SupportIsRows(history, current, EXPERTS);
    RowBound(history, current.first);
    RowBound(history, current.second);
  }

  /** Two different experts' supports are both inside the total. */
  lemma {:induction false} TwoInside(history: seq<Observation>, current: Pair, n: nat, a: nat, b: nat)
    requires a < n && b < n && a != b
    ensures Support(history, current, a) + Support(history, current, b) <= SupportTo(history, current, n)
  {
    hide Support;
    if a == n - 1 {
      OneInside(history, current, n - 1, b);
    } else if b == n - 1 {
      OneInside(history, current, n - 1, a);
    } else {
      TwoInside(history, current, n - 1, a, b);
    }
  }

  lemma {:induction false} OneInside(history: seq<Observation>, current: Pair, n: nat, a: nat)
    requires a < n
    ensures Support(history, current, a) <= SupportTo(history, current, n)
  {
    hide Support;
    if a < n - 1 { OneInside(history, current, n - 1, a); }
  }

  // ---------------------------------------------------------------- scores keep the order of counts

  lemma ScoreBounds(count: nat, total: nat)
    requires total > 0
    ensures Score(count, total) * total <= count * PPM < Score(count, total) * total + total
  {}

  /** While a total stays below a million, a larger count has a strictly larger score. */
  lemma ScoreStrict(a: nat, b: nat, total: nat)
    requires 0 < total <= PPM && a > b
    ensures Score(a, total) > Score(b, total)
  {
    var x, y := Score(a, total), Score(b, total);
    ScoreBounds(a, total);
    ScoreBounds(b, total);
    if x <= y { Product(x, y, total); }
  }

  lemma Product(x: nat, y: nat, t: nat)
    requires x <= y
    ensures x * t <= y * t
  {}

  /** Shares of a total never add up to more than a million. */
  lemma ScoresShare(a: nat, b: nat, total: nat)
    requires total > 0 && a + b <= total
    ensures Score(a, total) + Score(b, total) <= PPM
  {
    var x, y := Score(a, total), Score(b, total);
    ScoreBounds(a, total);
    ScoreBounds(b, total);
    assert (x + y) * total == x * total + y * total;
    assert (PPM + 1) * total == PPM * total + total;
    if x + y > PPM { Product(PPM + 1, x + y, total); }
  }

  // ---------------------------------------------------------------- what a prediction promises

  predicate Different(list: seq<Prediction>) { forall i, j | 0 <= i < j < |list| :: list[i].expert != list[j].expert }

  lemma {:induction false} PlaceKeepsDifferent(p: Prediction, ranked: seq<Prediction>)
    requires Different(ranked) && forall x | x in ranked :: x.expert != p.expert
    ensures Different(Place(p, ranked)) && forall x | x in Place(p, ranked) :: x == p || x in ranked
  {
    if ranked != [] && !RanksBefore(p, ranked[0]) {
      PlaceKeepsDifferent(p, ranked[1..]);
      var rest := Place(p, ranked[1..]);
      forall i | 0 <= i < |rest| ensures rest[i].expert != ranked[0].expert {
        assert rest[i] in rest;
        if rest[i] != p {
          var k :| 1 <= k < |ranked| && ranked[k] == rest[i];
        }
      }
    }
  }

  lemma {:induction false} RankedKeepsDifferent(list: seq<Prediction>, minimum: nat)
    requires forall i | 0 <= i < |list| :: list[i].expert == i
    ensures Different(Ranked(list, minimum)) && forall x | x in Ranked(list, minimum) :: x in list && x.score >= minimum
  {
    if list != [] {
      var prior, last := list[..|list| - 1], list[|list| - 1];
      RankedKeepsDifferent(prior, minimum);
      forall x | x in Ranked(prior, minimum) ensures x.expert != last.expert {
        var k :| 0 <= k < |prior| && prior[k] == x;
      }
      PlaceKeepsDifferent(last, Ranked(prior, minimum));
    }
  }

  /** The two best supported experts, in order. */
  ghost predicate Best(history: seq<Observation>, current: Pair, best: seq<Prediction>) {
    && |best| <= 2
    && (forall i | 0 <= i < |best| ::
          best[i].expert < EXPERTS && best[i].score == Support(history, current, best[i].expert) && best[i].score > 0)
    && (|best| == 2 ==> best[0].expert != best[1].expert && RanksBefore(best[0], best[1]))
  }

  lemma SelectedBest(history: seq<Observation>, current: Pair)
    ensures Best(history, current, Selected(Tallies(history, current, EXPERTS), 1, 2))
  {
    hide Support, Ranked;
    var tallies := Tallies(history, current, EXPERTS);
    RankedKeepsDifferent(tallies, 1);
    RouterScores.RankedIsSorted(tallies, 1);
    var best := Selected(tallies, 1, 2);
    forall i | 0 <= i < |best|
      ensures best[i].expert < EXPERTS && best[i].score == Support(history, current, best[i].expert)
      ensures best[i].score > 0
    {
      assert best[i] in Ranked(tallies, 1);
      var k :| 0 <= k < |tallies| && tallies[k] == best[i];
    }
  }

  /** An expert with support that is not among the two best ranks after both of them. */
  lemma OthersRankLower(history: seq<Observation>, current: Pair, expert: nat)
    requires expert < EXPERTS && Support(history, current, expert) > 0
    ensures
      var best := Selected(Tallies(history, current, EXPERTS), 1, 2);
      var other := Prediction(expert, Support(history, current, expert));
      other in best || (|best| == 2 && forall i | 0 <= i < |best| :: RanksBefore(best[i], other))
  {
    hide Support, Ranked;
    var tallies := Tallies(history, current, EXPERTS);
    var best := Selected(tallies, 1, 2);
    var other := Prediction(expert, Support(history, current, expert));
    var dropped := RouterScores.SelectedAreBest(tallies, 1, 2);
    assert tallies[expert] == other;
    QualifiedKeeps(tallies, 1, expert);
    var all := RouterScores.Qualified(tallies, 1);
    assert other in multiset(all);
    if other !in best {
      assert other !in multiset(best);
      assert other in multiset(dropped);
      var j :| 0 <= j < |dropped| && dropped[j] == other;
      assert |multiset(best)| + |multiset(dropped)| == |multiset(all)|;
    }
  }

  lemma {:induction false} QualifiedKeeps(list: seq<Prediction>, minimum: nat, i: nat)
    requires i < |list| && list[i].score >= minimum
    ensures list[i] in RouterScores.Qualified(list, minimum)
  {
    if i < |list| - 1 { QualifiedKeeps(list[..|list| - 1], minimum, i); }
  }

  // ---------------------------------------------------------------- exactly what is predicted

  /** The experts with more support, or as much and a lower number. */
  ghost function Ahead(history: seq<Observation>, current: Pair, expert: nat): set<nat> {
    set x: nat |
      && x < EXPERTS
      && (Support(history, current, x) > Support(history, current, expert)
          || (Support(history, current, x) == Support(history, current, expert) && x < expert))
  }

  /** What both experts of the route led to, over all experts. */
  ghost function AllSupport(history: seq<Observation>, current: Pair): nat {
    Total(Interval(0, EXPERTS), Led(history, current))
  }

  function Led(history: seq<Observation>, current: Pair): nat -> nat {
    (x: nat) => Exact(history, current.first, x) + Exact(history, current.second, x)
  }

  lemma {:induction false} SupportIsTotal(history: seq<Observation>, current: Pair, n: nat)
    ensures SupportTo(history, current, n) == Total(Interval(0, n), Led(history, current))
  {
    hide Exact, Total;
    if n == 0 {
      TotalNone<nat>(Led(history, current));
      assert Interval(0, 0) == {};
    } else {
      SupportIsTotal(history, current, n - 1);
      var last: nat := n - 1;
      TotalAdd(Interval(0, last), Led(history, current), last);
      assert Interval(0, n) == Interval(0, last) + {last};
    }
  }

  /** All supported experts, each with its support, in rank order. */
  ghost predicate RankingOf(history: seq<Observation>, current: Pair, ranked: seq<Prediction>) {
    && Different(ranked) && RouterScores.Sorted(ranked)
    && (forall p | p in ranked :: p.expert < EXPERTS && p.score == Support(history, current, p.expert) > 0)
    && forall x: nat | x < EXPERTS && Support(history, current, x) > 0 ::
         Prediction(x, Support(history, current, x)) in ranked
  }

  lemma TalliesRanked(history: seq<Observation>, current: Pair)
    ensures RankingOf(history, current, Ranked(Tallies(history, current, EXPERTS), 1))
  {
    hide Support, Ranked;
    var tallies := Tallies(history, current, EXPERTS);
    var ranked := Ranked(tallies, 1);
    RankedKeepsDifferent(tallies, 1);
    RouterScores.RankedIsSorted(tallies, 1);
    forall p | p in ranked ensures p.expert < EXPERTS && p.score == Support(history, current, p.expert) > 0 {
      var i :| 0 <= i < |tallies| && tallies[i] == p;
    }
    forall x: nat | x < EXPERTS && Support(history, current, x) > 0
      ensures Prediction(x, Support(history, current, x)) in ranked
    {
      assert tallies[x] == Prediction(x, Support(history, current, x));
      QualifiedKeeps(tallies, 1, x);
      assert tallies[x] in multiset(RouterScores.Qualified(tallies, 1));
      assert tallies[x] in multiset(ranked);
    }
  }

  lemma {:induction false} ExpertsOf(list: seq<Prediction>)
    requires Different(list)
    ensures |set p | p in list :: p.expert| == |list|
  {
    if list != [] {
      var n := |list| - 1;
      var last := list[n];
      ExpertsOf(list[..n]);
      var before := set p | p in list[..n] :: p.expert;
      assert last.expert !in before;
      assert list == list[..n] + [last];
      assert (set p | p in list :: p.expert) == before + {last.expert};
    }
  }

  lemma AheadInFront(history: seq<Observation>, current: Pair, ranked: seq<Prediction>, k: nat, x: nat)
    requires RankingOf(history, current, ranked) && k < |ranked|
    ensures x in Ahead(history, current, ranked[k].expert) <==> exists i | 0 <= i < k :: ranked[i].expert == x
  {
    hide Support;
    assert ranked[k] in ranked;
    if x in Ahead(history, current, ranked[k].expert) {
      var p := Prediction(x, Support(history, current, x));
      var i :| 0 <= i < |ranked| && ranked[i] == p;
    }
    if i :| 0 <= i < k && ranked[i].expert == x {
      assert ranked[i] in ranked && RanksBefore(ranked[i], ranked[k]);
    }
  }

  /** In the ranking an expert stands behind exactly those ahead of it. */
  lemma PlaceIsAhead(history: seq<Observation>, current: Pair, ranked: seq<Prediction>, k: nat)
    requires RankingOf(history, current, ranked) && k < |ranked|
    ensures |Ahead(history, current, ranked[k].expert)| == k
  {
    hide Support;
    var front := set p | p in ranked[..k] :: p.expert;
    ExpertsOf(ranked[..k]);
    forall x: nat ensures x in Ahead(history, current, ranked[k].expert) <==> x in front {
      AheadInFront(history, current, ranked, k, x);
      if i :| 0 <= i < k && ranked[i].expert == x { assert ranked[..k][i] in ranked[..k]; }
    }
    assert Ahead(history, current, ranked[k].expert) == front;
  }

  /** Exactly these are predicted, each once, in rank order: the experts of the two best places whose
      share of all support reaches the minimum, given support of at least eight. */
  ghost predicate Foretells(history: seq<Observation>, current: Pair, list: seq<Prediction>) {
    var total := AllSupport(history, current);
    && (forall p: Prediction :: p in list <==>
          && total >= 8 && p.expert < EXPERTS && |Ahead(history, current, p.expert)| < 2
          && p.score == Support(history, current, p.expert) * 1_000_000 / total && p.score >= 100_000)
    && forall i, j | 0 <= i < j < |list| :: list[i].expert in Ahead(history, current, list[j].expert)
  }

  lemma {:induction false} ScoredHas(best: seq<Prediction>, total: nat, p: Prediction)
    requires total > 0
    ensures p in Scored(best, total) <==>
      p.score >= MIN_SCORE && exists q :: q in best && q.expert == p.expert && p.score == Score(q.score, total)
  {
    hide Score;
    if best != [] {
      var n := |best| - 1;
      ScoredHas(best[..n], total, p);
      assert best == best[..n] + [best[n]];
    }
  }

  /** The two best places hold exactly the supported experts with fewer than two ahead of them. */
  lemma SelectedPlaces(history: seq<Observation>, current: Pair, q: Prediction)
    ensures q in Selected(Tallies(history, current, EXPERTS), 1, 2) <==>
      && q.expert < EXPERTS && q.score == Support(history, current, q.expert) > 0
      && |Ahead(history, current, q.expert)| < 2
  {
    hide Support, Ranked, Ahead;
    TalliesRanked(history, current);
    var ranked := Ranked(Tallies(history, current, EXPERTS), 1);
    if q in ranked {
      forall k | 0 <= k < |ranked| && ranked[k] == q ensures |Ahead(history, current, q.expert)| == k {
        PlaceIsAhead(history, current, ranked, k);
      }
    }
  }

  /** A positive share needs support. */
  lemma ScoreNeedsCount(count: nat, total: nat)
    requires total > 0 && Score(count, total) > 0
    ensures count > 0
  {
    ScoreBounds(count, total);
  }

  lemma PredictedHas(history: seq<Observation>, current: Pair, p: Prediction)
    requires SupportTo(history, current, EXPERTS) >= MIN_SUPPORT
    ensures
      var total := SupportTo(history, current, EXPERTS);
      p in Predicted(history, current) <==>
        && p.expert < EXPERTS && |Ahead(history, current, p.expert)| < 2
        && p.score == Score(Support(history, current, p.expert), total) && p.score >= MIN_SCORE
  {
    hide Support, SupportTo, Selected, Ahead, Score, Scored, Tallies;
    var total := SupportTo(history, current, EXPERTS);
    var best := Selected(Tallies(history, current, EXPERTS), 1, 2);
    ScoredHas(best, total, p);
    var q := Prediction(p.expert, Support(history, current, p.expert));
    SelectedPlaces(history, current, q);
    if p in Scored(best, total) {
      var b :| b in best && b.expert == p.expert && p.score == Score(b.score, total);
      SelectedPlaces(history, current, b);
    }
    if p.score == Score(q.score, total) && p.score >= MIN_SCORE { ScoreNeedsCount(q.score, total); }
  }

  lemma PredictedOrder(history: seq<Observation>, current: Pair)
    ensures
      var list := Predicted(history, current);
      forall i, j | 0 <= i < j < |list| :: list[i].expert in Ahead(history, current, list[j].expert)
  {
    hide Support, SupportTo, Score, Ahead, Ranked, Scored, Tallies;
    var total := SupportTo(history, current, EXPERTS);
    if total >= MIN_SUPPORT {
      TalliesRanked(history, current);
      var ranked := Ranked(Tallies(history, current, EXPERTS), 1);
      var best := Selected(Tallies(history, current, EXPERTS), 1, 2);
      ScoredPair(best, total);
      if |best| == 2 { AheadInFront(history, current, ranked, 1, best[0].expert); }
    }
  }

  lemma PredictedExactly(history: seq<Observation>, current: Pair)
    ensures Foretells(history, current, Predicted(history, current))
  {
    hide Support, SupportTo, Ahead, Scored, Selected, Tallies;
    var total := SupportTo(history, current, EXPERTS);
    SupportIsTotal(history, current, EXPERTS);
    PredictedOrder(history, current);
    if total >= MIN_SUPPORT {
      forall p: Prediction
        ensures p in Predicted(history, current) <==>
          && p.expert < EXPERTS && |Ahead(history, current, p.expert)| < 2
          && p.score == Support(history, current, p.expert) * 1_000_000 / total && p.score >= 100_000
      {
        PredictedHas(history, current, p);
      }
    }
  }

  /** At most two different experts, scores of at least the minimum that share one million, in
      the strict score-then-expert order. */
  predicate WellFormed(list: seq<Prediction>) {
    && |list| <= 2
    && (forall i | 0 <= i < |list| :: list[i].expert < EXPERTS && MIN_SCORE <= list[i].score <= PPM)
    && (|list| == 2 ==>
          && list[0].expert != list[1].expert && list[0].score + list[1].score <= PPM
          && (list[0].score > list[1].score || (list[0].score == list[1].score && list[0].expert < list[1].expert)))
  }

  lemma ScoredPair(best: seq<Prediction>, total: nat)
    requires total > 0 && |best| <= 2
    ensures |best| == 0 ==> Scored(best, total) == []
    ensures |best| == 1 ==> Scored(best, total) == ScoreOf(best[0], total)
    ensures |best| == 2 ==> Scored(best, total) == ScoreOf(best[0], total) + ScoreOf(best[1], total)
  {
    if |best| == 1 { assert best[..0] == []; }
    if |best| == 2 {
      assert best[..1][..0] == [];
      assert Scored(best[..1], total) == ScoreOf(best[0], total);
    }
  }

  function ScoreOf(p: Prediction, total: nat): seq<Prediction>
    requires total > 0
  {
    if Score(p.score, total) >= MIN_SCORE then [Prediction(p.expert, Score(p.score, total))] else []
  }

  /** Whatever the routes were, a prediction has the shape every later check asks for. */
  lemma PredictionsWellFormed(history: seq<Observation>, current: Pair)
    requires Observed(history)
    ensures WellFormed(Predicted(history, current))
  {
    hide Support, Selected, Tallies, Scored, Score, SupportTo;
    var total := SupportTo(history, current, EXPERTS);
    if total >= MIN_SUPPORT {
      TotalSupport(history, current);
      var best := Selected(Tallies(history, current, EXPERTS), 1, 2);
      SelectedBest(history, current);
      ScoredPair(best, total);
      if |best| >= 1 {
        OneInside(history, current, EXPERTS, best[0].expert);
        ScoresShare(best[0].score, 0, total);
      }
      if |best| == 2 {
        TwoInside(history, current, EXPERTS, best[0].expert, best[1].expert);
        ScoresShare(best[0].score, best[1].score, total);
        if best[0].score > best[1].score { ScoreStrict(best[0].score, best[1].score, total); }
      }
    }
  }

  // ---------------------------------------------------------------- the table

  const CELLS: nat := EXPERTS * EXPERTS

  function SaturatingIncrement(n: nat): nat { if n >= MAX_U16 then MAX_U16 else n + 1 }

  /** The table holds these counts. */
  ghost predicate Holds(table: seq<nat>, count: (nat, nat) -> nat) {
    && |table| == CELLS
    && forall s: nat, d: nat | s < EXPERTS && d < EXPERTS :: table[At(s, d)] == count(s, d)
  }

  function At(source: nat, destination: nat): (i: nat)
    requires source < EXPERTS && destination < EXPERTS
    ensures i < CELLS && i / EXPERTS == source && i % EXPERTS == destination
  {
    source * EXPERTS + destination
  }

  function ExactCounts(history: seq<Observation>): (nat, nat) -> nat { (s: nat, d: nat) => Exact(history, s, d) }

  class CausalPredictor {
    var transitions: seq<nat>
    var observed: nat
    ghost var history: seq<Observation>

    /** The cells are the exact aged counts of everything observed. */
    ghost predicate Valid()
      reads this
    {
      && Observed(history) && observed == |history|
      && (if history == [] then transitions == [] else Holds(transitions, ExactCounts(history)))
    }

    constructor ()
      ensures Valid() && history == []
    {
      transitions, observed, history := [], 0, [];
    }

    /** Four increments, one per source and destination. None of them saturates. */
    method Count(prior: Pair, current: Pair)
      requires ValidRoute(prior) && ValidRoute(current) && Observed(history) && Holds(transitions, ExactCounts(history))
      modifies this`transitions
      ensures
        |transitions| == CELLS && forall s: nat, d: nat | s < EXPERTS && d < EXPERTS ::
          transitions[At(s, d)] == Exact(history, s, d) + Bit(Observation(prior, current), s, d)
    {
      hide Exact;
      ghost var before := transitions;
      Increment(prior.first, current.first);
      Increment(prior.first, current.second);
      Increment(prior.second, current.first);
      Increment(prior.second, current.second);
      forall s: nat, d: nat | s < EXPERTS && d < EXPERTS
        ensures transitions[At(s, d)] == Exact(history, s, d) + Bit(Observation(prior, current), s, d)
      {
        assert before[At(s, d)] == ExactCounts(history)(s, d);
      }
    }

    method Increment(source: nat, destination: nat)
      requires source < EXPERTS && destination < EXPERTS && Observed(history) && |transitions| == CELLS
      requires transitions[At(source, destination)] == Exact(history, source, destination)
      modifies this`transitions
      ensures transitions == old(transitions)[At(source, destination) := Exact(history, source, destination) + 1]
    {
      CellBound(history, source, destination);
      var index := source * EXPERTS + destination;
      transitions := transitions[index := SaturatingIncrement(transitions[index])];
    }

    method Age()
      modifies this`transitions
      ensures |transitions| == |old(transitions)|
        && forall i | 0 <= i < |transitions| :: transitions[i] == Halved(old(transitions)[i])
    {
      for i := 0 to |transitions|
        invariant |transitions| == |old(transitions)|
        invariant forall k | 0 <= k < |transitions| ::
          transitions[k] == if k < i then Halved(old(transitions)[k]) else old(transitions)[k]
      {
        transitions := transitions[i := (transitions[i] + 1) / 2];
      }
    }

    /** Observing a pair of routes adds it to the exact history. */
    method Observe(prior: Pair, current: Pair)
      requires Valid() && ValidRoute(prior) && ValidRoute(current)
      modifies this
      ensures Valid() && history == old(history) + [Observation(prior, current)]
    {
      if transitions == [] {
        transitions := seq(CELLS, _ => 0);
        assert Holds(transitions, ExactCounts(history));
      }
      Count(prior, current);
      ghost var counted := transitions;
      observed := observed + 1;
      if observed % AGE_INTERVAL == 0 { Age(); }
      history := history + [Observation(prior, current)];
      assert history[..|history| - 1] == old(history);
      forall s: nat, d: nat | s < EXPERTS && d < EXPERTS ensures transitions[At(s, d)] == ExactCounts(history)(s, d) {
        assert counted[At(s, d)] == Exact(old(history), s, d) + Bit(Observation(prior, current), s, d);
      }
    }

    /** The candidates with any support, and the total support. */
    method Candidates(current: Pair) returns (candidates: seq<Prediction>, total: nat)
      requires Valid() && history != [] && ValidRoute(current)
      ensures candidates == RouterScores.Qualified(Tallies(history, current, EXPERTS), 1)
      ensures total == SupportTo(history, current, EXPERTS)
    {
      hide Exact;
      candidates, total := [], 0;
      for expert := 0 to EXPERTS
        invariant candidates == RouterScores.Qualified(Tallies(history, current, expert), 1)
        invariant total == SupportTo(history, current, expert)
      {
        assert transitions[At(current.first, expert)] == ExactCounts(history)(current.first, expert);
        assert transitions[At(current.second, expert)] == ExactCounts(history)(current.second, expert);
        var count := transitions[current.first * EXPERTS + expert] + transitions[current.second * EXPERTS + expert];
        assert Tallies(history, current, expert + 1)[..expert] == Tallies(history, current, expert);
        total := total + count;
        if count != 0 { candidates := candidates + [Prediction(expert, count)]; }
      }
    }

    /** The predictions are those of the exact history. */
    method Predict(current: Pair) returns (r: seq<Prediction>)
      requires Valid() && ValidRoute(current)
      ensures r == Predicted(history, current) && WellFormed(r) && Foretells(history, current, r)
    {
      hide Foretells;
      PredictionsWellFormed(history, current);
      PredictedExactly(history, current);
      if transitions == [] {
        NothingSupported(current, EXPERTS);
        return [];
      }
      var candidates, total := Candidates(current);
      if total < MIN_SUPPORT { return []; }
      RankedQualified(Tallies(history, current, EXPERTS), 1);
      var best := Selected(candidates, 1, 2);
      r := [];
      for i := 0 to |best|
        invariant r == Scored(best[..i], total)
      {
        assert best[..i + 1][..i] == best[..i];
        var score := best[i].score * PPM / total;
        if score >= MIN_SCORE { r := r + [Prediction(best[i].expert, score)]; }
      }
      assert best[..|best|] == best;
    }
  }

  lemma {:induction false} NothingSupported(current: Pair, n: nat)
    ensures SupportTo([], current, n) == 0
  {
    if n > 0 { NothingSupported(current, n - 1); }
  }

  /** Sorting the qualified predictions is sorting all of them with the minimum applied. */
  lemma {:induction false} RankedQualified(list: seq<Prediction>, minimum: nat)
    ensures Ranked(RouterScores.Qualified(list, minimum), minimum) == Ranked(list, minimum)
  {
    if list != [] {
      var prior, last := list[..|list| - 1], list[|list| - 1];
      RankedQualified(prior, minimum);
      var q := RouterScores.Qualified(prior, minimum);
      if last.score >= minimum {
        assert (q + [last])[..|q|] == q;
      } else {
        assert q + [] == q;
      }
    }
  }
}
