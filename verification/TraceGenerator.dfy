/** Synthetic traces: burn-in, six demands per measured route, and a signal wherever the
    predictor has something to say. Every trace passes the independent parser and the layout
    check of the experiment verifier, and a longer trace only adds events. */
module TraceGenerator {
  import opened Common
  import opened CacheModel
  import opened Predictor
  import opened Routes
  import opened TraceParser
  import opened TraceText
  import opened Sampling

  const BURN_IN: nat := 512
  const MEASURED_STEPS: nat := 4_096
  const PAGES_PER_EXPERT: nat := 3
  const PAGE_BYTES: nat := 65_536

  // ---------------------------------------------------------------- the catalogue

  function CataloguePage(i: nat): Page {
    Page(PAGE_BYTES, PAGE_BYTES, Expert(0, i / PAGES_PER_EXPERT, i % PAGES_PER_EXPERT))
  }

  function Catalogue(): (pages: seq<Page>)
    ensures |pages| == EXPERTS * PAGES_PER_EXPERT && forall i | 0 <= i < |pages| :: pages[i] == CataloguePage(i)
  {
    seq(EXPERTS * PAGES_PER_EXPERT, (i: nat) => CataloguePage(i))
  }

  method PageCatalog() returns (records: seq<PageRecord>)
    ensures |records| == |Catalogue()| && forall i | 0 <= i < |records| :: records[i] == PageRecord(i, Catalogue()[i])
    ensures CatalogueOk(PAGE_BYTES, records)
  {
    records := [];
    for expert := 0 to EXPERTS
      invariant |records| == expert * PAGES_PER_EXPERT
      invariant forall i | 0 <= i < |records| :: records[i] == PageRecord(i, CataloguePage(i))
    {
      for ordinal := 0 to PAGES_PER_EXPERT
        invariant |records| == expert * PAGES_PER_EXPERT + ordinal
        invariant forall i | 0 <= i < |records| :: records[i] == PageRecord(i, CataloguePage(i))
      {
        var id := expert * PAGES_PER_EXPERT + ordinal;
        records := records + [PageRecord(id, Page(PAGE_BYTES, PAGE_BYTES, Expert(0, expert, ordinal)))];
      }
    }
  }

  lemma EveryExpertListed(expert: nat)
    requires expert < EXPERTS
    ensures (0, expert) in Experts(Catalogue())
  {
    var i := expert * PAGES_PER_EXPERT;
    assert Catalogue()[i].role == Expert(0, expert, 0);
  }

  // ---------------------------------------------------------------- the events of given routes

  function HistoryOf(routes: seq<Pair>): (h: seq<Observation>)
    ensures (forall i | 0 <= i < |routes| :: ValidRoute(routes[i])) ==> Observed(h)
  {
    if |routes| <= 1 then []
    else HistoryOf(routes[..|routes| - 1]) + [Observation(routes[|routes| - 2], routes[|routes| - 1])]
  }

  function PredictionAt(routes: seq<Pair>, step: nat): seq<Prediction>
    requires BURN_IN + step <= |routes|
  {
    Predicted(HistoryOf(routes[..BURN_IN + step]), routes[BURN_IN + step - 1])
  }

  function SignalPart(routes: seq<Pair>, step: nat): seq<Event>
    requires BURN_IN + step <= |routes|
  {
    var predictions := PredictionAt(routes, step);
    if predictions == [] then [] else [Signal(0, step, 0, predictions)]
  }

  function PagesOf(route: Pair): seq<nat> {
    var a, b := route.first * PAGES_PER_EXPERT, route.second * PAGES_PER_EXPERT;
    [a, a + 1, a + 2, b, b + 1, b + 2]
  }

  function DemandsFor(pages: seq<nat>, step: nat): seq<Event> {
    if pages == [] then [] else [Demand(0, step, pages[0])] + DemandsFor(pages[1..], step)
  }

  function Push(events: seq<EventRecord>, e: Event): seq<EventRecord> { events + [EventRecord(|events|, e)] }

  function PushAll(events: seq<EventRecord>, more: seq<Event>): (r: seq<EventRecord>)
    ensures |r| == |events| + |more| && events <= r
    ensures forall i | 0 <= i < |more| :: r[|events| + i] == EventRecord(|events| + i, more[i])
    decreases more
  {
    if more == [] then events else PushAll(Push(events, more[0]), more[1..])
  }

  /** The trace of the first `n` measured routes after the burn-in. */
  function Trace(routes: seq<Pair>, n: nat): seq<EventRecord>
    requires BURN_IN + n <= |routes|
  {
    if n == 0 then []
    else PushAll(PushAll(Trace(routes, n - 1), SignalPart(routes, n - 1)),
                 DemandsFor(PagesOf(routes[BURN_IN + n - 1]), n - 1))
  }

  lemma TraceStarts(routes: seq<Pair>)
    requires BURN_IN <= |routes|
    ensures Trace(routes, 0) == []
  {}

  lemma TraceUnfolds(routes: seq<Pair>, n: nat)
    requires 0 < n && BURN_IN + n <= |routes|
    ensures Trace(routes, n)
      == PushAll(PushAll(Trace(routes, n - 1), SignalPart(routes, n - 1)),
                 DemandsFor(PagesOf(routes[BURN_IN + n - 1]), n - 1))
  {}

  lemma {:induction false} TraceLength(routes: seq<Pair>, n: nat)
    requires BURN_IN + n <= |routes|
    ensures |Trace(routes, n)| <= 7 * n
  {
    hide Trace, SignalPart, DemandsFor, PushAll;
    if n == 0 {
      TraceStarts(routes);
    } else {
      TraceLength(routes, n - 1);
      TraceUnfolds(routes, n);
      DemandCount(PagesOf(routes[BURN_IN + n - 1]), n - 1);
      AtMostOneSignal(routes, n - 1);
    }
  }

  lemma AtMostOneSignal(routes: seq<Pair>, step: nat)
    requires BURN_IN + step <= |routes|
    ensures |SignalPart(routes, step)| <= 1
  {}

  lemma {:induction false} DemandCount(pages: seq<nat>, step: nat)
    ensures |DemandsFor(pages, step)| == |pages|
    ensures forall i | 0 <= i < |pages| :: DemandsFor(pages, step)[i] == Demand(0, step, pages[i])
  {
    if pages != [] { DemandCount(pages[1..], step); }
  }

  /** A trace grows only at its end. */
  lemma {:induction false} TracePrefix(routes: seq<Pair>, m: nat, n: nat)
    requires m <= n && BURN_IN + n <= |routes|
    ensures Trace(routes, m) <= Trace(routes, n)
  {
    hide Trace, SignalPart, DemandsFor, PagesOf;
    if m < n {
      TracePrefix(routes, m, n - 1);
      TraceUnfolds(routes, n);
    }
  }

  /** A trace looks at no route past its own. */
  lemma {:induction false} TraceLooksBack(a: seq<Pair>, b: seq<Pair>, n: nat)
    requires BURN_IN + n <= |a| <= |b| && a == b[..|a|]
    ensures Trace(a, n) == Trace(b, n)
  {
    hide Trace, SignalPart, DemandsFor, PagesOf, PushAll;
    if n == 0 {
      TraceStarts(a);
      TraceStarts(b);
    } else {
      TraceLooksBack(a, b, n - 1);
      SignalLooksBack(a, b, n - 1);
      TraceUnfolds(a, n);
      TraceUnfolds(b, n);
      assert a[BURN_IN + n - 1] == b[BURN_IN + n - 1];
    }
  }

  lemma SignalLooksBack(a: seq<Pair>, b: seq<Pair>, step: nat)
    requires BURN_IN + step <= |a| <= |b| && a == b[..|a|]
    ensures SignalPart(a, step) == SignalPart(b, step)
  {
    hide Predicted, HistoryOf;
    assert a[..BURN_IN + step] == b[..BURN_IN + step];
    assert a[BURN_IN + step - 1] == b[BURN_IN + step - 1];
  }

  // ---------------------------------------------------------------- acceptance by the parser

  ghost predicate AllOk(pages: seq<Page>, events: seq<EventRecord>) {
    forall i | 0 <= i < |events| :: EventOk(pages, events, i)
  }

  ghost function Realized(events: seq<EventRecord>): set<(nat, nat)> { RealizedBefore(events, |events|) }

  ghost function Targets(events: seq<EventRecord>): set<(nat, nat, nat)> { TargetsBefore(events, |events|) }

  /** What came before a position does not depend on what follows it. */
  lemma PrefixSets(events: seq<EventRecord>, longer: seq<EventRecord>, n: nat)
    requires n <= |events| && events <= longer
    ensures RealizedBefore(longer, n) == RealizedBefore(events, n)
    ensures TargetsBefore(longer, n) == TargetsBefore(events, n)
  {
    assert forall j | 0 <= j < n :: longer[j] == events[j];
    assert RealizedBefore(longer, n) <= RealizedBefore(events, n) <= RealizedBefore(longer, n);
    assert TargetsBefore(longer, n) <= TargetsBefore(events, n) <= TargetsBefore(longer, n);
  }

  lemma EventOkGrows(pages: seq<Page>, events: seq<EventRecord>, longer: seq<EventRecord>, i: nat)
    requires i < |events| && events <= longer && EventOk(pages, events, i)
    ensures EventOk(pages, longer, i)
  {
    PrefixSets(events, longer, i);
    hide PredictionsOk, RealizedBefore, TargetsBefore;
  }

  lemma RealizedGrows(events: seq<EventRecord>, n: nat)
    requires n < |events|
    ensures RealizedBefore(events, n + 1)
      == RealizedBefore(events, n)
        + (if events[n].event.Demand? then {(events[n].event.request, events[n].event.step)} else {})
  {}

  lemma TargetsGrow(events: seq<EventRecord>, n: nat)
    requires n < |events|
    ensures
      var e := events[n].event;
      TargetsBefore(events, n + 1)
        == TargetsBefore(events, n) + (if e.Signal? then {(e.request, e.targetStep, e.layer)} else {})
  {}

  lemma SetsGrow(events: seq<EventRecord>, e: Event)
    ensures Realized(Push(events, e)) == Realized(events) + (if e.Demand? then {(e.request, e.step)} else {})
    ensures Targets(Push(events, e))
      == Targets(events) + (if e.Signal? then {(e.request, e.targetStep, e.layer)} else {})
    ensures RealizedBefore(Push(events, e), |events|) == Realized(events)
    ensures TargetsBefore(Push(events, e), |events|) == Targets(events)
  {
    hide RealizedBefore, TargetsBefore;
    var longer := Push(events, e);
    PrefixSets(events, longer, |events|);
    RealizedGrows(longer, |events|);
    TargetsGrow(longer, |events|);
  }

  /** Everything so far concerns steps below `n` of request 0, and every signalled step is
      demanded; `pending` allows for one signal whose step is just beginning. */
  ghost predicate Through(pages: seq<Page>, events: seq<EventRecord>, n: nat, pending: bool) {
    && AllOk(pages, events)
    && (forall r | r in Realized(events) :: r.0 == 0 && r.1 < n)
    && forall t | t in Targets(events) :: t.2 == 0 && ((t.0, t.1) in Realized(events) || (pending && t == (0, n, 0)))
  }

  lemma AppendOk(pages: seq<Page>, events: seq<EventRecord>, e: Event)
    requires AllOk(pages, events) && EventOk(pages, Push(events, e), |events|)
    ensures AllOk(pages, Push(events, e))
  {
    hide EventOk;
    forall i | 0 <= i < |events| ensures EventOk(pages, Push(events, e), i) {
      EventOkGrows(pages, events, Push(events, e), i);
    }
  }

  lemma AppendSignal(pages: seq<Page>, events: seq<EventRecord>, n: nat, predictions: seq<Prediction>)
    requires Through(pages, events, n, false) && PredictionsOk(pages, 0, predictions) && n <= MAX_U64
    ensures Through(pages, Push(events, Signal(0, n, 0, predictions)), n, true)
  {
    var e := Signal(0, n, 0, predictions);
    SetsGrow(events, e);
    hide PredictionsOk;
    assert (0, n, 0) !in Targets(events);
    assert SignalOk(pages, Push(events, e), |events|);
    AppendOk(pages, events, e);
  }

  /** A demand of step `n`, the first or a later one. */
  lemma AppendDemand(pages: seq<Page>, events: seq<EventRecord>, n: nat, page: nat, first: bool, pending: bool)
    requires
      if first then Through(pages, events, n, pending)
      else Through(pages, events, n + 1, false) && (0, n) in Realized(events)
    requires page < |pages| && n <= MAX_U64
    ensures Through(pages, Push(events, Demand(0, n, page)), n + 1, false)
    ensures (0, n) in Realized(Push(events, Demand(0, n, page)))
  {
    var e := Demand(0, n, page);
    SetsGrow(events, e);
    assert DemandOk(pages, Push(events, e), |events|);
    AppendOk(pages, events, e);
  }

  lemma {:induction false} AppendDemands(pages: seq<Page>, events: seq<EventRecord>, n: nat, list: seq<nat>)
    requires Through(pages, events, n + 1, false) && (0, n) in Realized(events) && n <= MAX_U64
    requires forall p | p in list :: p < |pages|
    ensures Through(pages, PushAll(events, DemandsFor(list, n)), n + 1, false)
    decreases list
  {
    hide Through;
    if list != [] {
      assert list[0] in list && forall p | p in list[1..] :: p in list;
      AppendDemand(pages, events, n, list[0], false, false);
      AppendDemands(pages, Push(events, Demand(0, n, list[0])), n, list[1..]);
      assert DemandsFor(list, n)[1..] == DemandsFor(list[1..], n);
    }
  }

  lemma StepOk(pages: seq<Page>, events: seq<EventRecord>, n: nat, list: seq<nat>, pending: bool)
    requires Through(pages, events, n, pending) && n <= MAX_U64 && list != [] && forall p | p in list :: p < |pages|
    ensures Through(pages, PushAll(events, DemandsFor(list, n)), n + 1, false)
  {
    hide Through;
    assert list[0] in list && forall p | p in list[1..] :: p in list;
    AppendDemand(pages, events, n, list[0], true, pending);
    AppendDemands(pages, Push(events, Demand(0, n, list[0])), n, list[1..]);
    assert DemandsFor(list, n)[1..] == DemandsFor(list[1..], n);
  }

  lemma WellFormedIsOk(list: seq<Prediction>)
    requires WellFormed(list)
    ensures PredictionsOk(Catalogue(), 0, list)
  {
    forall i | 0 <= i < |list| ensures (0, list[i].expert) in Experts(Catalogue()) {
      EveryExpertListed(list[i].expert);
    }
    ScoreSumOfPair(list);
  }

  lemma ScoreSumOfPair(list: seq<Prediction>)
    requires WellFormed(list)
    ensures ScoreSum(list) <= PPM
  {
    if |list| == 1 { assert list[..0] == []; }
    if |list| == 2 {
      assert list[..1][..0] == [];
      assert ScoreSum(list[..1]) == list[0].score;
    }
  }

  ghost predicate AllValid(routes: seq<Pair>) { forall i | 0 <= i < |routes| :: ValidRoute(routes[i]) }

  lemma {:induction false} TraceThrough(routes: seq<Pair>, n: nat)
    requires BURN_IN + n <= |routes| && AllValid(routes) && n <= MAX_U64
    ensures Through(Catalogue(), Trace(routes, n), n, false)
  {
    hide Through, Trace;
    if n == 0 {
      TraceStarts(routes);
      NothingWrong();
    } else {
      TraceThrough(routes, n - 1);
      StepThrough(routes, n);
    }
  }

  lemma NothingWrong()
    ensures Through(Catalogue(), [], 0, false)
  {
    hide Catalogue;
    assert Realized([]) == {} && Targets([]) == {};
  }

  lemma StepThrough(routes: seq<Pair>, n: nat)
    requires 0 < n && BURN_IN + n <= |routes| && AllValid(routes) && n <= MAX_U64
    requires Through(Catalogue(), Trace(routes, n - 1), n - 1, false)
    ensures Through(Catalogue(), Trace(routes, n), n, false)
  {
    hide Through, Trace, Predicted, PushAll, HistoryOf, DemandsFor, PagesOf, PredictionsOk;
    PredictionsPass(routes, n - 1);
    SignalStep(Trace(routes, n - 1), n - 1, PredictionAt(routes, n - 1));
    PagesKnown(routes[BURN_IN + n - 1]);
    StepOk(Catalogue(), PushAll(Trace(routes, n - 1), SignalPart(routes, n - 1)), n - 1,
           PagesOf(routes[BURN_IN + n - 1]), true);
    TraceUnfolds(routes, n);
  }

  lemma PredictionsPass(routes: seq<Pair>, step: nat)
    requires BURN_IN + step <= |routes| && AllValid(routes)
    ensures WellFormed(PredictionAt(routes, step)) && PredictionsOk(Catalogue(), 0, PredictionAt(routes, step))
  {
    hide Predicted, PredictionsOk, WellFormed;
    PredictionsWellFormed(HistoryOf(routes[..BURN_IN + step]), routes[BURN_IN + step - 1]);
    WellFormedIsOk(PredictionAt(routes, step));
  }

  lemma SignalStep(events: seq<EventRecord>, n: nat, predictions: seq<Prediction>)
    requires Through(Catalogue(), events, n, false) && PredictionsOk(Catalogue(), 0, predictions) && n <= MAX_U64
    ensures
      Through(Catalogue(), PushAll(events, if predictions == [] then [] else [Signal(0, n, 0, predictions)]), n, true)
  {
    if predictions != [] {
      hide Through, PredictionsOk;
      AppendSignal(Catalogue(), events, n, predictions);
      assert [Signal(0, n, 0, predictions)][1..] == [];
    }
  }

  lemma PagesKnown(route: Pair)
    requires ValidRoute(route)
    ensures PagesOf(route) != [] && forall p | p in PagesOf(route) :: p < |Catalogue()|
  {}

  /** Every trace of valid routes passes all semantic checks of the parser. */
  lemma TraceAccepted(routes: seq<Pair>, n: nat)
    requires BURN_IN + n <= |routes| && AllValid(routes) && n <= MEASURED_STEPS
    ensures EventsOk(Catalogue(), Trace(routes, n))
  {
    TraceThrough(routes, n);
    TraceLength(routes, n);
    hide Trace;
  }

  // ---------------------------------------------------------------- acceptance by the experiment verifier

  /** A signal that names the coming step, with one or two different experts in sorted order. */
  predicate SignalFine(r: EventRecord, index: nat, step: nat) {
    && r.sequence == index && r.event.Signal?
    && r.event.request == 0 && r.event.targetStep == step && r.event.layer == 0
    && 1 <= |r.event.predictions| <= 2
    && (forall i | 0 <= i < |r.event.predictions| ::
          r.event.predictions[i].expert <= 127 && 100_000 <= r.event.predictions[i].score <= 1_000_000)
    && (|r.event.predictions| == 2 ==>
          && r.event.predictions[0].expert != r.event.predictions[1].expert
          && RanksBefore(r.event.predictions[0], r.event.predictions[1]))
  }

  predicate DemandFine(r: EventRecord, index: nat, step: nat) {
    r.sequence == index && r.event.Demand? && r.event.request == 0 && r.event.step == step && r.event.page <= 383
  }

  /** Six demands: the three pages of one expert, then the three pages of another. */
  predicate RouteFine(events: seq<EventRecord>, index: nat, step: nat) {
    && index + 6 <= |events|
    && (forall k | index <= k < index + 6 :: DemandFine(events[k], k, step))
    && var a, b := events[index].event.page, events[index + 3].event.page;
    && a % 3 == 0 && b % 3 == 0 && a / 3 != b / 3
    && events[index + 1].event.page == a + 1 && events[index + 2].event.page == a + 2
    && events[index + 4].event.page == b + 1 && events[index + 5].event.page == b + 2
  }

  /** The verifier's walk over the events: an optional signal and a route per step, nothing left. */
  predicate Scan(events: seq<EventRecord>, index: nat, step: nat, n: nat)
    requires step <= n
    decreases n - step
  {
    if step == n then index == |events|
    else
      var signalled := index < |events| && events[index].event.Signal?;
      var start := if signalled then index + 1 else index;
      && (signalled ==> SignalFine(events[index], index, step)) && RouteFine(events, start, step)
      && Scan(events, start + 6, step + 1, n)
  }

  /** Where the route of a step starts. */
  function RouteStart(routes: seq<Pair>, step: nat): nat
    requires BURN_IN + step <= |routes|
  {
    |Trace(routes, step)| + |SignalPart(routes, step)|
  }

  lemma SixDemands(base: seq<EventRecord>, route: Pair, step: nat)
    requires ValidRoute(route)
    ensures
      var events := PushAll(base, DemandsFor(PagesOf(route), step));
      |events| == |base| + 6 && RouteFine(events, |base|, step)
  {
    hide PushAll, DemandsFor;
    DemandCount(PagesOf(route), step);
    var events := PushAll(base, DemandsFor(PagesOf(route), step));
    forall k | |base| <= k < |base| + 6
      ensures DemandFine(events[k], k, step) && events[k].event.page == PagesOf(route)[k - |base|]
    {
      PushAllAt(base, DemandsFor(PagesOf(route), step), k - |base|);
    }
  }

  lemma PushAllAt(events: seq<EventRecord>, more: seq<Event>, i: nat)
    requires i < |more|
    ensures PushAll(events, more)[|events| + i] == EventRecord(|events| + i, more[i])
  {}

  lemma RouteAccepted(routes: seq<Pair>, step: nat)
    requires BURN_IN + step < |routes| && AllValid(routes)
    ensures RouteFine(Trace(routes, step + 1), RouteStart(routes, step), step)
    ensures |Trace(routes, step + 1)| == RouteStart(routes, step) + 6
  {
    hide Trace, SignalPart, PushAll, DemandsFor, PagesOf, RouteFine;
    TraceUnfolds(routes, step + 1);
    assert ValidRoute(routes[BURN_IN + step]);
    SixDemands(PushAll(Trace(routes, step), SignalPart(routes, step)), routes[BURN_IN + step], step);
  }

  lemma SignalRecord(base: seq<EventRecord>, predictions: seq<Prediction>, step: nat)
    requires WellFormed(predictions) && predictions != []
    ensures
      var events := PushAll(base, [Signal(0, step, 0, predictions)]);
      |events| == |base| + 1 && events[|base|].event.Signal? && SignalFine(events[|base|], |base|, step)
  {
    hide PushAll;
    PushAllAt(base, [Signal(0, step, 0, predictions)], 0);
  }

  lemma SignalAccepted(routes: seq<Pair>, step: nat)
    requires BURN_IN + step < |routes| && AllValid(routes)
    ensures
      var events, index := Trace(routes, step + 1), |Trace(routes, step)|;
      && index < |events|
      && (events[index].event.Signal? ==> SignalFine(events[index], index, step) && |SignalPart(routes, step)| == 1)
      && (!events[index].event.Signal? ==> |SignalPart(routes, step)| == 0)
  {
    hide Trace, PushAll, DemandsFor, Predicted, HistoryOf, RouteFine, SignalFine, WellFormed, PredictionsOk, PagesOf;
    RouteAccepted(routes, step);
    if SignalPart(routes, step) == [] {
      FirstIsDemand(routes, step);
    } else {
      PredictionsPass(routes, step);
      SignalRecord(Trace(routes, step), PredictionAt(routes, step), step);
      TraceUnfolds(routes, step + 1);
    }
  }

  lemma FirstIsDemand(routes: seq<Pair>, step: nat)
    requires BURN_IN + step < |routes| && AllValid(routes) && SignalPart(routes, step) == []
    ensures Trace(routes, step + 1)[|Trace(routes, step)|].event.Demand?
  {
    RouteAccepted(routes, step);
    hide Trace, SignalPart;
  }

  /** A route stays fine when more events follow. */
  lemma RouteFineGrows(events: seq<EventRecord>, longer: seq<EventRecord>, index: nat, step: nat)
    requires events <= longer && RouteFine(events, index, step)
    ensures RouteFine(longer, index, step)
  {
    assert forall k | index <= k < index + 6 :: longer[k] == events[k];
  }

  lemma {:induction false} ScanAccepts(routes: seq<Pair>, step: nat, n: nat)
    requires step <= n && BURN_IN + n <= |routes| && AllValid(routes)
    ensures Scan(Trace(routes, n), |Trace(routes, step)|, step, n)
    decreases n - step
  {
    hide Trace, SignalPart, RouteFine, SignalFine, Scan;
    if step == n {
      ScanEnds(Trace(routes, n), n);
    } else {
      ScanAccepts(routes, step + 1, n);
      TracePrefix(routes, step + 1, n);
      SignalAccepted(routes, step);
      RouteAccepted(routes, step);
      RouteFineGrows(Trace(routes, step + 1), Trace(routes, n), RouteStart(routes, step), step);
      assert Trace(routes, n)[|Trace(routes, step)|] == Trace(routes, step + 1)[|Trace(routes, step)|];
      ScanStep(Trace(routes, n), |Trace(routes, step)|, step, n, |SignalPart(routes, step)|);
    }
  }

  lemma ScanEnds(events: seq<EventRecord>, n: nat)
    ensures Scan(events, |events|, n, n)
  {}

  lemma ScanStep(events: seq<EventRecord>, index: nat, step: nat, n: nat, signals: nat)
    requires step < n && index < |events|
    requires
      if events[index].event.Signal? then SignalFine(events[index], index, step) && signals == 1 else signals == 0
    requires RouteFine(events, index + signals, step) && Scan(events, index + signals + 6, step + 1, n)
    ensures Scan(events, index, step, n)
  {
    hide SignalFine, RouteFine;
  }

  /** Every trace of valid routes has the layout the experiment verifier demands. */
  lemma LayoutAccepted(routes: seq<Pair>, n: nat)
    requires BURN_IN + n <= |routes| && AllValid(routes)
    ensures Scan(Trace(routes, n), 0, 0, n)
  {
    hide Scan;
    ScanAccepts(routes, 0, n);
    TraceStarts(routes);
  }

  // ---------------------------------------------------------------- generation

  /** The events a family and a stream lead to; None when the stream is too short. */
  ghost function Expected(family: Family, stream: seq<Word>, n: nat): Option<seq<EventRecord>> {
    match RoutesUpTo(family, stream, BURN_IN + n)
    case None => None
    case Some(p) => Some(Trace(p.routes, n))
  }

  /** For every family and every stream of words, asking for more steps only appends events. */
  lemma LongerOnlyAppends(family: Family, stream: seq<Word>, m: nat, n: nat)
    requires m <= n && Expected(family, stream, n).Some?
    ensures Expected(family, stream, m).Some? && Expected(family, stream, m).value <= Expected(family, stream, n).value
  {
    hide RoutesUpTo, Trace;
    RoutesOnlyAppend(family, stream, BURN_IN + m, BURN_IN + n);
    var long := RoutesUpTo(family, stream, BURN_IN + n).value.routes;
    TraceLooksBack(long[..BURN_IN + m], long, m);
    TracePrefix(long, m, n);
  }

  /** Every emitted trace is accepted by the parser and by the experiment verifier. */
  lemma ExpectedAccepted(family: Family, stream: seq<Word>, n: nat)
    requires n <= MEASURED_STEPS && Expected(family, stream, n).Some?
    ensures EventsOk(Catalogue(), Expected(family, stream, n).value) && Scan(Expected(family, stream, n).value, 0, 0, n)
  {
    hide Trace, EventsOk, Scan;
    var routes := RoutesUpTo(family, stream, BURN_IN + n).value.routes;
    TraceAccepted(routes, n);
    LayoutAccepted(routes, n);
  }

  // ---------------------------------------------------------------- the serialised size

  /** Appending events whose lines stay under a bound adds at most the bound for each. */
  lemma PushAllSize(events: seq<EventRecord>, more: seq<Event>, bound: nat)
    requires forall i | 0 <= i < |more| :: |EventText(EventRecord(|events| + i, more[i]))| < bound
    ensures |TextOf(EventTexts(PushAll(events, more)))| <= |TextOf(EventTexts(events))| + bound * |more|
  {
    hide TextOf, EventText, PushAll;
    var added := NewTexts(|events|, more);
    PushAllTexts(events, more);
    TextConcat(EventTexts(events), added);
    TextSize(added, bound);
  }

  function NewTexts(start: nat, more: seq<Event>): (t: seq<string>)
    ensures |t| == |more| && forall i | 0 <= i < |more| :: t[i] == EventText(EventRecord(start + i, more[i]))
  {
    seq(|more|, i requires 0 <= i < |more| => EventText(EventRecord(start + i, more[i])))
  }

  lemma PushAllTexts(events: seq<EventRecord>, more: seq<Event>)
    ensures EventTexts(PushAll(events, more)) == EventTexts(events) + NewTexts(|events|, more)
  {
    hide EventText;
    var all, t := PushAll(events, more), EventTexts(events) + NewTexts(|events|, more);
    forall i | 0 <= i < |all| ensures EventText(all[i]) == t[i] {
      if i < |events| { assert all[i] == events[i]; } else { assert all[i] == EventRecord(i, more[i - |events|]); }
    }
  }

  lemma SignalSize(routes: seq<Pair>, events: seq<EventRecord>, step: nat)
    requires BURN_IN + step <= |routes| && AllValid(routes) && step < 10_000 && |events| < 90_000
    ensures |TextOf(EventTexts(PushAll(events, SignalPart(routes, step))))| <= |TextOf(EventTexts(events))| + 200
    ensures forall i | 0 <= i < |SignalPart(routes, step)| ::
      |EventText(EventRecord(|events| + i, SignalPart(routes, step)[i]))| < 200
  {
    hide TextOf, PredictionAt, PredictionsOk, AllValid;
    PredictionsPass(routes, step);
    if PredictionAt(routes, step) != [] { SignalShort(|events|, step, PredictionAt(routes, step)); }
    PushAllSize(events, SignalPart(routes, step), 200);
  }

  lemma DemandsSize(events: seq<EventRecord>, route: Pair, step: nat)
    requires ValidRoute(route) && step < 10_000 && |events| < 90_000
    ensures
      |TextOf(EventTexts(PushAll(events, DemandsFor(PagesOf(route), step))))| <= |TextOf(EventTexts(events))| + 480
    ensures forall i | 0 <= i < |DemandsFor(PagesOf(route), step)| ::
      |EventText(EventRecord(|events| + i, DemandsFor(PagesOf(route), step)[i]))| < 80
  {
    hide TextOf, DemandsFor, DemandText;
    var demands := DemandsFor(PagesOf(route), step);
    DemandCount(PagesOf(route), step);
    PagesKnown(route);
    forall i | 0 <= i < |demands| ensures |EventText(EventRecord(|events| + i, demands[i]))| < 80 {
      assert PagesOf(route)[i] in PagesOf(route);
      DemandShort(|events| + i, step, PagesOf(route)[i]);
    }
    PushAllSize(events, demands, 80);
  }

  /** At most 680 bytes and a short line for every event of every step. */
  lemma {:induction false} TraceSize(routes: seq<Pair>, n: nat)
    requires BURN_IN + n <= |routes| && AllValid(routes) && n <= MEASURED_STEPS
    ensures |TextOf(EventTexts(Trace(routes, n)))| <= 680 * n
    ensures forall i | 0 <= i < |Trace(routes, n)| :: |EventText(Trace(routes, n)[i])| < 200
  {
    hide TextOf, Trace, EventText, SignalPart, DemandsFor, PagesOf;
    TraceLength(routes, n);
    if n == 0 {
      TraceStarts(routes);
      NoLines();
      assert EventTexts([]) == [];
    } else {
      var step, route := n - 1, routes[BURN_IN + n - 1];
      TraceSize(routes, step);
      TraceLength(routes, step);
      TraceUnfolds(routes, n);
      var base := Trace(routes, step);
      var signalled := PushAll(base, SignalPart(routes, step));
      AtMostOneSignal(routes, step);
      SignalSize(routes, base, step);
      DemandsSize(signalled, route, step);
      Appended(base, SignalPart(routes, step), 200);
      Appended(signalled, DemandsFor(PagesOf(route), step), 200);
    }
  }

  lemma Appended(events: seq<EventRecord>, more: seq<Event>, bound: nat)
    requires forall i | 0 <= i < |events| :: |EventText(events[i])| < bound
    requires forall i | 0 <= i < |more| :: |EventText(EventRecord(|events| + i, more[i]))| < bound
    ensures
      var all := PushAll(events, more);
      forall i | 0 <= i < |all| :: |EventText(all[i])| < bound
  {
    hide EventText;
    var all := PushAll(events, more);
    forall i | 0 <= i < |all| ensures |EventText(all[i])| < bound {
      if i < |events| { assert all[i] == events[i]; } else { assert all[i] == EventRecord(i, more[i - |events|]); }
    }
  }

  function Slug(family: Family): string {
    match family
    case StationaryZipf => "stationary-zipf"
    case ScanPollution => "scan-pollution"
    case PhaseShift => "phase-shift"
    case CyclicPressure => "cyclic-pressure"
    case MarkovClusters => "markov-clusters"
    case IidUniform => "iid-uniform"
  }

  /** At least two digits. */
  function Padded(n: nat): string { if n < 10 then "0" + Digits(n) else Digits(n) }

  function TraceId(family: Family, replicate: nat, n: nat): string {
    "m3-" + Slug(family) + "-r" + Padded(replicate) + "-n" + Digits(n)
  }

  predicate IdPart(s: string) { forall i | 0 <= i < |s| :: IdRest(s[i]) }

  lemma SlugPart(family: Family)
    ensures IdPart(Slug(family)) && |Slug(family)| <= 15
  {}

  lemma MarksPart()
    ensures IdPart("m3-") && IdPart("-r") && IdPart("-n")
  {}

  lemma DigitsPart(n: nat)
    ensures IdPart(Digits(n)) && IdPart(Padded(n))
  {
    hide Digits;
    var d := Digits(n);
    assert forall i | 0 <= i < |d| :: d[i] in d;
  }

  lemma PartsJoin(a: string, b: string)
    requires IdPart(a) && IdPart(b)
    ensures IdPart(a + b)
  {}

  lemma IdFits(family: Family, replicate: nat, n: nat)
    requires replicate <= MAX_U32 && n <= MEASURED_STEPS
    ensures TraceIdOk(TraceId(family, replicate, n))
  {
    hide Digits, Slug, IdPart, Ten;
    SlugPart(family);
    MarksPart();
    DigitsPart(replicate);
    DigitsPart(n);
    PartsJoin("m3-", Slug(family));
    PartsJoin("m3-" + Slug(family), "-r");
    PartsJoin("m3-" + Slug(family) + "-r", Padded(replicate));
    PartsJoin("m3-" + Slug(family) + "-r" + Padded(replicate), "-n");
    PartsJoin("m3-" + Slug(family) + "-r" + Padded(replicate) + "-n", Digits(n));
    TenDigits(replicate, n);
    IdStarts(TraceId(family, replicate, n), "m3-" + Slug(family));
  }

  lemma TenDigits(replicate: nat, n: nat)
    requires replicate <= MAX_U32 && n <= MEASURED_STEPS
    ensures |Padded(replicate)| <= 11 && |Digits(n)| <= 4
  {
    hide Digits;
    Tens();
    assert Ten(8) == 100_000_000 && Ten(9) == 1_000_000_000 && Ten(10) == 10_000_000_000;
    DigitsShort(replicate, 10);
    DigitsShort(n, 4);
  }

  lemma IdStarts(id: string, start: string)
    requires IdPart(id) && |id| <= 64 && start <= id && |start| > 0 && start[0] == 'm'
    ensures TraceIdOk(id)
  {}

  function HeaderOf(family: Family, replicate: nat, n: nat, pages: seq<PageRecord>, events: seq<EventRecord>): Header {
    Header(TraceId(family, replicate, n), |pages|, |events|, PAGE_BYTES)
  }

  /** The text of every trace in range stays within both ceilings of the serializer. */
  lemma TextFits(family: Family, replicate: nat, routes: seq<Pair>, n: nat, pages: seq<PageRecord>)
    requires BURN_IN + n <= |routes| && AllValid(routes) && n <= MEASURED_STEPS && replicate <= MAX_U32
    requires |pages| == |Catalogue()| && forall i | 0 <= i < |pages| :: pages[i] == PageRecord(i, Catalogue()[i])
    ensures
      var lines := TraceLines(HeaderOf(family, replicate, n, pages, Trace(routes, n)), pages, Trace(routes, n));
      WithinCeilings(lines)
  {
    hide TextOf, Trace, EventText, PageText, HeaderText, TraceId, TraceIdOk, AllValid;
    var events := Trace(routes, n);
    var h := HeaderOf(family, replicate, n, pages, events);
    TraceSize(routes, n);
    TraceLength(routes, n);
    IdFits(family, replicate, n);
    IdShort(h.id);
    HeaderShort(h);
    CatalogueSize(pages);
    TextConcat([HeaderText(h)] + PageTexts(pages), EventTexts(events));
    TextConcat([HeaderText(h)], PageTexts(pages));
    TextSize([HeaderText(h)], 300);
  }

  lemma IdShort(id: string)
    requires TraceIdOk(id)
    ensures |id| <= 64
  {}

  lemma CatalogueSize(pages: seq<PageRecord>)
    requires |pages| == |Catalogue()| && forall i | 0 <= i < |pages| :: pages[i] == PageRecord(i, Catalogue()[i])
    ensures |TextOf(PageTexts(pages))| <= 200 * |pages| && forall i | 0 <= i < |pages| :: |PageText(pages[i])| < 200
  {
    hide TextOf, PageText;
    forall i | 0 <= i < |pages| ensures |PageText(pages[i])| < 200 {
      PageShort(pages[i]);
    }
    TextSize(PageTexts(pages), 200);
  }

  datatype Generated =
    | Refused
    | Starved
    | Oversized
    | Emitted(pages: seq<PageRecord>, events: seq<EventRecord>, text: string)

  lemma {:induction false} StarvedStays(family: Family, stream: seq<Word>, m: nat, n: nat)
    requires m <= n && RoutesUpTo(family, stream, m).None?
    ensures RoutesUpTo(family, stream, n).None?
  {
    hide Begun, NextRoute;
    if m < n { StarvedStays(family, stream, m, n - 1); }
  }

  lemma RoutesStep(family: Family, stream: seq<Word>, n: nat)
    requires RoutesUpTo(family, stream, n).Some?
    ensures
      var p := RoutesUpTo(family, stream, n).value;
      RoutesUpTo(family, stream, n + 1) == match NextRoute(family, p.order, p.state, n)
                                           case None => None
                                           case Some(moved) => Some(Progress(p.order, p.routes + [moved.pair],
                                                                             moved.state))
  {
    hide NextRoute;
  }

  lemma HistoryStep(routes: seq<Pair>, route: Pair)
    ensures HistoryOf(routes + [route])
      == if routes == [] then [] else HistoryOf(routes) + [Observation(routes[|routes| - 1], route)]
    ensures routes == [] ==> HistoryOf(routes) == []
  {
    var longer := routes + [route];
    assert longer[..|longer| - 1] == routes && |longer| == |routes| + 1;
  }

  /** The generator and the predictor have seen exactly these routes. */
  ghost predicate InStep(g: RouteGenerator, p: CausalPredictor, family: Family, stream: seq<Word>, routes: seq<Pair>)
    reads g, g.rng, p
  {
    && g.Valid() && g.family == family && p.Valid() && p.history == HistoryOf(routes)
    && RoutesUpTo(family, stream, |routes|) == Some(Progress(g.order, routes, g.State()))
  }

  /** Draws the next route and shows it to the predictor. */
  method Advance(g: RouteGenerator, p: CausalPredictor, step: nat, previous: Option<Pair>,
                 ghost family: Family, ghost stream: seq<Word>, ghost routes: seq<Pair>)
    returns (r: Option<Pair>)
    requires InStep(g, p, family, stream, routes) && step == |routes|
    requires previous == if routes == [] then None else Some(routes[|routes| - 1])
    modifies g`cluster, g.rng, p
    ensures r.None? <==> RoutesUpTo(family, stream, step + 1).None?
    ensures r.Some? ==> InStep(g, p, family, stream, routes + [r.value]) && ValidRoute(r.value)
  {
    hide NextRoute, Exact, RoutesUpTo, HistoryOf;
    RoutesStep(family, stream, step);
    var route :- g.Next(step);
    HistoryStep(routes, route);
    if previous.Some? { p.Observe(previous.value, route); }
    r := Some(route);
  }

  lemma PushAllAppends(events: seq<EventRecord>, more: seq<Event>, e: Event)
    ensures PushAll(events, more + [e]) == Push(PushAll(events, more), e)
    decreases more
  {
    if more == [] {
      assert more + [e] == [e] && [e][1..] == [];
    } else {
      assert (more + [e])[1..] == more[1..] + [e];
      PushAllAppends(Push(events, more[0]), more[1..], e);
    }
  }

  lemma {:induction false} DemandsAppend(pages: seq<nat>, page: nat, step: nat)
    ensures DemandsFor(pages + [page], step) == DemandsFor(pages, step) + [Demand(0, step, page)]
  {
    if pages == [] {
      assert pages + [page] == [page] && [page][1..] == [];
    } else {
      assert (pages + [page])[1..] == pages[1..] + [page];
      DemandsAppend(pages[1..], page, step);
    }
  }

  method PushDemands(events: seq<EventRecord>, step: nat, route: Pair) returns (r: seq<EventRecord>)
    ensures r == PushAll(events, DemandsFor(PagesOf(route), step))
  {
    hide PushAll, DemandsFor;
    r := events;
    NoDemands(events, step);
    var experts := [route.first, route.second];
    var k: nat := 0;
    for i := 0 to 2
      invariant k == i * PAGES_PER_EXPERT && r == PushAll(events, DemandsFor(PagesOf(route)[..k], step))
    {
      for ordinal := 0 to PAGES_PER_EXPERT
        invariant k == i * PAGES_PER_EXPERT + ordinal && r == PushAll(events, DemandsFor(PagesOf(route)[..k], step))
      {
        var page := experts[i] * PAGES_PER_EXPERT + ordinal;
        assert page == PagesOf(route)[k];
        assert PagesOf(route)[..k + 1] == PagesOf(route)[..k] + [page];
        DemandsAppend(PagesOf(route)[..k], page, step);
        PushAllAppends(events, DemandsFor(PagesOf(route)[..k], step), Demand(0, step, page));
        r := r + [EventRecord(|r|, Demand(0, step, page))];
        k := k + 1;
      }
    }
    assert PagesOf(route)[..6] == PagesOf(route);
  }

  lemma NoDemands(events: seq<EventRecord>, step: nat)
    ensures PushAll(events, DemandsFor([], step)) == events
  {}

  method PushSignal(events: seq<EventRecord>, step: nat, predictions: seq<Prediction>, ghost routes: seq<Pair>)
    returns (r: seq<EventRecord>)
    requires BURN_IN + step <= |routes| && predictions == PredictionAt(routes, step)
    ensures r == PushAll(events, SignalPart(routes, step))
  {
    if predictions == [] { return events; }
    r := events + [EventRecord(|events|, Signal(0, step, 0, predictions))];
    assert [Signal(0, step, 0, predictions)][1..] == [];
  }

  /** Burn-in: the routes before the first measured one, all seen by the predictor. */
  method BurnIn(g: RouteGenerator, p: CausalPredictor, ghost family: Family, ghost stream: seq<Word>)
    returns (last: Option<Pair>, first: seq<Prediction>, ghost routes: seq<Pair>)
    requires InStep(g, p, family, stream, [])
    modifies g`cluster, g.rng, p
    ensures last.None? ==> RoutesUpTo(family, stream, BURN_IN).None?
    ensures last.Some? ==>
      |routes| == BURN_IN && InStep(g, p, family, stream, routes) && last.value == routes[BURN_IN - 1]
    ensures last.Some? ==> first == PredictionAt(routes, 0)
  {
    hide RoutesUpTo, Predicted, Exact, HistoryOf;
    routes, last, first := [], None, [];
    for step := 0 to BURN_IN
      invariant |routes| == step && InStep(g, p, family, stream, routes)
      invariant last == if routes == [] then None else Some(routes[|routes| - 1])
      invariant step > 0 ==> first == Predicted(HistoryOf(routes), routes[|routes| - 1])
    {
      var route := Advance(g, p, step, last, family, stream, routes);
      if route.None? {
        StarvedStays(family, stream, step + 1, BURN_IN);
        return None, [], routes;
      }
      routes := routes + [route.value];
      last := route;
      first := p.Predict(route.value);
    }
    assert routes[..BURN_IN] == routes;
  }

  /** What the measured loop has emitted before a step: earlier steps and this step's signal. */
  ghost predicate EmittedSoFar(events: seq<EventRecord>, routes: seq<Pair>, step: nat, n: nat) {
    && |routes| == BURN_IN + step
    && events == if step < n then PushAll(Trace(routes, step), SignalPart(routes, step)) else Trace(routes, step)
  }

  lemma EmitsOn(before: seq<EventRecord>, after: seq<EventRecord>, routes: seq<Pair>, route: Pair, step: nat, n: nat)
    requires step < n && EmittedSoFar(before, routes, step, n)
    requires after == PushAll(before, DemandsFor(PagesOf(route), step))
    ensures after == Trace(routes + [route], step + 1)
  {
    hide PushAll, DemandsFor, PagesOf, Predicted;
    var longer := routes + [route];
    assert longer[..|routes|] == routes;
    TraceLooksBack(routes, longer, step);
    assert longer[..BURN_IN + step] == routes[..BURN_IN + step];
    assert SignalPart(longer, step) == SignalPart(routes, step);
    TraceUnfolds(longer, step + 1);
  }

  method EmitStep(g: RouteGenerator, p: CausalPredictor, step: nat, n: nat, events: seq<EventRecord>, previous: Pair,
                  ghost family: Family, ghost stream: seq<Word>, ghost routes: seq<Pair>)
    returns (route: Option<Pair>, r: seq<EventRecord>)
    requires step < n && InStep(g, p, family, stream, routes) && EmittedSoFar(events, routes, step, n)
    requires previous == routes[|routes| - 1]
    modifies g`cluster, g.rng, p
    ensures route.None? ==> RoutesUpTo(family, stream, |routes| + 1).None?
    ensures route.Some? ==> InStep(g, p, family, stream, routes + [route.value])
    ensures route.Some? ==> ValidRoute(route.value) && EmittedSoFar(r, routes + [route.value], step + 1, n)
  {
    hide RoutesUpTo, Predicted, Exact, PushAll, DemandsFor, PagesOf, Trace, HistoryOf, SignalPart;
    r := events;
    route := Advance(g, p, BURN_IN + step, Some(previous), family, stream, routes);
    if route.None? { return; }
    r := PushDemands(events, step, route.value);
    EmitsOn(events, r, routes, route.value, step, n);
    ghost var longer := routes + [route.value];
    if step + 1 < n {
      var predictions := p.Predict(route.value);
      assert longer[..BURN_IN + (step + 1)] == longer;
      r := PushSignal(r, step + 1, predictions, longer);
    }
  }

  method Emit(g: RouteGenerator, p: CausalPredictor, n: nat, last: Pair, first: seq<Prediction>,
              ghost family: Family, ghost stream: seq<Word>, ghost burnt: seq<Pair>)
    returns (ok: bool, events: seq<EventRecord>)
    requires 0 < n && InStep(g, p, family, stream, burnt) && |burnt| == BURN_IN && last == burnt[BURN_IN - 1]
    requires first == PredictionAt(burnt, 0)
    modifies g`cluster, g.rng, p
    ensures !ok ==> Expected(family, stream, n).None?
    ensures ok ==> Expected(family, stream, n) == Some(events)
  {
    hide RoutesUpTo, PredictionAt, Exact, Trace, PushAll, SignalPart, HistoryOf;
    ghost var routes := burnt;
    TraceStarts(burnt);
    events := PushSignal([], 0, first, burnt);
    var previous := last;
    for step := 0 to n
      invariant EmittedSoFar(events, routes, step, n) && InStep(g, p, family, stream, routes)
      invariant previous == routes[|routes| - 1]
    {
      var route, more := EmitStep(g, p, step, n, events, previous, family, stream, routes);
      if route.None? {
        StarvedStays(family, stream, BURN_IN + step + 1, BURN_IN + n);
        return false, [];
      }
      events, previous := more, route.value;
      routes := routes + [route.value];
    }
    ok := true;
  }

  /** Generation. It refuses exactly the lengths out of range, needs only enough words, and what
      it emits passes the parser and the experiment verifier and fits the serializer. */
  method GenerateTrace(family: Family, replicate: nat, stream: seq<Word>, n: nat) returns (r: Generated)
    requires replicate <= MAX_U32
    ensures r.Refused? <==> n == 0 || n > MEASURED_STEPS
    ensures r.Starved? <==> 0 < n <= MEASURED_STEPS && Expected(family, stream, n).None?
    ensures !r.Oversized?
    ensures r.Emitted? ==> Expected(family, stream, n) == Some(r.events) && CatalogueOk(PAGE_BYTES, r.pages)
    ensures r.Emitted? ==>
      |r.pages| == |Catalogue()| && forall i | 0 <= i < |r.pages| :: r.pages[i] == PageRecord(i, Catalogue()[i])
    ensures r.Emitted? ==> EventsOk(Catalogue(), r.events) && Scan(r.events, 0, 0, n)
    ensures r.Emitted? ==>
      var h := HeaderOf(family, replicate, n, r.pages, r.events);
      && Declares(h, r.pages, r.events)
      && r.text == TextOf(TraceLines(h, r.pages, r.events)) && |r.text| <= MAX_TRACE_BYTES
  {
    if n == 0 || n > MEASURED_STEPS { return Refused; }
    hide Expected, EventsOk, Scan, CatalogueOk, TraceLines, TextOf, Catalogue, Declares, Acceptable,
         WithinCeilings, HeaderOf;
    var events := Produce(family, stream, n);
    if events.None? { return Starved; }
    ExpectedAccepted(family, stream, n);
    var pages := PageCatalog();
    ExpectedSerializes(family, replicate, stream, n, pages);
    var text := SerializeTrace(HeaderOf(family, replicate, n, pages, events.value), pages, events.value);
    if text.None? { return Oversized; }
    r := Emitted(pages, events.value, text.value);
  }

  lemma ExpectedSerializes(family: Family, replicate: nat, stream: seq<Word>, n: nat, pages: seq<PageRecord>)
    requires 0 < n <= MEASURED_STEPS && replicate <= MAX_U32 && Expected(family, stream, n).Some?
    requires CatalogueOk(PAGE_BYTES, pages) && EventsOk(Catalogue(), Expected(family, stream, n).value)
    requires |pages| == |Catalogue()| && forall i | 0 <= i < |pages| :: pages[i] == PageRecord(i, Catalogue()[i])
    ensures
      var events := Expected(family, stream, n).value;
      var h := HeaderOf(family, replicate, n, pages, events);
      var lines := TraceLines(h, pages, events);
      && Acceptable(h, pages, events) && Declares(h, pages, events)
      && WithinCeilings(lines) && |TextOf(lines)| <= MAX_TRACE_BYTES
  {
    hide Expected, EventsOk, CatalogueOk, TraceLines, TextOf, TraceId, TraceIdOk, Catalogue;
    ExpectedFits(family, replicate, stream, n, pages);
    IdFits(family, replicate, n);
    assert Pages(pages) == Catalogue();
  }

  lemma ExpectedFits(family: Family, replicate: nat, stream: seq<Word>, n: nat, pages: seq<PageRecord>)
    requires n <= MEASURED_STEPS && replicate <= MAX_U32 && Expected(family, stream, n).Some?
    requires |pages| == |Catalogue()| && forall i | 0 <= i < |pages| :: pages[i] == PageRecord(i, Catalogue()[i])
    ensures
      var events := Expected(family, stream, n).value;
      var lines := TraceLines(HeaderOf(family, replicate, n, pages, events), pages, events);
      WithinCeilings(lines)
  {
    hide Trace, TextOf, TraceLines, TraceId;
    TextFits(family, replicate, RoutesUpTo(family, stream, BURN_IN + n).value.routes, n, pages);
  }

  method Produce(family: Family, stream: seq<Word>, n: nat) returns (r: Option<seq<EventRecord>>)
    requires n > 0
    ensures r == Expected(family, stream, n)
  {
    hide Trace, Begun, RoutesUpTo, PredictionAt;
    NoRoutesYet(family, stream);
    var g := Begin(family, stream);
    if g.None? {
      StarvedStays(family, stream, 0, BURN_IN + n);
      return None;
    }
    var p := new CausalPredictor();
    var last, first, burnt := BurnIn(g.value, p, family, stream);
    if last.None? {
      StarvedStays(family, stream, BURN_IN, BURN_IN + n);
      return None;
    }
    var ok, events := Emit(g.value, p, n, last.value, first, family, stream, burnt);
    r := if ok then Some(events) else None;
  }

  lemma NoRoutesYet(family: Family, stream: seq<Word>)
    ensures RoutesUpTo(family, stream, 0) == Begun(family, stream) && HistoryOf([]) == []
  {}
}
