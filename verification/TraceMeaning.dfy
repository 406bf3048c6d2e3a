/** What a synthetic trace tells, read from its events alone: step by step the six pages of its route,
    and before them a signal exactly when the routes so far foretell something. */
module TraceMeaning {
  import opened CacheModel
  import opened Predictor
  import opened Routes
  import opened Sampling
  import opened TraceGenerator
  import opened TraceParser

  /** Every route with the one before it. */
  function Seen(routes: seq<Pair>): (h: seq<Observation>)
    requires routes != []
    ensures |h| == |routes| - 1
  {
    seq(|routes| - 1, i requires 0 <= i < |routes| - 1 => Observation(routes[i], routes[i + 1]))
  }

  lemma {:induction false} HistoryIsSeen(routes: seq<Pair>)
    requires routes != []
    ensures HistoryOf(routes) == Seen(routes)
  {
    if |routes| > 1 {
      var n := |routes| - 1;
      HistoryIsSeen(routes[..n]);
      assert Seen(routes) == Seen(routes[..n]) + [Observation(routes[n - 1], routes[n])];
    }
  }

  predicate Signalled(events: seq<EventRecord>, index: nat) { index < |events| && events[index].event.Signal? }

  function RouteAt(events: seq<EventRecord>, index: nat): nat { if Signalled(events, index) then index + 1 else index }

  function PageOf(route: Pair, o: nat): nat { if o < 3 then 3 * route.first + o else 3 * route.second + (o - 3) }

  /** Three pages of each expert of the route, in order. */
  ghost predicate Demanded(events: seq<EventRecord>, start: nat, step: nat, route: Pair) {
    && start + 6 <= |events|
    && forall i | start <= i < start + 6 :: events[i] == EventRecord(i, Demand(0, step, PageOf(route, i - start)))
  }

  /** The events of a step: its prediction from the routes before it, if there is one, and its route. */
  ghost predicate Tells(routes: seq<Pair>, events: seq<EventRecord>, index: nat, step: nat)
    requires 512 + step < |routes|
  {
    var before := routes[..512 + step];
    var predictions := if Signalled(events, index) then events[index].event.predictions else [];
    && Foretells(Seen(before), before[|before| - 1], predictions)
    && (Signalled(events, index) ==>
          predictions != [] && events[index] == EventRecord(index, Signal(0, step, 0, predictions)))
    && Demanded(events, RouteAt(events, index), step, routes[512 + step])
  }

  /** From this step and event on, step after step and nothing else. */
  ghost predicate TellsAll(routes: seq<Pair>, events: seq<EventRecord>, index: nat, step: nat, n: nat)
    requires step <= n && 512 + n <= |routes|
    decreases n - step
  {
    if step == n then index == |events|
    else Tells(routes, events, index, step) && TellsAll(routes, events, RouteAt(events, index) + 6, step + 1, n)
  }

  lemma SixPages(base: seq<EventRecord>, route: Pair, step: nat)
    ensures
      var events := PushAll(base, DemandsFor(PagesOf(route), step));
      |events| == |base| + 6 && Demanded(events, |base|, step, route)
  {
    hide PushAll, DemandsFor;
    var pages := PagesOf(route);
    DemandCount(pages, step);
    var events := PushAll(base, DemandsFor(pages, step));
    forall i | |base| <= i < |base| + 6
      ensures events[i] == EventRecord(i, Demand(0, step, PageOf(route, i - |base|)))
    {
      PushAllAt(base, DemandsFor(pages, step), i - |base|);
      assert pages[i - |base|] == PageOf(route, i - |base|);
    }
  }

  lemma SignalPlaced(base: seq<EventRecord>, predictions: seq<Prediction>, step: nat)
    ensures
      var events := PushAll(base, [Signal(0, step, 0, predictions)]);
      |events| == |base| + 1 && events[|base|] == EventRecord(|base|, Signal(0, step, 0, predictions))
  {
    hide PushAll;
    PushAllAt(base, [Signal(0, step, 0, predictions)], 0);
  }

  lemma PredictedBefore(routes: seq<Pair>, step: nat)
    requires BURN_IN + step < |routes|
    ensures
      var before := routes[..512 + step];
      Foretells(Seen(before), before[|before| - 1], PredictionAt(routes, step))
  {
    hide Foretells, Predicted;
    HistoryIsSeen(routes[..BURN_IN + step]);
    PredictedExactly(HistoryOf(routes[..BURN_IN + step]), routes[BURN_IN + step - 1]);
  }

  lemma StepTells(routes: seq<Pair>, step: nat)
    requires BURN_IN + step < |routes|
    ensures
      var events, index := Trace(routes, step + 1), |Trace(routes, step)|;
      Tells(routes, events, index, step) && |events| == RouteAt(events, index) + 6
  {
    hide Trace, PushAll, DemandsFor, PagesOf, Foretells, PredictionAt, Seen;
    TraceUnfolds(routes, step + 1);
    PredictedBefore(routes, step);
    var base := Trace(routes, step);
    var begun := PushAll(base, SignalPart(routes, step));
    SixPages(begun, routes[BURN_IN + step], step);
    var events := Trace(routes, step + 1);
    if SignalPart(routes, step) == [] {
      NothingPushed(base);
      assert events[|base|].event.Demand?;
    } else {
      SignalPlaced(base, PredictionAt(routes, step), step);
      assert events[|base|] == begun[|base|];
    }
  }

  lemma NothingPushed(events: seq<EventRecord>)
    ensures PushAll(events, []) == events
  {}

  lemma TellsLonger(routes: seq<Pair>, events: seq<EventRecord>, longer: seq<EventRecord>, index: nat, step: nat)
    requires 512 + step < |routes| && events <= longer && index < |events| && Tells(routes, events, index, step)
    ensures Tells(routes, longer, index, step) && RouteAt(longer, index) == RouteAt(events, index)
  {
    hide Foretells, Seen;
    assert longer[index] == events[index];
  }

  lemma {:induction false} TraceTellsFrom(routes: seq<Pair>, step: nat, n: nat)
    requires step <= n && BURN_IN + n <= |routes|
    ensures TellsAll(routes, Trace(routes, n), |Trace(routes, step)|, step, n)
    decreases n - step
  {
    hide Trace, Tells, RouteAt;
    if step < n {
      TraceTellsFrom(routes, step + 1, n);
      StepTells(routes, step);
      TracePrefix(routes, step + 1, n);
      StepStarts(routes, step);
      TellsLonger(routes, Trace(routes, step + 1), Trace(routes, n), |Trace(routes, step)|, step);
    }
  }

  lemma StepStarts(routes: seq<Pair>, step: nat)
    requires BURN_IN + step < |routes|
    ensures |Trace(routes, step)| < |Trace(routes, step + 1)|
  {
    hide Trace, Tells;
    StepTells(routes, step);
  }

  /** A trace tells its routes and what they foretell, and nothing else. */
  lemma TraceTells(routes: seq<Pair>, n: nat)
    requires BURN_IN + n <= |routes|
    ensures TellsAll(routes, Trace(routes, n), 0, 0, n)
  {
    hide TellsAll;
    TraceTellsFrom(routes, 0, n);
    TraceStarts(routes);
  }

  /** So do the events of every family and stream, about the routes drawn for them. */
  lemma GeneratedTells(family: Family, stream: seq<Word>, n: nat)
    requires Expected(family, stream, n).Some?
    ensures RoutesUpTo(family, stream, 512 + n).Some?
    ensures TellsAll(RoutesUpTo(family, stream, 512 + n).value.routes, Expected(family, stream, n).value, 0, 0, n)
  {
    hide TellsAll, RoutesUpTo, Trace;
    TraceTells(RoutesUpTo(family, stream, BURN_IN + n).value.routes, n);
  }
}
