/** The semantic checks of `parse_trace` in `oracle/cache_policy.py`: what a page catalogue and
    an event stream must satisfy, stated over positions, and the one-pass check with running
    dictionaries and sets that decides it. */
module TraceParser {
  import opened Common
  import opened CacheModel

  const MAX_PAGES: nat := 4_096
  const MAX_PREDICTIONS: nat := 16

  datatype PageRecord = PageRecord(id: nat, page: Page)

  datatype EventRecord = EventRecord(sequence: nat, event: Event)

  // ---------------------------------------------------------------- catalogue

  predicate PageOk(quantum: nat, p: Page)
    requires quantum > 0
  {
    && 0 < p.logical <= p.charge <= MAX_U64 && p.charge % quantum == 0
    && (p.role.Expert? ==> p.role.layer <= MAX_U32 && p.role.expert <= MAX_U32 && p.role.ordinal <= MAX_U32)
  }

  /** Dense identifiers, sane sizes, and no expert page listed twice. */
  ghost predicate CatalogueOk(quantum: nat, records: seq<PageRecord>) {
    && 0 < quantum <= MAX_U64 && |records| <= MAX_PAGES
    && (forall i | 0 <= i < |records| :: records[i].id == i && PageOk(quantum, records[i].page))
    && forall i, j | 0 <= i < j < |records| && records[i].page.role.Expert? ::
         records[i].page.role != records[j].page.role
  }

  method CheckCatalogue(quantum: nat, records: seq<PageRecord>) returns (ok: bool)
    ensures ok <==> CatalogueOk(quantum, records)
  {
    if quantum == 0 || quantum > MAX_U64 || |records| > MAX_PAGES {
      return false;
    }
    var tuples: set<PageClass> := {};
    for i := 0 to |records|
      invariant tuples == set k | 0 <= k < i && records[k].page.role.Expert? :: records[k].page.role
      invariant CatalogueOk(quantum, records[..i])
    {
      var r := records[i];
      if r.id != i || !PageOk(quantum, r.page) || r.page.role in tuples {
        if r.id == i && PageOk(quantum, r.page) {
          var k :| 0 <= k < i && records[k].page.role.Expert? && records[k].page.role == r.page.role;
        }
        return false;
      }
      if r.page.role.Expert? {
        tuples := tuples + {r.page.role};
      }
    }
    assert records[..|records|] == records;
    ok := true;
  }

  function Experts(pages: seq<Page>): set<(nat, nat)> {
    set i | 0 <= i < |pages| && pages[i].role.Expert? :: (pages[i].role.layer, pages[i].role.expert)
  }

  // ---------------------------------------------------------------- predictions

  function ScoreSum(predictions: seq<Prediction>): nat {
    if predictions == [] then 0
    else ScoreSum(predictions[..|predictions| - 1]) + predictions[|predictions| - 1].score
  }

  /** At most 16 distinct known experts whose scores total at most one million. */
  ghost predicate PredictionsOk(pages: seq<Page>, layer: nat, predictions: seq<Prediction>) {
    && |predictions| <= MAX_PREDICTIONS
    && (forall i | 0 <= i < |predictions| ::
          predictions[i].expert <= MAX_U32 && (layer, predictions[i].expert) in Experts(pages))
    && (forall i, j | 0 <= i < j < |predictions| :: predictions[i].expert != predictions[j].expert)
    && ScoreSum(predictions) <= PPM
  }

  lemma {:induction false} ScoreSumPrefix(predictions: seq<Prediction>, n: nat)
    requires n <= |predictions|
    ensures ScoreSum(predictions[..n]) <= ScoreSum(predictions)
    decreases |predictions| - n
  {
    if n == |predictions| {
      assert predictions[..n] == predictions;
    } else {
      assert predictions[..n + 1][..n] == predictions[..n];
      ScoreSumPrefix(predictions, n + 1);
    }
  }

  method CheckPredictions(pages: seq<Page>, layer: nat, predictions: seq<Prediction>) returns (ok: bool)
    ensures ok <==> PredictionsOk(pages, layer, predictions)
  {
    if |predictions| > MAX_PREDICTIONS {
      return false;
    }
    var catalogue := Experts(pages);
    var sum := 0;
    var seen: set<nat> := {};
    for i := 0 to |predictions|
      invariant sum == ScoreSum(predictions[..i]) <= PPM
      invariant seen == set k | 0 <= k < i :: predictions[k].expert
      invariant forall k | 0 <= k < i :: predictions[k].expert <= MAX_U32 && (layer, predictions[k].expert) in catalogue
      invariant forall k, l | 0 <= k < l < i :: predictions[k].expert != predictions[l].expert
    {
      var p := predictions[i];
      assert predictions[..i + 1][..i] == predictions[..i];
      ScoreSumPrefix(predictions, i + 1);
      if p.expert > MAX_U32 || p.expert in seen || (layer, p.expert) !in catalogue || p.score > PPM
        || sum + p.score > PPM {
        return false;
      }
      sum := sum + p.score;
      seen := seen + {p.expert};
    }
    assert predictions[..|predictions|] == predictions;
    ok := true;
  }

  // ---------------------------------------------------------------- events

  ghost function RealizedBefore(events: seq<EventRecord>, n: nat): set<(nat, nat)>
    requires n <= |events|
  {
    set j | 0 <= j < n && events[j].event.Demand? :: (events[j].event.request, events[j].event.step)
  }

  ghost function TargetsBefore(events: seq<EventRecord>, n: nat): set<(nat, nat, nat)>
    requires n <= |events|
  {
    set j | 0 <= j < n && events[j].event.Signal? ::
      (events[j].event.request, events[j].event.targetStep, events[j].event.layer)
  }

  /** A demand names a known page and does not go back in its request's steps. */
  ghost predicate DemandOk(pages: seq<Page>, events: seq<EventRecord>, i: nat)
    requires i < |events| && events[i].event.Demand?
  {
    var e := events[i].event;
    && e.request <= MAX_U64 && e.step <= MAX_U64 && e.page < |pages|
    && forall r | r in RealizedBefore(events, i) && r.0 == e.request :: r.1 <= e.step
  }

  /** A signal targets a strictly later step of its request, once per layer. */
  ghost predicate SignalOk(pages: seq<Page>, events: seq<EventRecord>, i: nat)
    requires i < |events| && events[i].event.Signal?
  {
    var e := events[i].event;
    && e.request <= MAX_U64 && e.targetStep <= MAX_U64 && e.layer <= MAX_U32
    && (forall r | r in RealizedBefore(events, i) && r.0 == e.request :: r.1 < e.targetStep)
    && (e.request, e.targetStep, e.layer) !in TargetsBefore(events, i)
    && PredictionsOk(pages, e.layer, e.predictions)
  }

  ghost predicate EventOk(pages: seq<Page>, events: seq<EventRecord>, i: nat)
    requires i < |events|
  {
    events[i].sequence == i
      && if events[i].event.Demand? then DemandOk(pages, events, i) else SignalOk(pages, events, i)
  }

  /** Every event is acceptable where it stands and every signalled step is eventually demanded. */
  ghost predicate EventsOk(pages: seq<Page>, events: seq<EventRecord>) {
    && |events| <= MAX_EVENTS
    && (forall i | 0 <= i < |events| :: EventOk(pages, events, i))
    && forall t | t in TargetsBefore(events, |events|) :: (t.0, t.1) in RealizedBefore(events, |events|)
  }

  /** The latest step demanded by each request. */
  ghost predicate Latest(latest: map<nat, nat>, realized: set<(nat, nat)>) {
    && (forall r | r in latest :: (r, latest[r]) in realized)
    && forall d | d in realized :: d.0 in latest && d.1 <= latest[d.0]
  }

  method CheckEvents(pages: seq<Page>, events: seq<EventRecord>) returns (ok: bool)
    ensures ok <==> EventsOk(pages, events)
  {
    if |events| > MAX_EVENTS {
      return false;
    }
    hide PredictionsOk;
    var latest: map<nat, nat> := map[];
    var realized: set<(nat, nat)> := {};
    var targets: set<(nat, nat, nat)> := {};
    for i := 0 to |events|
      invariant realized == RealizedBefore(events, i) && targets == TargetsBefore(events, i)
      invariant Latest(latest, realized)
      invariant forall k | 0 <= k < i :: EventOk(pages, events, k)
    {
      var e := events[i].event;
      if events[i].sequence != i {
        assert !EventOk(pages, events, i);
        return false;
      }
      match e {
        case Demand(request, step, page) =>
          if request > MAX_U64 || step > MAX_U64 || page >= |pages| || (request in latest && step < latest[request]) {
            assert !EventOk(pages, events, i);
            return false;
          }
          latest := latest[request := step];
          realized := realized + {(request, step)};
        case Signal(request, targetStep, layer, predictions) =>
          var good := CheckPredictions(pages, layer, predictions);
          if request > MAX_U64 || targetStep > MAX_U64 || layer > MAX_U32 || !good
             || (request in latest && targetStep <= latest[request]) || (request, targetStep, layer) in targets {
            assert !EventOk(pages, events, i);
            return false;
          }
          targets := targets + {(request, targetStep, layer)};
      }
    }
    ok := forall t | t in targets :: (t.0, t.1) in realized;
  }
}
