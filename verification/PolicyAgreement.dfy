/** The replay kernel of `runnel-sim` with its own policies, against the independent reference in
    `oracle/cache_policy.py`: on every accepted trace, under LRU, SLRU, TinyLFU and router-admit, the
    policy's answers, computed from its own state and the kernel's entries and ledger, lead to the
    residents and the counters of the reference. */
module PolicyAgreement {
  import opened Common
  import opened DecisionLog
  import opened PolicyRefinement
  import opened Totals
  import A = Accounting
  import ByteSketch
  import K = Kernel
  import KernelAudit
  import M = CacheModel
  import P = OnlinePolicy
  import RouterScores
  import RouterSignals
  import S = CacheSimulator
  import TinyLfu
  import opened TraceParser

  // ---------------------------------------------------------------- one trace for both

  function ModelEvent(e: K.TraceEvent): M.Event {
    match e
    case Demand(_, request, step, page) => M.Demand(request, step, page)
    case Signal(_, request, targetStep, layer, predictions) => M.Signal(request, targetStep, layer, predictions)
  }

  function RecordsOf(events: seq<K.TraceEvent>): (records: seq<EventRecord>)
    ensures |records| == |events|
  {
    seq(|events|, i requires 0 <= i < |events| => EventRecord(events[i].sequence, ModelEvent(events[i])))
  }

  /** The events as the reference reads them. */
  ghost function ModelEvents(events: seq<K.TraceEvent>): seq<M.Event> { RouterScores.Stream(RecordsOf(events)) }

  lemma EventsAt(events: seq<K.TraceEvent>)
    ensures |ModelEvents(events)| == |events|
    ensures forall i | 0 <= i < |events| :: ModelEvents(events)[i] == ModelEvent(events[i])
  {}

  lemma EventsPrefix(events: seq<K.TraceEvent>, n: nat)
    requires n <= |events|
    ensures ModelEvents(events[..n]) == ModelEvents(events)[..n]
  {}

  ghost predicate Catalogued(cat: A.Catalogue, pages: seq<M.Page>) {
    && |pages| <= MAX_PAGES && (forall p | 0 <= p < |pages| :: pages[p].charge <= MAX_U64)
    && forall p | 0 <= p < |pages| :: cat(p) == A.Page(pages[p].logical, pages[p].charge)
  }

  /** The reference configuration of a policy specification. */
  ghost predicate Configures(spec: P.Spec, capacity: nat, cfg: M.Config) {
    && cfg.Valid() && cfg.capacity == capacity
    && match spec
       case NoCache => false
       case Lru => cfg.policy.LruPolicy?
       case Slru(fraction) => cfg.policy.SlruPolicy? && cfg.protectedFractionPpm == fraction
       case TinyLfu(sketch) => cfg.policy.TinyLfuPolicy? && cfg.sketch == sketch
       case RouterAdmit(c) =>
         && cfg.policy.RouterAdmitPolicy? && cfg.protectedFractionPpm == c.fraction
         && cfg.minimumScorePpm == c.minimum && cfg.maxExperts == c.maxExperts && c.maxPages > 0
       case RouterPrefetch(_) => false
  }

  // ---------------------------------------------------------------- the policy along a trace

  ghost function Next(ps: P.State, e: K.TraceEvent): (next: Option<P.State>)
    requires P.Valid(ps)
    ensures next.Some? ==> P.Valid(next.value)
  {
    match e
    case Demand(_, request, step, page) =>
      (match P.Entered(ps, request, step)
       case None => None
       case Some(t) =>
         if t.Frequency? then ByteSketch.SameObserved(t.config, t.sketch, page); Some(P.Observed(t, page))
         else Some(P.Observed(t, page)))
    case Signal(_, request, step, layer, predictions) =>
      if !ps.Routed? then Some(ps)
      else P.Recorded(ps, request, step, layer, M.Selected(predictions, ps.router.minimum, ps.router.maxExperts))
  }

  ghost function PolicyAt(start: P.State, events: seq<K.TraceEvent>): (ps: Option<P.State>)
    requires P.Valid(start)
    ensures ps.Some? ==> P.Valid(ps.value)
  {
    if events == [] then Some(start)
    else
      match PolicyAt(start, events[..|events| - 1])
      case None => None
      case Some(ps) => Next(ps, events[|events| - 1])
  }

  lemma StartTracks(spec: P.Spec, capacity: nat, ceiling: nat, cfg: M.Config)
    requires Configures(spec, capacity, cfg)
    ensures P.New(spec, capacity, ceiling).Some?
    ensures
      var start := P.New(spec, capacity, ceiling).value;
      && P.Valid(start) && Tracks(cfg, start, M.Start(cfg))
      && (start.Routed? ==> start.ledger == RouterSignals.Opened(ceiling))
  {
    if spec.TinyLfu? { ByteSketch.FreshView(cfg.sketch); }
  }

  // Router scores of accepted traces are at most a million.

  predicate SmallTable(table: map<nat, nat>) { forall expert | expert in table :: table[expert] <= P.PPM }

  ghost predicate SmallTables(scores: M.Scores) { forall key | key in scores :: SmallTable(scores[key]) }

  lemma {:induction false} TableSmall(list: seq<M.Prediction>)
    requires forall p | p in list :: p.score <= P.PPM
    ensures SmallTable(M.ScoreTable(list))
  {
    if list != [] {
      var n := |list| - 1;
      assert list[n] in list && forall p | p in list[..n] :: p in list;
      TableSmall(list[..n]);
    }
  }

  lemma {:induction false} ScoreInSum(list: seq<M.Prediction>, i: nat)
    requires i < |list|
    ensures list[i].score <= ScoreSum(list)
  {
    if i < |list| - 1 { ScoreInSum(list[..|list| - 1], i); }
  }

  lemma SelectionSmall(pages: seq<M.Page>, layer: nat, predictions: seq<M.Prediction>, minimum: nat, limit: nat)
    requires PredictionsOk(pages, layer, predictions)
    ensures SmallTable(M.ScoreTable(M.Selected(predictions, minimum, limit)))
  {
    hide M.ScoreTable, M.Ranked, SmallTable, ScoreSum;
    RouterSignals.RankedDistinct(predictions, minimum);
    forall p | p in M.Selected(predictions, minimum, limit) ensures p.score <= P.PPM {
      assert p in M.Ranked(predictions, minimum);
      var i :| 0 <= i < |predictions| && predictions[i] == p;
      ScoreInSum(predictions, i);
    }
    TableSmall(M.Selected(predictions, minimum, limit));
  }

  lemma {:induction false} ScoresSmall(cfg: M.Config, pages: seq<M.Page>, records: seq<EventRecord>, n: nat)
    requires cfg.Valid() && cfg.policy.RouterAdmitPolicy? && EventsOk(pages, records) && n <= |records|
    ensures M.AllKnown(pages, RouterScores.Stream(records))
    ensures SmallTables(RouterScores.ScoresAt(cfg, pages, records, n))
  {
    hide RouterScores.Stream, RouterScores.ScoresAt, EventsOk, EventOk, SmallTable, M.ScoreTable, M.Selected,
         M.AllKnown;
    RouterScores.AcceptedIsKnown(pages, records);
    if n == 0 {
      NoScores(cfg, pages, records);
    } else {
      ScoresSmall(cfg, pages, records, n - 1);
      RouterScores.ScoresStep(cfg, pages, records, n - 1);
      RouterSignals.AcceptedAt(pages, records, n - 1);
      var e := records[n - 1].event;
      if e.Signal? {
        SignalAccepted(pages, records, n - 1);
        SelectionSmall(pages, e.layer, e.predictions, cfg.minimumScorePpm, cfg.maxExperts);
      }
    }
  }

  lemma NoScores(cfg: M.Config, pages: seq<M.Page>, records: seq<EventRecord>)
    requires cfg.Valid() && M.AllKnown(pages, RouterScores.Stream(records))
    ensures RouterScores.ScoresAt(cfg, pages, records, 0) == map[]
  {
    assert RouterScores.Stream(records)[..0] == [];
  }

  lemma SignalAccepted(pages: seq<M.Page>, records: seq<EventRecord>, n: nat)
    requires n < |records| && EventOk(pages, records, n) && records[n].event.Signal?
    ensures PredictionsOk(pages, records[n].event.layer, records[n].event.predictions)
  {}

  lemma SmallMirror(active: RouterSignals.Active, scores: M.Scores)
    requires RouterSignals.Mirrors(active, scores) && SmallTables(scores)
    ensures SmallScores(active)
  {
    forall request, key, expert | request in active && key in active[request] && expert in active[request][key]
      ensures active[request][key][expert] <= P.PPM
    {
      var k := (request, key.0, key.1);
      assert key == (k.1, k.2) && k in scores && SmallTable(scores[k]);
    }
  }

  // ---------------------------------------------------------------- the policy tracks the reference

  /** A policy that starts for a configuration, and the ceiling of the whole trace. */
  ghost predicate Starts(cfg: M.Config, start: P.State, ceiling: nat, events: seq<K.TraceEvent>) {
    && cfg.Valid() && P.Valid(start) && Tracks(cfg, start, M.Start(cfg))
    && (start.Routed? ==>
          && start.ledger == RouterSignals.Opened(ceiling)
          && ceiling == RouterSignals.Ceiling(cfg.minimumScorePpm, cfg.maxExperts, ModelEvents(events)))
  }

  /** The ledger of a routed policy is the ledger of its signals. */
  lemma {:induction false} LedgerIs(start: P.State, events: seq<K.TraceEvent>)
    requires P.Valid(start) && start.Routed? && start.ledger == RouterSignals.Opened(start.ledger.limit)
    ensures
      var c := start.router;
      var l := RouterSignals.LedgerAt(c.minimum, c.maxExperts, start.ledger.limit, ModelEvents(events));
      PolicyAt(start, events) == if l.Ok? then Some(start.(ledger := l.value)) else None
  {
    hide RouterSignals.Entered, RouterSignals.Recorded, M.Selected, ModelEvents, ModelEvent, RouterScores.Stream,
         RecordsOf;
    EventsAt(events);
    if events != [] {
      var n := |events| - 1;
      LedgerIs(start, events[..n]);
      EventsPrefix(events, n);
      EventIs(events[n]);
    }
  }

  lemma EventIs(e: K.TraceEvent)
    ensures ModelEvent(e) == if e.Demand? then M.Demand(e.request, e.step, e.page)
                             else M.Signal(e.request, e.targetStep, e.layer, e.predictions)
  {}

  /** Tracking is about the sketch and the scores alone. */
  lemma TracksSame(cfg: M.Config, ps: P.State, s: M.State, t: M.State)
    requires Tracks(cfg, ps, s) && t.sketch == s.sketch && t.scores == s.scores
    ensures Tracks(cfg, ps, t)
  {}

  lemma SketchStep(cfg: M.Config, pages: seq<M.Page>, s: M.State, e: M.Event)
    requires M.Inv(cfg, pages, s) && M.Known(pages, e)
    ensures M.Step(cfg, pages, s, e).sketch ==
      if e.Demand? && cfg.policy.TinyLfuPolicy? then TinyLfu.Observed(cfg.sketch, s.sketch, e.page) else s.sketch
  {}

  lemma PlainStep(cfg: M.Config, pages: seq<M.Page>, ps: P.State, s: M.State, e: K.TraceEvent)
    requires P.Valid(ps) && M.Inv(cfg, pages, s) && M.Known(pages, ModelEvent(e)) && Tracks(cfg, ps, s) && !ps.Routed?
    ensures Next(ps, e).Some? && !Next(ps, e).value.Routed?
    ensures Tracks(cfg, Next(ps, e).value, M.Step(cfg, pages, s, ModelEvent(e)))
  {
    hide M.Inv, M.Step, ByteSketch.WellFormed, ByteSketch.View, ByteSketch.Observed, TinyLfu.WellFormed,
         TinyLfu.Observed;
    SketchStep(cfg, pages, s, ModelEvent(e));
    if ps.Frequency? && e.Demand? { ByteSketch.SameObserved(ps.config, ps.sketch, e.page); }
  }

  lemma RunStep(cfg: M.Config, pages: seq<M.Page>, events: seq<M.Event>, n: nat)
    requires cfg.Valid() && M.AllKnown(pages, events) && n < |events|
    ensures M.AllKnown(pages, events[..n]) && M.AllKnown(pages, events[..n + 1]) && M.Known(pages, events[n])
    ensures M.Run(cfg, pages, events[..n + 1]) == M.Step(cfg, pages, M.Run(cfg, pages, events[..n]), events[n])
  {
    hide M.Step, M.Inv;
    assert events[..n + 1][..n] == events[..n];
  }

  lemma {:induction false} PlainTracks(cfg: M.Config, pages: seq<M.Page>, start: P.State, events: seq<K.TraceEvent>,
                                       n: nat)
    requires cfg.Valid() && P.Valid(start) && Tracks(cfg, start, M.Start(cfg)) && !start.Routed?
    requires n <= |events| && M.AllKnown(pages, ModelEvents(events))
    ensures M.AllKnown(pages, ModelEvents(events)[..n])
    ensures
      var ps := PolicyAt(start, events[..n]);
      ps.Some? && !ps.value.Routed? && Tracks(cfg, ps.value, M.Run(cfg, pages, ModelEvents(events)[..n]))
  {
    hide Tracks, Next, M.Step, M.Inv, ModelEvents, ModelEvent;
    EventsAt(events);
    if n == 0 {
      assert events[..0] == [] && ModelEvents(events)[..0] == [];
    } else {
      PlainTracks(cfg, pages, start, events, n - 1);
      RunStep(cfg, pages, ModelEvents(events), n - 1);
      assert events[..n][..n - 1] == events[..n - 1] && events[..n][n - 1] == events[n - 1];
      PlainStep(cfg, pages, PolicyAt(start, events[..n - 1]).value, M.Run(cfg, pages, ModelEvents(events)[..n - 1]),
                events[n - 1]);
    }
  }

  lemma KnownPrefix(pages: seq<M.Page>, events: seq<M.Event>, n: nat)
    requires M.AllKnown(pages, events) && n <= |events|
    ensures M.AllKnown(pages, events[..n])
  {}

  lemma RoutedTracks(cfg: M.Config, pages: seq<M.Page>, start: P.State, ceiling: nat, events: seq<K.TraceEvent>, n: nat)
    requires Starts(cfg, start, ceiling, events) && start.Routed? && EventsOk(pages, RecordsOf(events)) && n <= |events|
    ensures M.AllKnown(pages, ModelEvents(events)) && M.AllKnown(pages, ModelEvents(events)[..n])
    ensures
      var ps := PolicyAt(start, events[..n]);
      ps.Some? && Tracks(cfg, ps.value, M.Run(cfg, pages, ModelEvents(events)[..n]))
  {
    hide RouterSignals.LedgerAt, RouterSignals.Mirrors, RouterSignals.Full, SmallScores, SmallTables, EventsOk, M.Inv,
         RouterScores.Stream, RecordsOf, RouterSignals.Live;
    var records := RecordsOf(events);
    RouterSignals.LedgerExact(cfg, pages, records, n, ceiling);
    EventsAt(events);
    KnownPrefix(pages, ModelEvents(events), n);
    EventsPrefix(events, n);
    LedgerIs(start, events[..n]);
    ScoresSmall(cfg, pages, records, n);
    var ps := PolicyAt(start, events[..n]).value;
    SmallMirror(ps.ledger.active, RouterScores.ScoresAt(cfg, pages, records, n));
  }

  /** At every point of an accepted trace the policy's own state is there and tracks the reference. */
  lemma PolicyTracks(cfg: M.Config, pages: seq<M.Page>, start: P.State, ceiling: nat, events: seq<K.TraceEvent>, n: nat)
    requires Starts(cfg, start, ceiling, events) && EventsOk(pages, RecordsOf(events)) && n <= |events|
    ensures M.AllKnown(pages, ModelEvents(events)) && M.AllKnown(pages, ModelEvents(events)[..n])
    ensures
      var ps := PolicyAt(start, events[..n]);
      ps.Some? && Tracks(cfg, ps.value, M.Run(cfg, pages, ModelEvents(events)[..n]))
  {
    hide EventsOk, Tracks, M.Inv, RouterScores.Stream, RecordsOf, RouterSignals.Ceiling;
    RouterScores.AcceptedIsKnown(pages, RecordsOf(events));
    if start.Routed? {
      RoutedTracks(cfg, pages, start, ceiling, events, n);
    } else {
      PlainTracks(cfg, pages, start, events, n);
    }
  }

  // ---------------------------------------------------------------- the kernel's policy

  /** What a replay is given: the catalogue twice, a capacity, a starting policy and its metadata figures. */
  datatype Setting = Setting(pages: seq<M.Page>, cat: A.Catalogue, capacity: nat, start: P.State, figures: (nat, nat))

  /** The policy with these answers: its hits, segments and router settings are those of its state. */
  ghost function PolicyOf(x: Setting, answers: seq<K.Answer>): K.Policy {
    K.Policy(
      i => if 0 <= i < |answers| then answers[i] else K.Decline,
      (residents, page, touch) => P.AfterHit(P.ProtectedTarget(x.start), residents, page, touch),
      if x.start.Routed? then
        var c := x.start.router;
        Some(K.Router(c.minimum, c.maxExperts, c.maxPages, c.maxBytes))
      else None,
      x.start.Routed? && x.start.prefetch, P.InitialSegment(x.start), x.figures.0, x.figures.1)
  }

  lemma Discreet(x: Setting, answers: seq<K.Answer>)
    ensures K.Discreet(PolicyOf(x, answers))
  {
    hide P.AfterHit, K.SameHoldings;
    forall residents, page, touch
      ensures K.SameHoldings(residents, PolicyOf(x, answers).onHit(residents, page, touch))
    {
      P.HitKeeps(P.ProtectedTarget(x.start), residents, page, touch);
    }
  }

  function RequestOf(e: K.TraceEvent): M.Request
    requires e.Demand?
  {
    M.Request(e.request, e.step, e.page)
  }

  /** The plan for a miss, from the policy's state and the kernel's own entries and ledger. */
  ghost function PlanFor(x: Setting, ps: P.State, st: K.Standing, r: M.Request): K.Answer
    requires P.Valid(ps)
  {
    var resident := A.Replay(x.cat, st.log).resident;
    if P.InCatalogue(x.pages, st.residents) && r.page < |x.pages| && 0 <= resident <= x.capacity
    then P.DemandPlan(ps, x.pages, st.residents, resident, x.capacity, r) else K.Fail
  }

  /** The answers one event asks of the policy: first whether it goes on, and on a miss a plan. */
  ghost function Reply(x: Setting, ps: Option<P.State>, st: K.Standing, e: K.TraceEvent): seq<K.Answer>
    requires ps.Some? ==> P.Valid(ps.value)
  {
    var next := if ps.Some? then Next(ps.value, e) else None;
    var first := if next.Some? then K.Decline else K.Fail;
    match e
    case Demand(_, _, _, page) =>
      if page in st.residents then [first]
      else [first, if next.Some? then PlanFor(x, next.value, st, RequestOf(e)) else K.Fail]
    case Signal(sequence, _, _, _, predictions) =>
      if K.SignalOutcome(PolicyOf(x, []), sequence, predictions).1 then [first] else []
  }

  ghost function AnswersTo(x: Setting, events: seq<K.TraceEvent>): seq<K.Answer>
    requires P.Valid(x.start)
  {
    if events == [] then []
    else
      var prior, e := events[..|events| - 1], events[|events| - 1];
      var before := AnswersTo(x, prior);
      before + Reply(x, PolicyAt(x.start, prior), K.Standings(x.cat, PolicyOf(x, before), prior), e)
  }

  /** Where the replay stands, its policy answering as it goes. */
  ghost function StandingAt(x: Setting, events: seq<K.TraceEvent>): K.Standing
    requires P.Valid(x.start)
  {
    K.Standings(x.cat, PolicyOf(x, AnswersTo(x, events)), events)
  }

  // Answers beyond those asked for do not matter.

  lemma OnwardShares(x: Setting, few: seq<K.Answer>, more: seq<K.Answer>, st: K.Standing, e: K.TraceEvent)
    requires few <= more && K.Onward(x.cat, PolicyOf(x, few), st, e).calls <= |few|
    ensures K.Onward(x.cat, PolicyOf(x, more), st, e) == K.Onward(x.cat, PolicyOf(x, few), st, e)
  {
    hide P.AfterHit, M.Selected;
    if e.Demand? && e.page !in st.residents {
      assert few[st.calls + 1] == more[st.calls + 1];
    }
  }

  lemma {:induction false} StandingsShare(x: Setting, few: seq<K.Answer>, more: seq<K.Answer>,
                                          events: seq<K.TraceEvent>)
    requires few <= more && K.Standings(x.cat, PolicyOf(x, few), events).calls <= |few|
    ensures K.Standings(x.cat, PolicyOf(x, more), events) == K.Standings(x.cat, PolicyOf(x, few), events)
  {
    if events != [] {
      hide K.Onward, PolicyOf;
      var prior, e := events[..|events| - 1], events[|events| - 1];
      var st := K.Standings(x.cat, PolicyOf(x, few), prior);
      CallsGrow(x.cat, PolicyOf(x, few), st, e);
      StandingsShare(x, few, more, prior);
      OnwardShares(x, few, more, st, e);
    }
  }

  lemma CallsGrow(cat: A.Catalogue, policy: K.Policy, st: K.Standing, e: K.TraceEvent)
    ensures st.calls <= K.Onward(cat, policy, st, e).calls
  {
    hide K.DemandOutcome, K.SignalOutcome;
  }

  lemma ReplyCounts(x: Setting, answers: seq<K.Answer>, ps: Option<P.State>, st: K.Standing, e: K.TraceEvent)
    requires ps.Some? ==> P.Valid(ps.value)
    ensures K.Onward(x.cat, PolicyOf(x, answers), st, e).calls == st.calls + |Reply(x, ps, st, e)|
  {
    hide K.DemandOutcome, P.AfterHit, M.Selected, PlanFor, Next;
  }

  /** Every answer is asked for once, and what follows does not change what was answered. */
  lemma {:induction false} AnswersAsked(x: Setting, events: seq<K.TraceEvent>)
    requires P.Valid(x.start)
    ensures StandingAt(x, events).calls == |AnswersTo(x, events)|
  {
    if events != [] {
      hide K.Onward, PolicyOf, Reply, PolicyAt;
      var prior, e := events[..|events| - 1], events[|events| - 1];
      AnswersAsked(x, prior);
      var before, all := AnswersTo(x, prior), AnswersTo(x, events);
      StandingsShare(x, before, all, prior);
      ReplyCounts(x, all, PolicyAt(x.start, prior), StandingAt(x, prior), e);
    }
  }

  lemma StandingStep(x: Setting, events: seq<K.TraceEvent>)
    requires P.Valid(x.start) && events != []
    ensures
      var prior, e := events[..|events| - 1], events[|events| - 1];
      var st, policy := StandingAt(x, prior), PolicyOf(x, AnswersTo(x, events));
      && st.calls == |AnswersTo(x, prior)|
      && AnswersTo(x, events) == AnswersTo(x, prior) + Reply(x, PolicyAt(x.start, prior), st, e)
      && StandingAt(x, events) == K.Onward(x.cat, policy, st, e)
  {
    hide K.Onward, PolicyOf, Reply, PolicyAt;
    var prior := events[..|events| - 1];
    AnswersAsked(x, prior);
    StandingsShare(x, AnswersTo(x, prior), AnswersTo(x, events), prior);
  }

  // ---------------------------------------------------------------- accounts and residents

  predicate SameCounters(m: A.Metrics, n: M.Metrics) {
    && m.demand.count == n.accesses && m.ordinaryHits.count == n.hits && m.usefulHits.count == 0
    && m.misses.count == n.misses && m.demandLoad == n.loadBytes
    && m.admissions == n.admissions && m.bypasses == n.bypasses && m.evictions.count == n.evictions
    && m.peakBytes == n.peakBytes
  }

  /** The kernel's accounts and standing against the state of the reference. */
  ghost predicate Agree(pages: seq<M.Page>, b: A.Books, st: K.Standing, s: M.State) {
    && View(st.residents) == s.residents && st.touch == s.touch && Proper(pages, st.residents)
    && b.unused == K.Flags(st.residents) && b.resident == s.bytes && SameCounters(b.m, s.metrics)
  }

  // What one demand does to the counters of the reference.

  function HitBy(n: M.Metrics): M.Metrics { n.(accesses := n.accesses + 1, hits := n.hits + 1) }

  function MissedBy(n: M.Metrics, logical: nat): M.Metrics {
    n.(accesses := n.accesses + 1, misses := n.misses + 1, loadBytes := n.loadBytes + logical)
  }

  function BypassedBy(n: M.Metrics, logical: nat): M.Metrics {
    MissedBy(n, logical).(bypasses := n.bypasses + 1)
  }

  function AdmittedBy(n: M.Metrics, logical: nat, victims: nat, bytes: nat): M.Metrics {
    MissedBy(n, logical).(admissions := n.admissions + 1, evictions := n.evictions + victims,
                          peakBytes := M.Max(n.peakBytes, bytes))
  }

  // The residents.

  lemma HitResidents(x: Setting, answers: seq<K.Answer>, cfg: M.Config, residents: P.Residents, page: nat, touch: nat)
    requires Proper(x.pages, residents) && page in residents
    requires P.ProtectedTarget(x.start) == if cfg.Segmented() then Some(cfg.Target()) else None
    ensures
      var next := K.AfterHit(PolicyOf(x, answers), residents, page, touch);
      && page < |x.pages| && View(next) == M.AfterHit(cfg, x.pages, View(residents), page, touch)
      && Proper(x.pages, next) && K.Flags(next) == K.Flags(residents)
  {
    assert residents[page := residents[page].(unused := false)] == residents;
    hide P.AfterHit, View, M.AfterHit;
    AfterHitView(cfg, x.pages, P.ProtectedTarget(x.start), residents, page, touch);
    P.HitKeeps(P.ProtectedTarget(x.start), residents, page, touch);
  }

  function EntryOf(cfg: M.Config, touch: nat): M.Resident {
    M.Resident(touch, if cfg.Segmented() then M.Probation else M.Lru)
  }

  lemma AdmitResidents(x: Setting, answers: seq<K.Answer>, cfg: M.Config, residents: P.Residents, page: nat, touch: nat,
                       victims: seq<nat>)
    requires Proper(x.pages, residents) && Catalogued(x.cat, x.pages) && page < |x.pages|
    requires P.InitialSegment(x.start) == if cfg.Segmented() then P.PROBATION else P.LRU
    ensures
      var next := K.Left(residents, victims)[page := K.Entering(x.cat, PolicyOf(x, answers), page, touch, false)];
      && View(next) == M.Without(View(residents), S.Elements(victims))[page := EntryOf(cfg, touch)]
      && Proper(x.pages, next) && K.Flags(next) == K.Flags(K.Left(residents, victims))[page := false]
  {
    hide View, Proper, K.Flags, K.Left, M.Without, S.Elements, Catalogued;
    var entry := K.Entering(x.cat, PolicyOf(x, answers), page, touch, false);
    EntryFits(x, answers, page, touch);
    LeftView(residents, victims, page, entry);
    LeftProper(x.pages, residents, victims, page, entry);
    FlagsWith(K.Left(residents, victims), page, entry);
  }

  lemma EntryFits(x: Setting, answers: seq<K.Answer>, page: nat, touch: nat)
    requires Catalogued(x.cat, x.pages) && page < |x.pages|
    ensures
      var entry := K.Entering(x.cat, PolicyOf(x, answers), page, touch, false);
      && entry.charge == x.pages[page].charge && entry.segment == P.InitialSegment(x.start) <= P.PROTECTED
      && !entry.unused && entry.lastTouch == touch
  {}

  lemma LeftView(residents: P.Residents, victims: seq<nat>, page: nat, entry: K.Entry)
    ensures View(K.Left(residents, victims)[page := entry])
      == M.Without(View(residents), S.Elements(victims))[page := M.Resident(entry.lastTouch, SegmentOf(entry.segment))]
  {}

  lemma LeftProper(pages: seq<M.Page>, residents: P.Residents, victims: seq<nat>, page: nat, entry: K.Entry)
    requires Proper(pages, residents) && page < |pages| && entry.charge == pages[page].charge
    requires entry.segment <= P.PROTECTED && !entry.unused
    ensures Proper(pages, K.Left(residents, victims)[page := entry])
  {}

  lemma FlagsWith(residents: P.Residents, page: nat, entry: K.Entry)
    ensures K.Flags(residents[page := entry]) == K.Flags(residents)[page := entry.unused]
  {}

  // The accounts.

  lemma HitCounts(cat: A.Catalogue, b: A.Books, n: M.Metrics, sequence: nat, page: nat)
    requires SameCounters(b.m, n)
    ensures
      var c := A.Post(cat, b, Event(sequence, Hit, Some(page), []));
      && c.unused == b.unused && c.resident == b.resident
      && SameCounters(c.m, HitBy(n))
  {}

  lemma BypassCounts(cat: A.Catalogue, b: A.Books, n: M.Metrics, sequence: nat, page: nat)
    requires SameCounters(b.m, n)
    ensures
      var c := A.Post(cat, b, Event(sequence, MissBypass, Some(page), []));
      && c.unused == b.unused && c.resident == b.resident
      && SameCounters(c.m, BypassedBy(n, cat(page).logical))
  {}

  /** Evicting unflagged residents: they leave, their charge leaves, and each is counted once. */
  lemma {:induction false} EvictedCounts(cat: A.Catalogue, b: A.Books, victims: seq<nat>)
    requires Distinct(victims) && forall p | p in victims :: p in b.unused && !b.unused[p]
    ensures
      var c := A.EvictedAll(cat, b, victims);
      && c.unused == (map p | p in b.unused && p !in victims :: b.unused[p])
      && c.resident == b.resident - A.Sum(victims, A.Charge(cat))
      && c.m == b.m.(evictions := c.m.evictions) && c.m.evictions.count == b.m.evictions.count + |victims|
  {
    if victims != [] {
      var prior, last := victims[..|victims| - 1], victims[|victims| - 1];
      EvictedCounts(cat, b, prior);
      assert victims == prior + [last] && last !in prior;
    }
  }

  lemma AdmitCounts(cat: A.Catalogue, b: A.Books, n: M.Metrics, sequence: nat, page: nat, victims: seq<nat>)
    requires SameCounters(b.m, n) && Distinct(victims) && forall p | p in victims :: p in b.unused && !b.unused[p]
    requires b.resident - Total(S.Elements(victims), A.Charge(cat)) >= 0
    ensures
      var c := A.Post(cat, b, Event(sequence, MissAdmit, Some(page), victims));
      var bytes := b.resident - Total(S.Elements(victims), A.Charge(cat)) + cat(page).charge;
      && c.unused == (map p | p in b.unused && p !in victims :: b.unused[p])[page := false] && c.resident == bytes
      && SameCounters(c.m, AdmittedBy(n, cat(page).logical, |victims|, bytes))
  {
    hide Total;
    EvictedCounts(cat, b.(m := A.Missed(cat, b.m, page)), victims);
    SumIsTotal(victims, A.Charge(cat));
  }

  // ---------------------------------------------------------------- one event

  /** The decision one event adds. */
  function Told(cat: A.Catalogue, policy: K.Policy, st: K.Standing, e: K.TraceEvent): Record {
    match e
    case Demand(sequence, _, _, page) =>
      K.DemandOutcome(cat, policy, st.residents, sequence, page, st.touch + 1, policy.answer(st.calls + 1)).1
    case Signal(sequence, _, _, _, predictions) => K.SignalOutcome(policy, sequence, predictions).0
  }

  ghost predicate StepAgrees(x: Setting, answers: seq<K.Answer>, cfg: M.Config, b: A.Books, st: K.Standing, s: M.State,
                             e: K.TraceEvent)
    requires M.Inv(cfg, x.pages, s) && M.Known(x.pages, ModelEvent(e))
  {
    var policy := PolicyOf(x, answers);
    Agree(x.pages, A.Post(x.cat, b, Told(x.cat, policy, st, e)), K.Onward(x.cat, policy, st, e),
          M.Step(cfg, x.pages, s, ModelEvent(e)))
  }

  lemma SignalAgrees(x: Setting, answers: seq<K.Answer>, cfg: M.Config, b: A.Books, st: K.Standing, s: M.State,
                     e: K.TraceEvent)
    requires M.Inv(cfg, x.pages, s) && Agree(x.pages, b, st, s) && e.Signal?
    ensures StepAgrees(x, answers, cfg, b, st, s, e)
  {
    hide View, Proper, SameCounters, M.Selected, P.AfterHit;
  }

  lemma ModelHit(cfg: M.Config, pages: seq<M.Page>, s: M.State, r: M.Request)
    requires M.Inv(cfg, pages, s) && r.page < |pages| && r.page in s.residents
    ensures
      var t := M.AfterDemand(cfg, pages, s, r);
      && t.residents == M.AfterHit(cfg, pages, s.residents, r.page, s.touch + 1)
      && t.touch == s.touch + 1 && t.bytes == s.bytes
      && t.metrics == HitBy(s.metrics)
  {
    hide M.AfterHit;
  }

  lemma Viewed(pages: seq<M.Page>, residents: P.Residents, page: nat)
    requires Proper(pages, residents)
    ensures page in View(residents) <==> page in residents
    ensures page in residents ==> !residents[page].unused
  {}

  /** The fixed parts of the starting policy are those of the configuration. */
  ghost predicate Fits(x: Setting, cfg: M.Config) {
    && Catalogued(x.cat, x.pages) && x.capacity == cfg.capacity
    && P.ProtectedTarget(x.start) == (if cfg.Segmented() then Some(cfg.Target()) else None)
    && P.InitialSegment(x.start) == if cfg.Segmented() then P.PROBATION else P.LRU
  }

  lemma HitAgrees(x: Setting, answers: seq<K.Answer>, cfg: M.Config, b: A.Books, st: K.Standing, s: M.State,
                  e: K.TraceEvent)
    requires Fits(x, cfg) && M.Inv(cfg, x.pages, s) && Agree(x.pages, b, st, s)
    requires e.Demand? && e.page < |x.pages| && e.page in st.residents
    ensures StepAgrees(x, answers, cfg, b, st, s, e)
  {
    hide View, Proper, SameCounters, M.AfterDemand, M.AfterHit, A.Post, K.AfterHit, K.Flags, M.Accounted,
         M.SegmentDiscipline, TinyLfu.WellFormed, M.Bytes, PolicyOf;
    Viewed(x.pages, st.residents, e.page);
    HitResidents(x, answers, cfg, st.residents, e.page, st.touch + 1);
    HitCounts(x.cat, b, s.metrics, e.sequence, e.page);
    ModelHit(cfg, x.pages, s, RequestOf(e));
  }

  /** The state in which the reference plans a miss. */
  ghost function Planning(cfg: M.Config, pages: seq<M.Page>, s: M.State, r: M.Request): M.State
    requires M.Inv(cfg, pages, s) && r.page < |pages|
  {
    M.Missed(pages, M.Entered(cfg, s, r), r)
  }

  /** How the reference answers a miss it declines, or admits in the place of `victims`. */
  lemma ModelMiss(cfg: M.Config, pages: seq<M.Page>, s: M.State, r: M.Request, answer: K.Answer)
    requires M.Inv(cfg, pages, s) && r.page < |pages| && r.page !in s.residents
    requires PlanIs(cfg, pages, Planning(cfg, pages, s, r), r, answer)
    ensures
      var t, logical := M.AfterDemand(cfg, pages, s, r), pages[r.page].logical;
      && t.touch == s.touch + 1
      && match answer
         case Evict(victims) =>
           var gone := S.Elements(victims);
           && Distinct(victims) && gone == M.Victims(cfg, pages, Planning(cfg, pages, s, r), r)
           && M.Bytes(pages, gone) <= s.bytes && |gone| == |victims|
           && t.residents == M.Without(s.residents, gone)[r.page := EntryOf(cfg, t.touch)]
           && t.bytes == s.bytes - M.Bytes(pages, gone) + pages[r.page].charge
           && t.metrics == AdmittedBy(s.metrics, logical, |victims|, t.bytes)
         case _ =>
           t.residents == s.residents && t.bytes == s.bytes && t.metrics == BypassedBy(s.metrics, logical)
  {
    hide M.Victims, M.Admits, M.Bytes, M.Accounted, M.SegmentDiscipline;
    M.VictimsResident(cfg, pages, Planning(cfg, pages, s, r), r);
    if answer.Evict? { SumIsTotal(answer.victims, M.Charge(pages)); }
  }

  lemma MissAgrees(x: Setting, answers: seq<K.Answer>, cfg: M.Config, b: A.Books, st: K.Standing, s: M.State,
                   e: K.TraceEvent)
    requires Fits(x, cfg) && M.Inv(cfg, x.pages, s) && Agree(x.pages, b, st, s)
    requires e.Demand? && e.page < |x.pages| && e.page !in st.residents
    requires
      var r := RequestOf(e);
      PlanIs(cfg, x.pages, Planning(cfg, x.pages, s, r), r, PolicyOf(x, answers).answer(st.calls + 1))
    ensures StepAgrees(x, answers, cfg, b, st, s, e)
  {
    hide View, Proper, SameCounters, M.AfterDemand, A.Post, K.Flags, M.Accounted, M.SegmentDiscipline,
         TinyLfu.WellFormed, M.Bytes, K.Left, K.Entering, PlanIs, Planning, M.Victims, S.Elements, EntryOf, M.Without,
         PolicyOf;
    Viewed(x.pages, st.residents, e.page);
    var plan := PolicyOf(x, answers).answer(st.calls + 1);
    ModelMiss(cfg, x.pages, s, RequestOf(e), plan);
    if plan.Evict? {
      AdmissionAgrees(x, answers, cfg, b, st, s, e, plan.victims);
    } else {
      BypassCounts(x.cat, b, s.metrics, e.sequence, e.page);
    }
  }

  lemma AdmissionAgrees(x: Setting, answers: seq<K.Answer>, cfg: M.Config, b: A.Books, st: K.Standing, s: M.State,
                        e: K.TraceEvent, victims: seq<nat>)
    requires Fits(x, cfg) && M.Inv(cfg, x.pages, s) && Agree(x.pages, b, st, s)
    requires e.Demand? && e.page < |x.pages| && Distinct(victims)
    requires S.Elements(victims) == M.Victims(cfg, x.pages, Planning(cfg, x.pages, s, RequestOf(e)), RequestOf(e))
    requires M.Bytes(x.pages, S.Elements(victims)) <= s.bytes
    ensures
      var entry := K.Entering(x.cat, PolicyOf(x, answers), e.page, st.touch + 1, false);
      var next := K.Left(st.residents, victims)[e.page := entry];
      var c := A.Post(x.cat, b, Event(e.sequence, MissAdmit, Some(e.page), victims));
      var gone := S.Elements(victims);
      var bytes := s.bytes - M.Bytes(x.pages, gone) + x.pages[e.page].charge;
      && View(next) == M.Without(s.residents, gone)[e.page := EntryOf(cfg, st.touch + 1)] && Proper(x.pages, next)
      && c.unused == K.Flags(next) && c.resident == bytes
      && SameCounters(c.m, AdmittedBy(s.metrics, x.pages[e.page].logical, |victims|, bytes))
  {
    hide View, Proper, SameCounters, A.Post, K.Flags, M.Victims, K.Left, K.Entering, Total, S.Elements,
         M.Accounted, M.SegmentDiscipline, TinyLfu.WellFormed, M.Without, PolicyOf;
    VictimsHeld(x.cat, cfg, x.pages, b, st, s, Planning(cfg, x.pages, s, RequestOf(e)), RequestOf(e), victims);
    AdmitResidents(x, answers, cfg, st.residents, e.page, st.touch + 1, victims);
    AdmitCounts(x.cat, b, s.metrics, e.sequence, e.page, victims);
    FlagsLeft(st.residents, victims);
  }

  lemma FlagsLeft(residents: P.Residents, victims: seq<nat>)
    ensures
      var flags := K.Flags(residents);
      K.Flags(K.Left(residents, victims)) == map p | p in flags && p !in victims :: flags[p]
  {}

  /** The planned victims are residents, unflagged, and weigh the same in both vocabularies. */
  lemma VictimsHeld(cat: A.Catalogue, cfg: M.Config, pages: seq<M.Page>, b: A.Books, st: K.Standing, s: M.State,
                    m: M.State, r: M.Request, victims: seq<nat>)
    requires Catalogued(cat, pages) && M.Ledger(cfg, pages, m) && m.residents == s.residents && m.bytes == s.bytes
    requires Agree(pages, b, st, s) && r.page < |pages|
    requires Distinct(victims) && S.Elements(victims) == M.Victims(cfg, pages, m, r)
    ensures forall p | p in victims :: p in b.unused && !b.unused[p]
    ensures Total(S.Elements(victims), A.Charge(cat)) == M.Bytes(pages, S.Elements(victims)) <= m.bytes
  {
    hide Total, M.Victims, SameCounters;
    M.VictimsResident(cfg, pages, m, r);
    forall p | p in victims ensures p in b.unused && !b.unused[p] && p < |pages| {
      assert p in S.Elements(victims) && p in View(st.residents);
    }
    TotalAgree(S.Elements(victims), A.Charge(cat), M.Charge(pages));
  }

  lemma ToldAppends(cat: A.Catalogue, policy: K.Policy, st: K.Standing, e: K.TraceEvent)
    ensures
      A.Replay(cat, K.Onward(cat, policy, st, e).log) == A.Post(cat, A.Replay(cat, st.log), Told(cat, policy, st, e))
  {
    hide A.Post, K.DemandOutcome, K.SignalOutcome;
    var log := K.Onward(cat, policy, st, e).log;
    assert log == st.log + [Told(cat, policy, st, e)];
    assert log[..|log| - 1] == st.log;
  }

  // ---------------------------------------------------------------- whole traces

  /** A miss is answered by the plan the reference calls for. */
  lemma PlannedAs(x: Setting, cfg: M.Config, ps: P.State, st: K.Standing, s: M.State, e: K.TraceEvent)
    requires Fits(x, cfg) && M.Inv(cfg, x.pages, s) && Agree(x.pages, A.Replay(x.cat, st.log), st, s)
    requires e.Demand? && e.page < |x.pages|
    requires Tracks(cfg, ps, Planning(cfg, x.pages, s, RequestOf(e)))
    ensures P.Valid(ps) && PlanFor(x, ps, st, RequestOf(e)) != K.Fail
    ensures
      PlanIs(cfg, x.pages, Planning(cfg, x.pages, s, RequestOf(e)), RequestOf(e), PlanFor(x, ps, st, RequestOf(e)))
  {
    hide View, Proper, SameCounters, K.Flags, M.Accounted, M.Bytes, A.Replay, Tracks, P.DemandPlan, PlanIs,
         P.InCatalogue, M.SegmentDiscipline;
    var m := Planning(cfg, x.pages, s, RequestOf(e));
    SameHoldings(cfg, x.pages, s, RequestOf(e));
    assert Meets(cfg, x.pages, ps, st.residents, m);
    DemandPlanIs(cfg, x.pages, ps, st.residents, m, RequestOf(e));
    NotFail(cfg, x.pages, m, RequestOf(e), PlanFor(x, ps, st, RequestOf(e)));
  }

  lemma NotFail(cfg: M.Config, pages: seq<M.Page>, m: M.State, r: M.Request, answer: K.Answer)
    requires M.InCatalogue(pages, m.residents) && r.page < |pages| && TinyLfu.WellFormed(cfg.sketch, m.sketch)
    requires PlanIs(cfg, pages, m, r, answer)
    ensures answer != K.Fail
  {}

  lemma SameHoldings(cfg: M.Config, pages: seq<M.Page>, s: M.State, r: M.Request)
    requires M.Inv(cfg, pages, s) && r.page < |pages|
    ensures
      var m := Planning(cfg, pages, s, r);
      && m.residents == s.residents && m.bytes == s.bytes && M.Ledger(cfg, pages, m)
      && M.SegmentDiscipline(cfg, pages, m.residents) && TinyLfu.WellFormed(cfg.sketch, m.sketch)
  {
    hide M.Bytes, M.SegmentDiscipline;
  }

  /** The reference plans in the sketch and scores it ends the demand with. */
  lemma PlanningTracks(cfg: M.Config, pages: seq<M.Page>, ps: P.State, s: M.State, e: K.TraceEvent)
    requires M.Inv(cfg, pages, s) && e.Demand? && e.page < |pages|
    requires Tracks(cfg, ps, M.Step(cfg, pages, s, ModelEvent(e)))
    ensures Tracks(cfg, ps, Planning(cfg, pages, s, RequestOf(e)))
  {
    hide Tracks, M.Bytes, M.Accounted, M.SegmentDiscipline;
    var m, t := Planning(cfg, pages, s, RequestOf(e)), M.Step(cfg, pages, s, ModelEvent(e));
    SketchStep(cfg, pages, s, ModelEvent(e));
    RouterScores.StepScores(cfg, pages, s, ModelEvent(e));
    TracksSame(cfg, ps, t, m);
  }

  ghost predicate NoFailure(answers: seq<K.Answer>) { forall i | 0 <= i < |answers| :: answers[i] != K.Fail }

  /** One event, with the answers its policy gives. */
  lemma EventAgrees(x: Setting, before: seq<K.Answer>, cfg: M.Config, ps: P.State, st: K.Standing, s: M.State,
                    e: K.TraceEvent)
    requires Fits(x, cfg) && M.Inv(cfg, x.pages, s) && Agree(x.pages, A.Replay(x.cat, st.log), st, s)
    requires M.Known(x.pages, ModelEvent(e)) && P.Valid(ps) && Next(ps, e).Some?
    requires Tracks(cfg, Next(ps, e).value, M.Step(cfg, x.pages, s, ModelEvent(e)))
    requires NoFailure(before) && st.calls == |before|
    ensures
      var answers := before + Reply(x, Some(ps), st, e);
      NoFailure(answers) && StepAgrees(x, answers, cfg, A.Replay(x.cat, st.log), st, s, e)
  {
    hide StepAgrees, Agree, M.Inv, PlanIs, PlanFor, Next, A.Replay, Tracks, M.Step, K.SignalOutcome, Fits, P.Valid;
    var answers, b := before + Reply(x, Some(ps), st, e), A.Replay(x.cat, st.log);
    if e.Signal? {
      SignalAgrees(x, answers, cfg, b, st, s, e);
    } else if e.page in st.residents {
      HitAgrees(x, answers, cfg, b, st, s, e);
    } else {
      PlanningTracks(cfg, x.pages, Next(ps, e).value, s, e);
      PlannedAs(x, cfg, Next(ps, e).value, st, s, e);
      AnswerAt(x, answers, st.calls + 1);
      MissAgrees(x, answers, cfg, b, st, s, e);
    }
  }

  lemma AnswerAt(x: Setting, answers: seq<K.Answer>, i: nat)
    requires i < |answers|
    ensures PolicyOf(x, answers).answer(i) == answers[i]
  {}

  /** On every accepted trace, at every point: the policy never fails, and the kernel has the residents,
      recencies, segments, ledger and counters of the reference. */
  lemma {:induction false} ReplaysAgree(x: Setting, cfg: M.Config, ceiling: nat, events: seq<K.TraceEvent>, n: nat)
    requires Fits(x, cfg) && Starts(cfg, x.start, ceiling, events) && EventsOk(x.pages, RecordsOf(events))
    requires n <= |events|
    ensures M.AllKnown(x.pages, ModelEvents(events)) && M.AllKnown(x.pages, ModelEvents(events)[..n])
    ensures NoFailure(AnswersTo(x, events[..n]))
    ensures
      var st := StandingAt(x, events[..n]);
      Agree(x.pages, A.Replay(x.cat, st.log), st, M.Run(cfg, x.pages, ModelEvents(events)[..n]))
  {
    hide Fits, EventsOk, Agree, A.Replay, M.Run, StandingAt, AnswersTo, PolicyAt, RecordsOf, ModelEvents, M.AllKnown,
         Tracks, Starts, M.Inv, NoFailure, ModelEvent, Reply, Next, K.Onward, P.Valid, StepAgrees, M.Known;
    PolicyTracks(cfg, x.pages, x.start, ceiling, events, n);
    StartsValid(cfg, x.start, ceiling, events);
    EventsAt(events);
    if n == 0 {
      NothingReplayed(x, cfg, events);
    } else {
      var prefix := events[..n];
      var prior, e := prefix[..n - 1], events[n - 1];
      assert prior == events[..n - 1];
      ReplaysAgree(x, cfg, ceiling, events, n - 1);
      PolicyTracks(cfg, x.pages, x.start, ceiling, events, n - 1);
      PolicyStep(x.start, prefix);
      StandingStep(x, prefix);
      RunStep(cfg, x.pages, ModelEvents(events), n - 1);
      var st, s := StandingAt(x, prior), M.Run(cfg, x.pages, ModelEvents(events)[..n - 1]);
      var before, ps := AnswersTo(x, prior), PolicyAt(x.start, prior).value;
      EventAgrees(x, before, cfg, ps, st, s, e);
      ToldAppends(x.cat, PolicyOf(x, AnswersTo(x, prefix)), st, e);
      StepAgreed(x, AnswersTo(x, prefix), cfg, A.Replay(x.cat, st.log), st, s, e);
    }
  }

  lemma StartsValid(cfg: M.Config, start: P.State, ceiling: nat, events: seq<K.TraceEvent>)
    requires Starts(cfg, start, ceiling, events)
    ensures cfg.Valid() && P.Valid(start)
  {}

  lemma PolicyStep(start: P.State, events: seq<K.TraceEvent>)
    requires P.Valid(start) && events != [] && PolicyAt(start, events).Some?
    ensures
      var prior := PolicyAt(start, events[..|events| - 1]);
      prior.Some? && PolicyAt(start, events) == Next(prior.value, events[|events| - 1])
  {
    hide Next;
  }

  lemma StepAgreed(x: Setting, answers: seq<K.Answer>, cfg: M.Config, b: A.Books, st: K.Standing, s: M.State,
                   e: K.TraceEvent)
    requires M.Inv(cfg, x.pages, s) && M.Known(x.pages, ModelEvent(e)) && StepAgrees(x, answers, cfg, b, st, s, e)
    ensures
      Agree(x.pages, A.Post(x.cat, b, Told(x.cat, PolicyOf(x, answers), st, e)),
            K.Onward(x.cat, PolicyOf(x, answers), st, e), M.Step(cfg, x.pages, s, ModelEvent(e)))
  {
    hide Agree, A.Post, Told, K.Onward, M.Step, PolicyOf;
  }

  lemma NothingReplayed(x: Setting, cfg: M.Config, events: seq<K.TraceEvent>)
    requires P.Valid(x.start) && cfg.Valid()
    ensures M.AllKnown(x.pages, ModelEvents(events)[..0])
    ensures NoFailure(AnswersTo(x, events[..0]))
    ensures
      var st := StandingAt(x, events[..0]);
      Agree(x.pages, A.Replay(x.cat, st.log), st, M.Run(cfg, x.pages, ModelEvents(events)[..0]))
  {
    assert events[..0] == [] && ModelEvents(events)[..0] == [];
    hide ModelEvents;
    NothingYet(x, cfg);
  }

  lemma NothingYet(x: Setting, cfg: M.Config)
    requires P.Valid(x.start) && cfg.Valid()
    ensures AnswersTo(x, []) == [] && StandingAt(x, []) == K.Standing(map[], 0, 0, [])
    ensures M.Run(cfg, x.pages, []) == M.Start(cfg)
    ensures A.Replay(x.cat, []) == A.Opening()
    ensures Agree(x.pages, A.Opening(), K.Standing(map[], 0, 0, []), M.Start(cfg))
  {
    hide PolicyOf;
  }

  // ---------------------------------------------------------------- whole replays

  /** The closing figures of the policy after a trace, if it closes. */
  ghost function FiguresAfter(start: P.State, events: seq<K.TraceEvent>): Option<(nat, nat)>
    requires P.Valid(start)
  {
    var ps := PolicyAt(start, events);
    if ps.Some? then P.Finished(ps.value) else None
  }

  /** Everything the policy says in a replay: its answers to the trace, then whether it closes. */
  ghost function Speech(x: Setting, events: seq<K.TraceEvent>): seq<K.Answer>
    requires P.Valid(x.start)
  {
    AnswersTo(x, events) + [if FiguresAfter(x.start, events).Some? then K.Decline else K.Fail]
  }

  /** The ceiling on router metadata that a replay computes first; other policies have none. */
  ghost function CeilingOf(spec: P.Spec, events: seq<K.TraceEvent>): nat {
    if spec.RouterAdmit?
    then RouterSignals.Ceiling(spec.config.minimum, spec.config.maxExperts, ModelEvents(events)) else 0
  }

  /** A replay of an accepted trace: the catalogue, a policy as its specification starts it, and the
      metadata figures that policy closes with. */
  ghost predicate Given(x: Setting, spec: P.Spec, cfg: M.Config, events: seq<K.TraceEvent>) {
    && Catalogued(x.cat, x.pages) && EventsOk(x.pages, RecordsOf(events)) && Configures(spec, x.capacity, cfg)
    && P.New(spec, x.capacity, CeilingOf(spec, events)) == Some(x.start) && P.Valid(x.start)
    && (FiguresAfter(x.start, events).Some? ==> x.figures == FiguresAfter(x.start, events).value)
  }

  lemma GivenStarts(x: Setting, spec: P.Spec, cfg: M.Config, events: seq<K.TraceEvent>)
    requires Given(x, spec, cfg, events)
    ensures Fits(x, cfg) && Starts(cfg, x.start, CeilingOf(spec, events), events)
  {
    hide Catalogued, EventsOk, FiguresAfter, RouterSignals.Ceiling, RecordsOf, Tracks;
    StartTracks(spec, x.capacity, CeilingOf(spec, events), cfg);
    StartFits(spec, x.capacity, CeilingOf(spec, events), cfg);
  }

  lemma StartFits(spec: P.Spec, capacity: nat, ceiling: nat, cfg: M.Config)
    requires Configures(spec, capacity, cfg) && P.New(spec, capacity, ceiling).Some?
    ensures
      var start := P.New(spec, capacity, ceiling).value;
      && P.ProtectedTarget(start) == (if cfg.Segmented() then Some(cfg.Target()) else None)
      && P.InitialSegment(start) == if cfg.Segmented() then P.PROBATION else P.LRU
  {}

  /** No policy fails to close on an accepted trace. */
  lemma PolicyCloses(x: Setting, spec: P.Spec, cfg: M.Config, events: seq<K.TraceEvent>)
    requires Given(x, spec, cfg, events)
    ensures FiguresAfter(x.start, events).Some?
  {
    hide Given, Starts, Fits, EventsOk, RecordsOf, PolicyAt, RouterSignals.Closes;
    GivenAccepted(x, spec, cfg, events);
    GivenStarts(x, spec, cfg, events);
    if x.start.Routed? {
      RoutedCloses(x.pages, x.start, cfg, CeilingOf(spec, events), events);
    } else {
      StaysPlain(x.start, events);
    }
  }

  lemma RoutedCloses(pages: seq<M.Page>, start: P.State, cfg: M.Config, ceiling: nat, events: seq<K.TraceEvent>)
    requires P.Valid(start) && start.Routed? && Starts(cfg, start, ceiling, events)
    requires EventsOk(pages, RecordsOf(events))
    ensures
      var ps := PolicyAt(start, events);
      ps.Some? && ps.value.Routed? && RouterSignals.Closes(ps.value.ledger)
  {
    hide Starts, EventsOk, RecordsOf, PolicyAt, RouterSignals.Closes, RouterSignals.Ceiling, RouterSignals.LedgerAt,
         RouterSignals.Live, RouterScores.Stream;
    StartsValid(cfg, start, ceiling, events);
    RoutedStart(cfg, start, ceiling, events);
    RouterSignals.MetadataExact(cfg, pages, RecordsOf(events), ceiling);
    LedgerIs(start, events);
  }

  lemma RoutedStart(cfg: M.Config, start: P.State, ceiling: nat, events: seq<K.TraceEvent>)
    requires Starts(cfg, start, ceiling, events) && start.Routed?
    ensures cfg.policy.RouterAdmitPolicy? && start.ledger == RouterSignals.Opened(ceiling)
    ensures start.ledger.limit == ceiling
    ensures start.router.minimum == cfg.minimumScorePpm && start.router.maxExperts == cfg.maxExperts
    ensures
      ceiling == RouterSignals.Ceiling(cfg.minimumScorePpm, cfg.maxExperts, RouterScores.Stream(RecordsOf(events)))
  {
    hide RouterSignals.Ceiling, RecordsOf, RouterScores.Stream;
  }

  lemma {:induction false} StaysPlain(start: P.State, events: seq<K.TraceEvent>)
    requires P.Valid(start) && !start.Routed?
    ensures PolicyAt(start, events).Some? && !PolicyAt(start, events).value.Routed?
  {
    if events != [] { StaysPlain(start, events[..|events| - 1]); }
  }

  /** The policy's answers never fail a replay of an accepted trace. */
  lemma NeverFails(x: Setting, spec: P.Spec, cfg: M.Config, events: seq<K.TraceEvent>)
    requires Given(x, spec, cfg, events)
    ensures NoFailure(Speech(x, events))
  {
    hide Given, Starts, Fits, AnswersTo, StandingAt, FiguresAfter, M.Run, Agree, A.Replay, ModelEvents, M.AllKnown;
    GivenAccepted(x, spec, cfg, events);
    PolicyCloses(x, spec, cfg, events);
    GivenStarts(x, spec, cfg, events);
    ReplaysAgree(x, cfg, CeilingOf(spec, events), events, |events|);
    assert events[..|events|] == events;
  }

  lemma GivenAccepted(x: Setting, spec: P.Spec, cfg: M.Config, events: seq<K.TraceEvent>)
    requires Given(x, spec, cfg, events)
    ensures P.Valid(x.start) && EventsOk(x.pages, RecordsOf(events)) && cfg.Valid()
  {
    hide P.Valid, EventsOk, RecordsOf;
  }

  /** A replay of an accepted trace that completes reports the figures of the reference, and the
      metadata its policy really used. */
  lemma KernelMatchesReference(x: Setting, spec: P.Spec, cfg: M.Config, experts: K.Experts, events: seq<K.TraceEvent>,
                               log: seq<Record>, report: K.Report)
    requires Given(x, spec, cfg, events)
    requires K.Completed(x.cat, x.capacity, PolicyOf(x, Speech(x, events)), experts, events, log, report)
    ensures M.AllKnown(x.pages, ModelEvents(events)) && cfg.Valid()
    ensures
      var m, s := report.metrics, M.Run(cfg, x.pages, ModelEvents(events));
      && SameCounters(m, s.metrics) && m.finalBytes == s.bytes && m.totalLoad == s.metrics.loadBytes
      && (m.metadata, m.metadataLimit) == x.figures && FiguresAfter(x.start, events) == Some(x.figures)
  {
    hide Given, Starts, Fits, AnswersTo, StandingAt, FiguresAfter, M.Run, Agree, A.Replay, ModelEvents, M.AllKnown,
         PolicyOf, K.Completed, K.Reported, NoFailure, SameCounters, EventsOk, RecordsOf, Speech;
    GivenAccepted(x, spec, cfg, events);
    GivenStarts(x, spec, cfg, events);
    ReplaysAgree(x, cfg, CeilingOf(spec, events), events, |events|);
    assert events[..|events|] == events;
    EventsAt(events);
    assert ModelEvents(events)[..|events|] == ModelEvents(events);
    var policy, s := PolicyOf(x, Speech(x, events)), M.Run(cfg, x.pages, ModelEvents(events));
    SpeechPlain(x, spec, cfg, events);
    CompletedPlain(x.cat, x.capacity, policy, experts, events, log, report);
    AgreedCounts(x.pages, A.Replay(x.cat, log), StandingAt(x, events), s);
    ReportCounts(x.cat, A.Replay(x.cat, log), policy, s);
    PolicyCloses(x, spec, cfg, events);
    GivenFigures(x, spec, cfg, events);
  }

  lemma GivenFigures(x: Setting, spec: P.Spec, cfg: M.Config, events: seq<K.TraceEvent>)
    requires Given(x, spec, cfg, events) && FiguresAfter(x.start, events).Some?
    ensures FiguresAfter(x.start, events) == Some(x.figures)
  {
    hide FiguresAfter, EventsOk, RecordsOf;
  }

  lemma AgreedCounts(pages: seq<M.Page>, b: A.Books, st: K.Standing, s: M.State)
    requires Agree(pages, b, st, s)
    ensures SameCounters(b.m, s.metrics) && b.resident == s.bytes
  {
    hide SameCounters;
  }

  /** The closing answer changes nothing before it. */
  lemma SpeechPlain(x: Setting, spec: P.Spec, cfg: M.Config, events: seq<K.TraceEvent>)
    requires Given(x, spec, cfg, events) && P.Valid(x.start)
    ensures K.Standings(x.cat, PolicyOf(x, Speech(x, events)), events) == StandingAt(x, events)
    ensures !K.Prefetches(PolicyOf(x, Speech(x, events)))
    ensures PolicyOf(x, Speech(x, events)).metadata == x.figures.0
    ensures PolicyOf(x, Speech(x, events)).metadataLimit == x.figures.1
  {
    hide EventsOk, RecordsOf, Catalogued, FiguresAfter, K.Standings, AnswersTo;
    AnswersAsked(x, events);
    StandingsShare(x, AnswersTo(x, events), Speech(x, events), events);
  }

  lemma CompletedPlain(cat: A.Catalogue, capacity: nat, policy: K.Policy, experts: K.Experts, events: seq<K.TraceEvent>,
                       log: seq<Record>, report: K.Report)
    requires K.Completed(cat, capacity, policy, experts, events, log, report) && !K.Prefetches(policy)
    ensures log == K.Standings(cat, policy, events).log
    ensures report.metrics == K.Reported(cat, A.Replay(cat, log), policy) && A.Replay(cat, log).m.admitted.bytes == 0
  {
    hide A.Replay, A.LegalRun, K.Standings, K.Reported, K.OnlyEvents, K.Native, K.AllSized, EncodeAll;
    NothingPrefetched(cat, capacity, log);
  }

  lemma ReportCounts(cat: A.Catalogue, b: A.Books, policy: K.Policy, s: M.State)
    requires SameCounters(b.m, s.metrics) && b.resident == s.bytes && b.m.admitted.bytes == 0
    ensures
      var m := K.Reported(cat, b, policy);
      && SameCounters(m, s.metrics) && m.finalBytes == s.bytes && m.totalLoad == s.metrics.loadBytes
      && m.metadata == policy.metadata && m.metadataLimit == policy.metadataLimit
  {
    hide A.Pending;
  }

  lemma NothingPrefetched(cat: A.Catalogue, capacity: nat, log: seq<Record>)
    requires A.LegalRun(cat, capacity, log) && K.OnlyEvents(log)
    ensures A.Replay(cat, log).m.admitted.bytes == 0
  {
    hide A.Replay, A.LegalRun, A.Pending;
    KernelAudit.NothingOffered(cat, log);
    A.ReplayConserves(cat, capacity, log);
  }

  // ---------------------------------------------------------------- no policy is to blame

  lemma RoomMade(cat: A.Catalogue, pages: seq<M.Page>, residents: P.Residents, victims: seq<nat>)
    requires Catalogued(cat, pages) && Proper(pages, residents) && K.Removable(residents, victims)
    ensures
      M.Bytes(pages, residents.Keys)
      == Total(K.Left(residents, victims).Keys, A.Charge(cat)) + M.Bytes(pages, S.Elements(victims))
  {
    hide Total;
    var gone := S.Elements(victims);
    TotalSplit(residents.Keys, gone, M.Charge(pages));
    assert K.Left(residents, victims).Keys == residents.Keys - gone;
    TotalAgree(residents.Keys - gone, A.Charge(cat), M.Charge(pages));
  }

  /** The plan the reference calls for can be carried out on the kernel's entries. */
  lemma MissWorks(x: Setting, cfg: M.Config, b: A.Books, st: K.Standing, s: M.State, e: K.TraceEvent, plan: K.Answer)
    requires Fits(x, cfg) && M.Inv(cfg, x.pages, s) && Agree(x.pages, b, st, s)
    requires e.Demand? && e.page < |x.pages| && e.page !in st.residents
    requires PlanIs(cfg, x.pages, Planning(cfg, x.pages, s, RequestOf(e)), RequestOf(e), plan)
    ensures K.Workable(x.cat, x.capacity, st.residents, e.page, plan)
  {
    hide View, SameCounters, M.AfterDemand, K.Flags, M.Accounted, M.SegmentDiscipline, TinyLfu.WellFormed, M.Bytes,
         PlanIs, Planning, M.Victims, S.Elements, EntryOf, M.Without, Proper, K.Removable, Total, K.Left, Catalogued;
    var r := RequestOf(e);
    var m := Planning(cfg, x.pages, s, r);
    SameHoldings(cfg, x.pages, s, r);
    NotFail(cfg, x.pages, m, r, plan);
    if plan.Evict? {
      Viewed(x.pages, st.residents, e.page);
      ModelMiss(cfg, x.pages, s, r, plan);
      VictimsHeld(x.cat, cfg, x.pages, b, st, s, m, r, plan.victims);
      HeldRemovable(b, st, plan.victims);
      RoomMade(x.cat, x.pages, st.residents, plan.victims);
      M.MissKeepsInv(cfg, x.pages, s, r);
      ViewKeys(st.residents);
      ChargeOf(x.cat, x.pages, e.page);
    }
  }

  lemma ViewKeys(residents: P.Residents)
    ensures View(residents).Keys == residents.Keys
  {}

  lemma ChargeOf(cat: A.Catalogue, pages: seq<M.Page>, page: nat)
    requires Catalogued(cat, pages) && page < |pages|
    ensures cat(page).charge == pages[page].charge
  {}

  lemma HeldRemovable(b: A.Books, st: K.Standing, victims: seq<nat>)
    requires b.unused == K.Flags(st.residents) && Distinct(victims) && forall p | p in victims :: p in b.unused
    ensures K.Removable(st.residents, victims)
  {}

  lemma {:induction false} AnswersGrow(x: Setting, events: seq<K.TraceEvent>, n: nat)
    requires P.Valid(x.start) && n <= |events|
    ensures AnswersTo(x, events[..n]) <= AnswersTo(x, events)
    decreases |events|
  {
    if n == |events| {
      assert events[..n] == events;
    } else {
      hide Reply, PolicyAt, K.Standings, PolicyOf;
      var prior := events[..|events| - 1];
      AnswersGrow(x, prior, n);
      assert prior[..n] == events[..n];
    }
  }

  /** Any later answers leave the ones an event asks for as they were. */
  lemma EventPoised(x: Setting, cfg: M.Config, ceiling: nat, events: seq<K.TraceEvent>, n: nat, answers: seq<K.Answer>)
    requires Fits(x, cfg) && Starts(cfg, x.start, ceiling, events) && EventsOk(x.pages, RecordsOf(events))
    requires n < |events|
    requires P.Valid(x.start) && AnswersTo(x, events[..n + 1]) <= answers && NoFailure(answers)
    ensures K.Poised(x.cat, x.capacity, PolicyOf(x, answers), StandingAt(x, events[..n]), events[n])
  {
    hide Fits, EventsOk, Agree, A.Replay, M.Run, StandingAt, AnswersTo, PolicyAt, RecordsOf, ModelEvents, M.AllKnown,
         Tracks, Starts, M.Inv, ModelEvent, Next, K.Onward, P.Valid, M.Known, K.Workable, PlanIs, PlanFor, Planning,
         PolicyOf;
    var prefix, prior, e := events[..n + 1], events[..n], events[n];
    assert prefix[..n] == prior;
    StandingStep(x, prefix);
    var st := StandingAt(x, prior);
    SaysNoFailure(x, answers);
    if e.Demand? && e.page !in st.residents {
      StartsValid(cfg, x.start, ceiling, events);
      ReplaysAgree(x, cfg, ceiling, events, n);
      PolicyTracks(cfg, x.pages, x.start, ceiling, events, n);
      PolicyTracks(cfg, x.pages, x.start, ceiling, events, n + 1);
      PolicyStep(x.start, prefix);
      EventsAt(events);
      RunStep(cfg, x.pages, ModelEvents(events), n);
      KnownPage(x.pages, e);
      var s, ps := M.Run(cfg, x.pages, ModelEvents(events)[..n]), PolicyAt(x.start, prefix).value;
      PlanningTracks(cfg, x.pages, ps, s, e);
      PlannedAs(x, cfg, ps, st, s, e);
      MissWorks(x, cfg, A.Replay(x.cat, st.log), st, s, e, PlanFor(x, ps, st, RequestOf(e)));
      assert answers[st.calls + 1] == AnswersTo(x, prefix)[st.calls + 1] == PlanFor(x, ps, st, RequestOf(e));
      AnswerAt(x, answers, st.calls + 1);
    }
  }

  lemma KnownPage(pages: seq<M.Page>, e: K.TraceEvent)
    requires e.Demand? && M.Known(pages, ModelEvent(e))
    ensures e.page < |pages|
  {}

  lemma SaysNoFailure(x: Setting, answers: seq<K.Answer>)
    requires NoFailure(answers)
    ensures forall i :: PolicyOf(x, answers).answer(i) != K.Fail
  {}

  /** On every accepted trace the kernel can use every answer of its policy, so a replay fails only on
      a counter that outgrows 64 bits. */
  lemma PolicyReliable(x: Setting, spec: P.Spec, cfg: M.Config, events: seq<K.TraceEvent>)
    requires Given(x, spec, cfg, events)
    ensures K.Discreet(PolicyOf(x, Speech(x, events)))
    ensures K.Reliable(x.cat, x.capacity, PolicyOf(x, Speech(x, events)), events)
  {
    hide Given, Starts, Fits, AnswersTo, StandingAt, EventsOk, RecordsOf, Speech, NoFailure, K.Poised, K.Standings,
         PolicyOf, K.Prefetches, P.Valid, K.Discreet;
    GivenAccepted(x, spec, cfg, events);
    GivenStarts(x, spec, cfg, events);
    NeverFails(x, spec, cfg, events);
    SpeechPlain(x, spec, cfg, events);
    var answers := Speech(x, events);
    Discreet(x, answers);
    SaysNoFailure(x, answers);
    forall n | 0 <= n < |events|
      ensures
        var policy := PolicyOf(x, answers);
        K.Poised(x.cat, x.capacity, policy, K.Standings(x.cat, policy, events[..n]), events[n])
    {
      SpeechSoFar(x, events, n);
      SpeechSoFar(x, events, n + 1);
      EventPoised(x, cfg, CeilingOf(spec, events), events, n, answers);
    }
  }

  lemma SpeechSoFar(x: Setting, events: seq<K.TraceEvent>, n: nat)
    requires P.Valid(x.start) && n <= |events|
    ensures AnswersTo(x, events[..n]) <= Speech(x, events)
    ensures K.Standings(x.cat, PolicyOf(x, Speech(x, events)), events[..n]) == StandingAt(x, events[..n])
  {
    hide AnswersTo, PolicyOf, K.Standings;
    AnswersGrow(x, events, n);
    AnswersAsked(x, events[..n]);
    StandingsShare(x, AnswersTo(x, events[..n]), Speech(x, events), events[..n]);
  }

  // ---------------------------------------------------------------- without a cache

  /** The one decision of an event when nothing is kept. */
  function Passing(e: K.TraceEvent): Record {
    match e
    case Demand(sequence, _, _, page) => Event(sequence, MissBypass, Some(page), [])
    case Signal(sequence, _, _, _, _) => Event(sequence, SignalIgnored, None, [])
  }

  ghost predicate Passed(x: Setting, events: seq<K.TraceEvent>, st: K.Standing) {
    && st.residents == map[] && |st.log| == |events| && A.Replay(x.cat, st.log).resident == 0
    && forall i | 0 <= i < |events| :: st.log[i] == Passing(events[i])
  }

  /** Without a cache every demand of every trace is a bypassed miss and no page is ever resident. */
  lemma {:induction false} NoCacheBypasses(x: Setting, events: seq<K.TraceEvent>)
    requires x.start == P.Nothing && forall i | 0 <= i < |events| && events[i].Demand? :: events[i].page < |x.pages|
    ensures PolicyAt(x.start, events) == Some(P.Nothing)
    ensures Passed(x, events, StandingAt(x, events)) && NoFailure(AnswersTo(x, events))
  {
    hide StandingAt, AnswersTo, A.Replay, K.Onward, Reply, PolicyOf, Next, Passed, NoFailure;
    if events == [] {
      NothingPassed(x);
    } else {
      var prior, e := events[..|events| - 1], events[|events| - 1];
      NoCacheBypasses(x, prior);
      StandingStep(x, events);
      NothingNext(e);
      PassesOne(x, AnswersTo(x, prior), StandingAt(x, prior), e, prior);
      assert events == prior + [e];
    }
  }

  lemma NothingPassed(x: Setting)
    requires x.start == P.Nothing
    ensures Passed(x, [], StandingAt(x, [])) && NoFailure(AnswersTo(x, []))
  {}

  lemma NothingNext(e: K.TraceEvent)
    ensures Next(P.Nothing, e) == Some(P.Nothing)
  {}

  lemma PassesOne(x: Setting, before: seq<K.Answer>, st: K.Standing, e: K.TraceEvent, prior: seq<K.TraceEvent>)
    requires x.start == P.Nothing && Passed(x, prior, st) && NoFailure(before) && st.calls == |before|
    requires e.Demand? ==> e.page < |x.pages|
    ensures
      var answers := before + Reply(x, Some(P.Nothing), st, e);
      NoFailure(answers) && Passed(x, prior + [e], K.Onward(x.cat, PolicyOf(x, answers), st, e))
  {
    var answers := before + Reply(x, Some(P.Nothing), st, e);
    var policy := PolicyOf(x, answers);
    if e.Demand? { assert policy.answer(st.calls + 1) == K.Decline; }
    assert Told(x.cat, policy, st, e) == Passing(e);
    assert K.Onward(x.cat, policy, st, e).log == st.log + [Passing(e)];
    ToldAppends(x.cat, policy, st, e);
  }
}
