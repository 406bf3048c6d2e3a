/** The router signals a policy keeps (`crates/runnel-sim/src/policy/mod.rs`): scores nested by request
    and by (step, layer), and a ledger of their bytes against a ceiling computed before the replay.
    On accepted traces no ledger error can occur, the ceiling is used up exactly, and the nested scores
    are the flat scores of the independent reference. */
module RouterSignals {
  import opened Common
  import opened Totals
  import M = CacheModel
  import RouterScores
  import Sorting
  import opened TraceParser

  type Signals = map<(nat, nat), map<nat, nat>>

  type Active = map<nat, Signals>

  datatype Ledger = Ledger(active: Active, current: nat, peak: nat, recorded: nat, limit: nat)

  datatype Failure =
    | CounterOverflow | LedgerUnderflow | RepeatedExpert | RecordedTwice | AboveCeiling
    | EmptyRequest | EmptySignal | LedgerMismatch | PeakMismatch | CeilingUnused

  datatype Outcome<+T> = Ok(value: T) | Err(error: Failure)

  function Opened(limit: nat): Ledger { Ledger(map[], 0, 0, 0, limit) }

  // ---------------------------------------------------------------- bytes

  function SignalBytes(scores: nat): nat { 24 + scores * 8 }

  function Weight(signals: Signals): ((nat, nat)) -> nat {
    (key: (nat, nat)) => if key in signals then SignalBytes(|signals[key]|) else 0
  }

  ghost function RequestBytes(signals: Signals): nat { Total(signals.Keys, Weight(signals)) }

  ghost function Weights(active: Active): nat -> nat {
    (request: nat) => if request in active then RequestBytes(active[request]) else 0
  }

  /** The bytes of everything retained. */
  ghost function Live(active: Active): nat { Total(active.Keys, Weights(active)) }

  /** How many signals are retained, and how many scores in all of them. */
  ghost function SignalsKept(active: Active): nat {
    Total(active.Keys, (request: nat) => if request in active then |active[request]| else 0)
  }

  ghost function ScoresKept(active: Active): nat {
    Total(active.Keys, (request: nat) => if request in active then ScoresOf(active[request]) else 0)
  }

  ghost function ScoresOf(signals: Signals): nat {
    Total(signals.Keys, (key: (nat, nat)) => if key in signals then |signals[key]| else 0)
  }

  lemma {:induction false} LinearTotal<T>(s: set<T>, w: T -> nat, one: T -> nat, scores: T -> nat)
    requires forall x | x in s :: w(x) == 24 * one(x) + 8 * scores(x)
    ensures Total(s, w) == 24 * Total(s, one) + 8 * Total(s, scores)
  {
    hide Total;
    if s == {} {
      TotalNone(w);
      TotalNone(one);
      TotalNone(scores);
    } else {
      var x :| x in s;
      TotalRemove(s, w, x);
      TotalRemove(s, one, x);
      TotalRemove(s, scores, x);
      LinearTotal(s - {x}, w, one, scores);
    }
  }

  lemma RequestBytesAre(signals: Signals)
    ensures RequestBytes(signals) == 24 * |signals| + 8 * ScoresOf(signals)
  {
    hide Total;
    var one := (key: (nat, nat)) => 1;
    LinearTotal(signals.Keys, Weight(signals), one, (key: (nat, nat)) => if key in signals then |signals[key]| else 0);
    TotalUniform(signals.Keys, one, 1);
  }

  /** Metadata in bytes: twenty-four for every signal retained and eight for every score. */
  lemma LiveBytesAre(active: Active)
    ensures Live(active) == 24 * SignalsKept(active) + 8 * ScoresKept(active)
  {
    hide Total, RequestBytes, ScoresOf;
    forall request | request in active
      ensures Weights(active)(request) == 24 * |active[request]| + 8 * ScoresOf(active[request])
    {
      RequestBytesAre(active[request]);
    }
    LinearTotal(active.Keys, Weights(active), (request: nat) => if request in active then |active[request]| else 0,
                (request: nat) => if request in active then ScoresOf(active[request]) else 0);
  }

  ghost function Share(active: Active, request: nat): nat {
    if request in active then RequestBytes(active[request]) else 0
  }

  lemma LiveWithout(active: Active, request: nat)
    ensures Live(active - {request}) + Share(active, request) == Live(active)
  {
    hide RequestBytes;
    var rest := active - {request};
    assert rest.Keys == active.Keys - {request};
    TotalAgree(rest.Keys, Weights(rest), Weights(active));
    if request in active {
      TotalRemove(active.Keys, Weights(active), request);
    } else {
      assert rest.Keys == active.Keys;
    }
  }

  lemma LiveWith(active: Active, request: nat, signals: Signals)
    ensures Live(active[request := signals]) + Share(active, request) == Live(active) + RequestBytes(signals)
  {
    hide RequestBytes, Live;
    var next := active[request := signals];
    assert next - {request} == active - {request};
    LiveWithout(active, request);
    LiveWithout(next, request);
  }

  /** Parting the signals of a request parts their bytes. */
  lemma BytesPart(signals: Signals, kept: Signals, gone: set<(nat, nat)>)
    requires gone <= signals.Keys && kept == map key | key in signals && key !in gone :: signals[key]
    ensures RequestBytes(kept) + Total(gone, Weight(signals)) == RequestBytes(signals)
  {
    assert kept.Keys == signals.Keys - gone;
    TotalAgree(kept.Keys, Weight(kept), Weight(signals));
    TotalSplit(signals.Keys, gone, Weight(signals));
  }

  lemma BytesMore(signals: Signals, key: (nat, nat), scores: map<nat, nat>)
    requires key !in signals
    ensures RequestBytes(signals[key := scores]) == RequestBytes(signals) + SignalBytes(|scores|)
  {
    var more := signals[key := scores];
    assert more.Keys == signals.Keys + {key};
    TotalAdd(signals.Keys, Weight(more), key);
    TotalAgree(signals.Keys, Weight(more), Weight(signals));
  }

  // ---------------------------------------------------------------- the operations

  ghost function Retired(signals: Signals, step: nat): set<(nat, nat)> { set key | key in signals && key.0 < step }

  function Kept(signals: Signals, step: nat): Signals { map key | key in signals && key.0 >= step :: signals[key] }

  /** A demand of `request` at `step` retires its signals for earlier steps, and the request with the
      last of them. */
  ghost function Entered(l: Ledger, request: nat, step: nat): Outcome<Ledger> {
    if request !in l.active then Ok(l)
    else
      var signals := l.active[request];
      var bytes := Total(Retired(signals, step), Weight(signals));
      var kept := Kept(signals, step);
      if bytes > MAX_U64 then Err(CounterOverflow)
      else if l.current < bytes then Err(LedgerUnderflow)
      else Ok(l.(active := if kept == map[] then l.active - {request} else l.active[request := kept],
                 current := l.current - bytes))
  }

  function SignalsOf(active: Active, request: nat): Signals { if request in active then active[request] else map[] }

  /** The scores of a selection, inserted one after another. */
  function Collected(list: seq<M.Prediction>, into: map<nat, nat>): map<nat, nat> {
    if list == [] then into else Collected(list[1..], into[list[0].expert := list[0].score])
  }

  lemma {:induction false} CollectedFrom(list: seq<M.Prediction>, n: nat)
    requires n <= |list|
    ensures Collected(list[n..], M.ScoreTable(list[..n])) == M.ScoreTable(list)
    decreases |list| - n
  {
    if n == |list| {
      assert list[..n] == list;
    } else {
      assert list[n..][1..] == list[n + 1..] && list[..n + 1][..n] == list[..n];
      CollectedFrom(list, n + 1);
    }
  }

  /** Inserting from the front gives the table of the reference. */
  lemma CollectedTable(list: seq<M.Prediction>)
    ensures Collected(list, map[]) == M.ScoreTable(list)
  {
    CollectedFrom(list, 0);
    assert list[0..] == list;
  }

  /** A signal is stored once and charged to the live bytes and to the ceiling. */
  function Recorded(l: Ledger, request: nat, step: nat, layer: nat, selected: seq<M.Prediction>): Outcome<Ledger> {
    var scores := Collected(selected, map[]);
    var signals := SignalsOf(l.active, request);
    var charge := SignalBytes(|scores|);
    if selected == [] then Ok(l)
    else if |scores| != |selected| then Err(RepeatedExpert)
    else if (step, layer) in signals then Err(RecordedTwice)
    else if charge > MAX_U64 || l.current + charge > MAX_U64 || l.recorded + charge > MAX_U64 then Err(CounterOverflow)
    else if l.current + charge > l.limit || l.recorded + charge > l.limit then Err(AboveCeiling)
    else
      var current := l.current + charge;
      Ok(Ledger(l.active[request := signals[(step, layer) := scores]], current,
                if l.peak < current then current else l.peak, l.recorded + charge, l.limit))
  }

  function ActiveScore(active: Active, pages: seq<M.Page>, request: nat, step: nat, page: nat): nat
    requires page < |pages|
  {
    match pages[page].role
    case Shared => 0
    case Expert(layer, expert, _) =>
      var signals := SignalsOf(active, request);
      if (step, layer) !in signals || expert !in signals[(step, layer)] then 0 else signals[(step, layer)][expert]
  }

  /** No empty map is kept, for a request or for a signal. */
  ghost predicate Full(active: Active) {
    && (forall request | request in active :: active[request] != map[])
    && forall request, key | request in active && key in active[request] :: active[request][key] != map[]
  }

  /** The ledger is the live bytes, and it stays within what was recorded. */
  ghost predicate Sound(l: Ledger) {
    && Full(l.active)
    && l.current == Live(l.active) && l.current <= l.peak <= l.recorded <= l.limit <= MAX_U64
  }

  lemma OpenedSound(limit: nat)
    requires limit <= MAX_U64
    ensures Sound(Opened(limit))
  {
    TotalNone(Weights(map[]));
    assert Live(map[]) == 0 by { var none: Active := map[]; assert none.Keys == {}; }
  }

  lemma EnteredSound(l: Ledger, request: nat, step: nat)
    requires Sound(l)
    ensures Entered(l, request, step).Ok? && Sound(Entered(l, request, step).value)
    ensures
      var t := Entered(l, request, step).value;
      t.peak == l.peak && t.recorded == l.recorded && t.limit == l.limit
  {
    hide Live, RequestBytes, Full, Kept, Retired, Weight;
    if request in l.active {
      RetiredBytes(l, request, step);
      StaysFull(l.active, request, step);
    }
  }

  lemma RetiredBytes(l: Ledger, request: nat, step: nat)
    requires request in l.active && l.current == Live(l.active)
    ensures
      var signals, kept := l.active[request], Kept(l.active[request], step);
      var bytes := Total(Retired(signals, step), Weight(signals));
      && bytes <= l.current && Live(l.active[request := kept]) == l.current - bytes
      && (kept == map[] ==> Live(l.active - {request}) == l.current - bytes)
  {
    hide Live, RequestBytes, Kept, Retired, Weight;
    KeptBytes(l.active[request], step);
    LiveWithout(l.active, request);
    LiveWith(l.active, request, Kept(l.active[request], step));
    NoBytes();
  }

  lemma KeptBytes(signals: Signals, step: nat)
    ensures RequestBytes(Kept(signals, step)) + Total(Retired(signals, step), Weight(signals)) == RequestBytes(signals)
  {
    hide RequestBytes;
    BytesPart(signals, Kept(signals, step), Retired(signals, step));
  }

  lemma StaysFull(active: Active, request: nat, step: nat)
    requires Full(active) && request in active
    ensures Full(active - {request})
    ensures Kept(active[request], step) != map[] ==> Full(active[request := Kept(active[request], step)])
  {}

  lemma NoBytes()
    ensures RequestBytes(map[]) == 0
  {
    var none: Signals := map[];
    TotalNone(Weight(none));
    assert none.Keys == {};
  }

  lemma RecordedSound(l: Ledger, request: nat, step: nat, layer: nat, selected: seq<M.Prediction>)
    requires Sound(l) && selected != [] && |M.ScoreTable(selected)| == |selected|
    requires (step, layer) !in SignalsOf(l.active, request) && l.recorded + SignalBytes(|selected|) <= l.limit
    ensures
      var r := Recorded(l, request, step, layer, selected);
      r.Ok? && Sound(r.value) && r.value.recorded == l.recorded + SignalBytes(|selected|) && r.value.limit == l.limit
  {
    hide Live, RequestBytes, M.ScoreTable, Collected;
    CollectedTable(selected);
    var signals := SignalsOf(l.active, request);
    var scores := M.ScoreTable(selected);
    BytesMore(signals, (step, layer), scores);
    LiveWith(l.active, request, signals[(step, layer) := scores]);
    NoBytes();
  }

  // ---------------------------------------------------------------- against the flat scores of the reference

  ghost predicate Mirrors(active: Active, scores: M.Scores) {
    && (forall key :: key in scores <==> key.0 in active && (key.1, key.2) in active[key.0])
    && forall key | key in scores :: active[key.0][(key.1, key.2)] == scores[key]
  }

  lemma EnteredMirrors(cfg: M.Config, l: Ledger, scores: M.Scores, request: nat, step: nat)
    requires cfg.policy.RouterAdmitPolicy? && Mirrors(l.active, scores) && Entered(l, request, step).Ok?
    ensures Mirrors(Entered(l, request, step).value.active, M.Unexpired(cfg, scores, request, step))
  {
    hide Retired, Weight, Total;
    var next, rest := Entered(l, request, step).value.active, M.Unexpired(cfg, scores, request, step);
    forall key: (nat, nat, nat)
      ensures key in rest <==> key.0 in next && (key.1, key.2) in next[key.0]
      ensures key in rest ==> next[key.0][(key.1, key.2)] == rest[key]
    {
      EnteredAt(l, request, step, key);
    }
  }

  lemma EnteredAt(l: Ledger, request: nat, step: nat, key: (nat, nat, nat))
    requires Entered(l, request, step).Ok?
    ensures
      var next, k := Entered(l, request, step).value.active, (key.1, key.2);
      && (key.0 in next && k in next[key.0]
          <==> key.0 in l.active && k in l.active[key.0] && !(key.0 == request && key.1 < step))
      && (key.0 in next && k in next[key.0] ==> next[key.0][k] == l.active[key.0][k])
  {
    hide Retired, Weight, Total;
    if request in l.active {
      var kept := Kept(l.active[request], step);
      assert (key.1, key.2) in kept <==> (key.1, key.2) in l.active[request] && key.1 >= step;
    }
  }

  lemma RecordedMirrors(l: Ledger, scores: M.Scores, request: nat, step: nat, layer: nat, selected: seq<M.Prediction>)
    requires Mirrors(l.active, scores) && selected != [] && Recorded(l, request, step, layer, selected).Ok?
    ensures
      Mirrors(Recorded(l, request, step, layer, selected).value.active,
              scores[(request, step, layer) := M.ScoreTable(selected)])
  {
    hide M.ScoreTable, Collected;
    CollectedTable(selected);
  }

  /** The two tables score a page alike, and one is empty when the other is. */
  lemma SameScore(cfg: M.Config, active: Active, scores: M.Scores, pages: seq<M.Page>, request: nat, step: nat,
                  page: nat)
    requires cfg.policy.RouterAdmitPolicy? && Mirrors(active, scores) && page < |pages|
    ensures ActiveScore(active, pages, request, step, page) == M.ActiveScore(cfg, scores, pages, request, step, page)
  {
    if pages[page].role.Expert? {
      assert (request, step, pages[page].role.layer) in scores
        <==> request in active && (step, pages[page].role.layer) in active[request];
    }
  }

  lemma EmptyTogether(active: Active, scores: M.Scores)
    requires Full(active) && Mirrors(active, scores)
    ensures active == map[] <==> scores == map[]
  {
    if active != map[] {
      var request :| request in active;
      var k :| k in active[request];
      assert (request, k.0, k.1) in scores;
    }
    if scores != map[] {
      var key :| key in scores;
      assert key.0 in active;
    }
  }

  // ---------------------------------------------------------------- selections

  predicate DistinctExperts(list: seq<M.Prediction>) {
    forall i, j | 0 <= i < j < |list| :: list[i].expert != list[j].expert
  }

  lemma {:induction false} PlaceDistinct(p: M.Prediction, ranked: seq<M.Prediction>)
    requires DistinctExperts(ranked) && forall q | q in ranked :: q.expert != p.expert
    ensures DistinctExperts(M.Place(p, ranked))
    ensures forall q :: q in M.Place(p, ranked) <==> q == p || q in ranked
  {
    if ranked != [] && !M.RanksBefore(p, ranked[0]) {
      assert ranked == [ranked[0]] + ranked[1..];
      PlaceDistinct(p, ranked[1..]);
      var rest := M.Place(p, ranked[1..]);
      forall i | 0 <= i < |rest| ensures rest[i].expert != ranked[0].expert {
        assert rest[i] in rest;
      }
    }
  }

  lemma {:induction false} RankedDistinct(predictions: seq<M.Prediction>, minimum: nat)
    requires DistinctExperts(predictions)
    ensures DistinctExperts(M.Ranked(predictions, minimum))
    ensures forall q | q in M.Ranked(predictions, minimum) :: q in predictions
  {
    if predictions != [] {
      var n := |predictions| - 1;
      RankedDistinct(predictions[..n], minimum);
      assert predictions == predictions[..n] + [predictions[n]];
      if predictions[n].score >= minimum { PlaceDistinct(predictions[n], M.Ranked(predictions[..n], minimum)); }
    }
  }

  lemma {:induction false} TableSize(list: seq<M.Prediction>)
    requires DistinctExperts(list)
    ensures |M.ScoreTable(list)| == |list|
    ensures forall expert :: expert in M.ScoreTable(list) <==> exists i :: 0 <= i < |list| && list[i].expert == expert
  {
    if list != [] {
      var n := |list| - 1;
      TableSize(list[..n]);
    }
  }

  /** A selection from distinct experts keeps them distinct. */
  lemma SelectedTable(predictions: seq<M.Prediction>, minimum: nat, limit: nat)
    requires DistinctExperts(predictions)
    ensures
      var selected := M.Selected(predictions, minimum, limit);
      |M.ScoreTable(selected)| == |selected|
  {
    hide M.Ranked, M.ScoreTable;
    RankedDistinct(predictions, minimum);
    TableSize(M.Selected(predictions, minimum, limit));
  }

  // ---------------------------------------------------------------- whole replays

  /** What the policy does with one event. */
  ghost function LedgerStep(minimum: nat, limit: nat, l: Ledger, e: M.Event): Outcome<Ledger> {
    match e
    case Demand(request, step, _) => Entered(l, request, step)
    case Signal(request, step, layer, predictions) =>
      Recorded(l, request, step, layer, M.Selected(predictions, minimum, limit))
  }

  ghost function LedgerAt(minimum: nat, limit: nat, ceiling: nat, events: seq<M.Event>): Outcome<Ledger> {
    if events == [] then Ok(Opened(ceiling))
    else
      match LedgerAt(minimum, limit, ceiling, events[..|events| - 1])
      case Err(error) => Err(error)
      case Ok(l) => LedgerStep(minimum, limit, l, events[|events| - 1])
  }

  /** The bytes retained after the first `n` events. */
  ghost function RetainedAfter(minimum: nat, limit: nat, ceiling: nat, events: seq<M.Event>, n: nat): nat
    requires n <= |events|
  {
    match LedgerAt(minimum, limit, ceiling, events[..n]) case Ok(l) => l.current case Err(_) => 0
  }

  lemma StepPeak(minimum: nat, limit: nat, l: Ledger, e: M.Event)
    requires l.current <= l.peak && LedgerStep(minimum, limit, l, e).Ok?
    ensures
      var next := LedgerStep(minimum, limit, l, e).value;
      next.peak == (if l.peak < next.current then next.current else l.peak) && next.current <= next.peak
  {
    hide Total, Weight, Kept, Retired, Collected, M.Selected;
  }

  /** The peak is reached by the bytes retained at some point and passed at none. */
  lemma {:induction false} PeakIsHighest(minimum: nat, limit: nat, ceiling: nat, events: seq<M.Event>)
    requires LedgerAt(minimum, limit, ceiling, events).Ok?
    ensures
      var l := LedgerAt(minimum, limit, ceiling, events).value;
      && l.current <= l.peak
      && (forall n | 0 <= n <= |events| :: RetainedAfter(minimum, limit, ceiling, events, n) <= l.peak)
      && exists n :: 0 <= n <= |events| && RetainedAfter(minimum, limit, ceiling, events, n) == l.peak
  {
    hide LedgerStep, RetainedAfter;
    RetainedNow(minimum, limit, ceiling, events);
    if events != [] {
      var k := |events| - 1;
      var prior := events[..k];
      PeakIsHighest(minimum, limit, ceiling, prior);
      StepPeak(minimum, limit, LedgerAt(minimum, limit, ceiling, prior).value, events[k]);
      forall n | 0 <= n <= k
        ensures RetainedAfter(minimum, limit, ceiling, events, n) == RetainedAfter(minimum, limit, ceiling, prior, n)
      {
        RetainedBefore(minimum, limit, ceiling, events, k, n);
      }
      var l := LedgerAt(minimum, limit, ceiling, prior).value;
      var m :| 0 <= m <= k && RetainedAfter(minimum, limit, ceiling, prior, m) == l.peak;
      assert RetainedAfter(minimum, limit, ceiling, events, m) == l.peak;
    }
  }

  lemma RetainedNow(minimum: nat, limit: nat, ceiling: nat, events: seq<M.Event>)
    requires LedgerAt(minimum, limit, ceiling, events).Ok?
    ensures
      RetainedAfter(minimum, limit, ceiling, events, |events|)
      == LedgerAt(minimum, limit, ceiling, events).value.current
  {
    assert events[..|events|] == events;
  }

  lemma RetainedBefore(minimum: nat, limit: nat, ceiling: nat, events: seq<M.Event>, k: nat, n: nat)
    requires n <= k <= |events|
    ensures
      RetainedAfter(minimum, limit, ceiling, events, n) == RetainedAfter(minimum, limit, ceiling, events[..k], n)
  {
    assert events[..k][..n] == events[..n];
  }

  /** The charge of one event to the ceiling: counted, not sorted. */
  function EventCharge(minimum: nat, limit: nat, e: M.Event): nat {
    if !e.Signal? then 0
    else
      var qualified := |RouterScores.Qualified(e.predictions, minimum)|;
      var selected := if qualified < limit then qualified else limit;
      if selected == 0 then 0 else SignalBytes(selected)
  }

  function Ceiling(minimum: nat, limit: nat, events: seq<M.Event>): nat {
    if events == [] then 0
    else Ceiling(minimum, limit, events[..|events| - 1]) + EventCharge(minimum, limit, events[|events| - 1])
  }

  /** The ceiling is computed before the replay; it can only overflow. */
  method RouterMetadataLimit(minimum: nat, limit: nat, events: seq<M.Event>) returns (r: Outcome<nat>)
    ensures
      var ceiling := Ceiling(minimum, limit, events);
      r == if ceiling <= MAX_U64 then Ok(ceiling) else Err(CounterOverflow)
  {
    hide RouterScores.Qualified;
    var total: nat := 0;
    for i := 0 to |events|
      invariant total == Ceiling(minimum, limit, events[..i]) <= MAX_U64
    {
      assert events[..i + 1][..i] == events[..i];
      CeilingGrows(minimum, limit, events, i + 1);
      var charge := EventCharge(minimum, limit, events[i]);
      if total + charge > MAX_U64 { return Err(CounterOverflow); }
      total := total + charge;
    }
    assert events[..|events|] == events;
    r := Ok(total);
  }

  lemma {:induction false} CeilingGrows(minimum: nat, limit: nat, events: seq<M.Event>, n: nat)
    requires n <= |events|
    ensures Ceiling(minimum, limit, events[..n]) <= Ceiling(minimum, limit, events)
    decreases |events| - n
  {
    hide EventCharge;
    if n == |events| {
      assert events[..n] == events;
    } else {
      assert events[..n + 1][..n] == events[..n];
      CeilingGrows(minimum, limit, events, n + 1);
    }
  }

  lemma ChargeOfSelection(minimum: nat, limit: nat, e: M.Event)
    requires e.Signal?
    ensures
      var selected := M.Selected(e.predictions, minimum, limit);
      EventCharge(minimum, limit, e) == if selected == [] then 0 else SignalBytes(|selected|)
  {
    hide M.Selected, RouterScores.Qualified;
    var _ := RouterScores.SelectedAreBest(e.predictions, minimum, limit);
  }

  /** At every point of an accepted trace the ledger is sound, has charged exactly the ceiling of what
      it has seen, and mirrors the scores of the reference. */
  ghost predicate InStep(l: Ledger, ceiling: nat, charged: nat, scores: M.Scores) {
    Sound(l) && l.limit == ceiling && l.recorded == charged && Mirrors(l.active, scores)
  }

  lemma StepInStep(cfg: M.Config, pages: seq<M.Page>, records: seq<EventRecord>, n: nat, l: Ledger, ceiling: nat,
                   charged: nat, scores: M.Scores)
    requires cfg.policy.RouterAdmitPolicy? && n < |records| && EventOk(pages, records, n)
    requires InStep(l, ceiling, charged, scores)
    requires
      var e := records[n].event;
      && charged + EventCharge(cfg.minimumScorePpm, cfg.maxExperts, e) <= ceiling
      && (e.Signal? ==> (e.request, e.targetStep, e.layer) !in scores)
    ensures
      var e := records[n].event;
      var r := LedgerStep(cfg.minimumScorePpm, cfg.maxExperts, l, e);
      && r.Ok?
      && InStep(r.value, ceiling, charged + EventCharge(cfg.minimumScorePpm, cfg.maxExperts, e),
                if e.Signal? then M.AfterSignal(cfg, scores, e) else M.Unexpired(cfg, scores, e.request, e.step))
  {
    hide Sound, Mirrors, Entered, Recorded, M.Selected, M.ScoreTable, M.Unexpired, EventCharge;
    var e := records[n].event;
    match e
    case Demand(request, step, _) =>
      EnteredSound(l, request, step);
      EnteredMirrors(cfg, l, scores, request, step);
      NoCharge(cfg.minimumScorePpm, cfg.maxExperts, e);
    case Signal(request, step, layer, predictions) =>
      ChargeOfSelection(cfg.minimumScorePpm, cfg.maxExperts, e);
      NotYet(l.active, scores, request, step, layer);
      var selected := M.Selected(predictions, cfg.minimumScorePpm, cfg.maxExperts);
      if selected == [] {
        NothingSelected(l, request, step, layer);
        assert scores - {(request, step, layer)} == scores;
      } else {
        SelectedTable(predictions, cfg.minimumScorePpm, cfg.maxExperts);
        RecordedSound(l, request, step, layer, selected);
        RecordedMirrors(l, scores, request, step, layer, selected);
      }
  }

  lemma NoCharge(minimum: nat, limit: nat, e: M.Event)
    requires e.Demand?
    ensures EventCharge(minimum, limit, e) == 0
  {}

  lemma NothingSelected(l: Ledger, request: nat, step: nat, layer: nat)
    ensures Recorded(l, request, step, layer, []) == Ok(l)
  {}

  lemma NotYet(active: Active, scores: M.Scores, request: nat, step: nat, layer: nat)
    requires Mirrors(active, scores) && (request, step, layer) !in scores
    ensures (step, layer) !in SignalsOf(active, request)
  {}

  lemma {:induction false} LedgerExact(cfg: M.Config, pages: seq<M.Page>, records: seq<EventRecord>, n: nat,
                                       ceiling: nat)
    requires cfg.Valid() && cfg.policy.RouterAdmitPolicy? && EventsOk(pages, records) && n <= |records|
    requires ceiling == Ceiling(cfg.minimumScorePpm, cfg.maxExperts, RouterScores.Stream(records))
    ensures M.AllKnown(pages, RouterScores.Stream(records))
    ensures
      var seen := RouterScores.Stream(records)[..n];
      var r := LedgerAt(cfg.minimumScorePpm, cfg.maxExperts, ceiling, seen);
      && r.Ok?
      && InStep(r.value, ceiling, Ceiling(cfg.minimumScorePpm, cfg.maxExperts, seen),
                RouterScores.ScoresAt(cfg, pages, records, n))
  {
    hide RouterScores.Stream, RouterScores.ScoresAt, EventsOk, EventOk, LedgerStep, EventCharge, InStep, M.AfterSignal,
         M.Unexpired, M.AllKnown, RealizedBefore;
    RouterScores.AcceptedIsKnown(pages, records);
    CeilingFits(cfg.minimumScorePpm, cfg.maxExperts, pages, records);
    var all := RouterScores.Stream(records);
    StreamAt(records);
    if n == 0 {
      NothingInStep(cfg, pages, records, ceiling);
    } else {
      LedgerExact(cfg, pages, records, n - 1, ceiling);
      var seen := all[..n];
      assert seen[..n - 1] == all[..n - 1] && seen[n - 1] == records[n - 1].event;
      CeilingGrows(cfg.minimumScorePpm, cfg.maxExperts, all, n);
      AcceptedAt(pages, records, n - 1);
      RouterScores.RetentionSafety(cfg, pages, records, n - 1, (0, 0, 0));
      RouterScores.ScoresStep(cfg, pages, records, n - 1);
      var l := LedgerAt(cfg.minimumScorePpm, cfg.maxExperts, ceiling, all[..n - 1]).value;
      StepInStep(cfg, pages, records, n - 1, l, ceiling, Ceiling(cfg.minimumScorePpm, cfg.maxExperts, all[..n - 1]),
                 RouterScores.ScoresAt(cfg, pages, records, n - 1));
    }
  }

  lemma StreamAt(records: seq<EventRecord>)
    ensures |RouterScores.Stream(records)| == |records|
    ensures forall i | 0 <= i < |records| :: RouterScores.Stream(records)[i] == records[i].event
  {}

  lemma AcceptedAt(pages: seq<M.Page>, records: seq<EventRecord>, n: nat)
    requires EventsOk(pages, records) && n < |records|
    ensures EventOk(pages, records, n)
  {}

  lemma {:induction false} QualifiedFewer(predictions: seq<M.Prediction>, minimum: nat)
    ensures |RouterScores.Qualified(predictions, minimum)| <= |predictions|
  {
    if predictions != [] { QualifiedFewer(predictions[..|predictions| - 1], minimum); }
  }

  lemma ChargeFits(minimum: nat, limit: nat, pages: seq<M.Page>, records: seq<EventRecord>, n: nat)
    requires n < |records| && EventOk(pages, records, n)
    ensures EventCharge(minimum, limit, records[n].event) <= SignalBytes(MAX_PREDICTIONS)
  {
    if records[n].event.Signal? { QualifiedFewer(records[n].event.predictions, minimum); }
  }

  lemma {:induction false} CeilingSteps(minimum: nat, limit: nat, pages: seq<M.Page>, records: seq<EventRecord>, n: nat)
    requires EventsOk(pages, records) && n <= |records|
    ensures n <= |RouterScores.Stream(records)|
    ensures Ceiling(minimum, limit, RouterScores.Stream(records)[..n]) <= n * SignalBytes(MAX_PREDICTIONS)
  {
    hide EventsOk, EventOk, EventCharge, RouterScores.Stream;
    StreamAt(records);
    if n > 0 {
      var all := RouterScores.Stream(records);
      CeilingSteps(minimum, limit, pages, records, n - 1);
      AcceptedAt(pages, records, n - 1);
      ChargeFits(minimum, limit, pages, records, n - 1);
      assert all[..n][..n - 1] == all[..n - 1];
    }
  }

  /** No accepted trace has a ceiling beyond 64 bits. */
  lemma CeilingFits(minimum: nat, limit: nat, pages: seq<M.Page>, records: seq<EventRecord>)
    requires EventsOk(pages, records)
    ensures Ceiling(minimum, limit, RouterScores.Stream(records)) <= MAX_U64
  {
    var all := RouterScores.Stream(records);
    CeilingSteps(minimum, limit, pages, records, |records|);
    assert all[..|records|] == all && |records| <= MAX_EVENTS;
  }

  lemma NothingInStep(cfg: M.Config, pages: seq<M.Page>, records: seq<EventRecord>, ceiling: nat)
    requires cfg.Valid() && M.AllKnown(pages, RouterScores.Stream(records)) && ceiling <= MAX_U64
    ensures InStep(Opened(ceiling), ceiling, 0, RouterScores.ScoresAt(cfg, pages, records, 0))
  {
    OpenedSound(ceiling);
    assert RouterScores.Stream(records)[..0] == [];
  }

  // ---------------------------------------------------------------- the end of a replay

  /** The closing checks. */
  ghost predicate Closes(l: Ledger) {
    && Full(l.active) && Live(l.active) <= MAX_U64 && l.current == Live(l.active)
    && l.current <= l.peak <= l.limit && l.recorded == l.limit
  }

  /** On every accepted trace no closing check can fail: the ceiling is recorded to the byte, the
      ledger is the bytes still retained, and it never passed its peak or the ceiling. */
  lemma MetadataExact(cfg: M.Config, pages: seq<M.Page>, records: seq<EventRecord>, ceiling: nat)
    requires cfg.Valid() && cfg.policy.RouterAdmitPolicy? && EventsOk(pages, records)
    requires ceiling == Ceiling(cfg.minimumScorePpm, cfg.maxExperts, RouterScores.Stream(records))
    ensures
      var r := LedgerAt(cfg.minimumScorePpm, cfg.maxExperts, ceiling, RouterScores.Stream(records));
      && r.Ok? && r.value.recorded == r.value.limit == ceiling
      && r.value.current == Live(r.value.active) <= r.value.peak <= ceiling
      && Closes(r.value)
  {
    hide EventsOk, LedgerAt, Live, Mirrors;
    LedgerExact(cfg, pages, records, |records|, ceiling);
    assert RouterScores.Stream(records)[..|records|] == RouterScores.Stream(records);
  }

  // ---------------------------------------------------------------- the object

  predicate KeyBefore(a: (nat, nat), b: (nat, nat)) { a.0 < b.0 || (a.0 == b.0 && a.1 < b.1) }

  lemma KeysOrdered(s: set<(nat, nat)>)
    ensures Sorting.Orders(KeyBefore, s)
  {}

  /** How many keys of the ascending list come before `step`. */
  method TakeWhile(keys: seq<(nat, nat)>, step: nat) returns (n: nat)
    requires Sorting.Ascending(KeyBefore, keys)
    ensures n <= |keys| && forall i | 0 <= i < |keys| :: keys[i].0 < step <==> i < n
  {
    n := 0;
    while n < |keys| && keys[n].0 < step
      invariant n <= |keys| && forall i | 0 <= i < n :: keys[i].0 < step
    {
      n := n + 1;
    }
    forall i | n <= i < |keys| ensures keys[i].0 >= step {
      if n < i { assert KeyBefore(keys[n], keys[i]); }
    }
  }

  /** The bytes of the listed signals. */
  method SumBytes(signals: Signals, keys: seq<(nat, nat)>) returns (r: Outcome<nat>)
    requires Sorting.Members(keys) <= signals.Keys && Sorting.Ascending(KeyBefore, keys)
    ensures
      var bytes := Total(Sorting.Members(keys), Weight(signals));
      r == if bytes <= MAX_U64 then Ok(bytes) else Err(CounterOverflow)
  {
    hide Total, Sorting.Members;
    var total: nat := 0;
    NoMembers(signals);
    for i := 0 to |keys|
      invariant total == Total(Sorting.Members(keys[..i]), Weight(signals)) <= MAX_U64
    {
      MembersStep(signals, keys, i);
      if total + SignalBytes(|signals[keys[i]]|) > MAX_U64 { return Err(CounterOverflow); }
      total := total + SignalBytes(|signals[keys[i]]|);
    }
    assert keys[..|keys|] == keys;
    r := Ok(total);
  }

  /** The signals before a step, in ascending order until the first later one: their bytes, and what
      is left without them. */
  method Retire(signals: Signals, step: nat) returns (r: Outcome<nat>, left: Signals)
    ensures
      var bytes := Total(Retired(signals, step), Weight(signals));
      r == if bytes <= MAX_U64 then Ok(bytes) else Err(CounterOverflow)
    ensures r.Ok? ==> left == Kept(signals, step)
  {
    hide Total, Weight, Sorting.Members, Sorting.Ascending, Retired, Kept, Sorting.Orders;
    left := signals;
    KeysOrdered(signals.Keys);
    var keys := Sorting.Sort(KeyBefore, signals.Keys);
    KeysListed(signals, keys);
    var n := TakeWhile(keys, step);
    RetiredListed(signals, keys, n, step);
    r := SumBytes(signals, keys[..n]);
    if r.Err? { return; }
    left := RemoveAll(signals, keys[..n]);
    KeptListed(signals, keys[..n], step);
  }

  function Minus(signals: Signals, keys: seq<(nat, nat)>): Signals {
    map key | key in signals && key !in keys :: signals[key]
  }

  method RemoveAll(signals: Signals, keys: seq<(nat, nat)>) returns (left: Signals)
    ensures left == Minus(signals, keys)
  {
    left := signals;
    assert signals == Minus(signals, keys[..0]);
    for i := 0 to |keys|
      invariant left == Minus(signals, keys[..i])
    {
      assert keys[..i + 1] == keys[..i] + [keys[i]];
      left := left - {keys[i]};
    }
    assert keys[..|keys|] == keys;
  }

  lemma KeptListed(signals: Signals, keys: seq<(nat, nat)>, step: nat)
    requires forall key | key in signals :: key in keys <==> key.0 < step
    ensures Minus(signals, keys) == Kept(signals, step)
  {}

  class SignalLedger {
    var active: Active
    var current: nat
    var peak: nat
    var recorded: nat
    var limit: nat

    function State(): Ledger reads this { Ledger(active, current, peak, recorded, limit) }

    constructor (limit: nat)
      ensures State() == Opened(limit)
    {
      active, current, peak, recorded, this.limit := map[], 0, 0, 0, limit;
    }

    method EnterDemandStep(request: nat, step: nat) returns (r: Outcome<()>)
      modifies this
      ensures
        match Entered(old(State()), request, step)
        case Ok(l) => r == Ok(()) && State() == l
        case Err(error) => r == Err(error)
    {
      hide Total, Weight, Kept, Retired;
      if request !in active { return Ok(()); }
      var bytes, left := Retire(active[request], step);
      if bytes.Err? { return Err(bytes.error); }
      active := if left == map[] then active - {request} else active[request := left];
      if current < bytes.value { return Err(LedgerUnderflow); }
      current := current - bytes.value;
      r := Ok(());
    }

    method RecordSignal(request: nat, step: nat, layer: nat, selected: seq<M.Prediction>) returns (r: Outcome<()>)
      modifies this
      ensures
        match Recorded(old(State()), request, step, layer, selected)
        case Ok(l) => r == Ok(()) && State() == l
        case Err(error) => r == Err(error) && State() == old(State())
    {
      hide Collected;
      if selected == [] { return Ok(()); }
      var scores := Collected(selected, map[]);
      if |scores| != |selected| { return Err(RepeatedExpert); }
      if request in active && (step, layer) in active[request] { return Err(RecordedTwice); }
      var charge := SignalBytes(|scores|);
      if charge > MAX_U64 || current + charge > MAX_U64 || recorded + charge > MAX_U64 { return Err(CounterOverflow); }
      if current + charge > limit || recorded + charge > limit { return Err(AboveCeiling); }
      active := active[request := SignalsOf(active, request)[(step, layer) := scores]];
      current, recorded := current + charge, recorded + charge;
      if peak < current { peak := current; }
      r := Ok(());
    }

    /** The closing checks; they give the peak and the ceiling. */
    method FinishMetadata() returns (r: Outcome<(nat, nat)>)
      ensures r.Ok? <==> Closes(State())
      ensures r.Ok? ==> r.value == (peak, limit)
    {
      hide Live, Full;
      var live := Recompute(active);
      if live.Err? { return Err(live.error); }
      if live.value != current { return Err(LedgerMismatch); }
      if current > peak || peak > limit { return Err(PeakMismatch); }
      if recorded != limit { return Err(CeilingUnused); }
      r := Ok((peak, limit));
    }
  }

  /** The live bytes summed anew, request by request; an empty map is an error. */
  method Recompute(active: Active) returns (r: Outcome<nat>)
    ensures r.Ok? <==> Full(active) && Live(active) <= MAX_U64
    ensures r.Ok? ==> r.value == Live(active)
  {
    hide Total, RequestBytes, Weights, Full, FullAmong, FullRequest;
    FullAll(active);
    var todo := active.Keys;
    var total: nat := 0;
    TotalNone(Weights(active));
    assert active.Keys - todo == {};
    while todo != {}
      invariant todo <= active.Keys && total == Total(active.Keys - todo, Weights(active)) <= MAX_U64
      invariant FullAmong(active, active.Keys - todo)
      decreases |todo|
    {
      var request :| request in todo;
      FullMore(active, todo, request);
      LiveStep(active, todo, request);
      var signals := active[request];
      if signals == map[] { return Err(EmptyRequest); }
      var bytes := RecomputeRequest(signals, total);
      if bytes.Err? { return Err(bytes.error); }
      total := bytes.value;
      todo := todo - {request};
    }
    assert active.Keys - todo == active.Keys;
    r := Ok(total);
  }

  ghost predicate FullRequest(signals: Signals) {
    signals != map[] && forall key | key in signals :: signals[key] != map[]
  }

  ghost predicate FullAmong(active: Active, among: set<nat>) {
    forall request | request in among && request in active :: FullRequest(active[request])
  }

  lemma FullAll(active: Active)
    ensures FullAmong(active, {}) && (Full(active) <==> FullAmong(active, active.Keys))
  {}

  lemma FullMore(active: Active, todo: set<nat>, request: nat)
    requires request in todo && todo <= active.Keys && FullAmong(active, active.Keys - todo)
    ensures active[request] == map[] ==> !Full(active)
    ensures !FullRequest(active[request]) ==> !Full(active)
    ensures FullRequest(active[request]) ==> FullAmong(active, active.Keys - (todo - {request}))
  {}

  lemma LiveStep(active: Active, todo: set<nat>, request: nat)
    requires todo <= active.Keys && request in todo
    ensures Total(active.Keys - (todo - {request}), Weights(active))
      == Total(active.Keys - todo, Weights(active)) + RequestBytes(active[request]) <= Live(active)
  {
    hide RequestBytes;
    assert active.Keys - (todo - {request}) == (active.Keys - todo) + {request};
    TotalAdd(active.Keys - todo, Weights(active), request);
    TotalMonotone(active.Keys - (todo - {request}), active.Keys, Weights(active));
  }

  method RecomputeRequest(signals: Signals, start: nat) returns (r: Outcome<nat>)
    requires signals != map[] && start <= MAX_U64
    ensures r.Ok? <==> FullRequest(signals) && start + RequestBytes(signals) <= MAX_U64
    ensures r.Ok? ==> r.value == start + RequestBytes(signals)
  {
    hide Total;
    var todo := signals.Keys;
    var total: nat := start;
    TotalNone(Weight(signals));
    assert signals.Keys - todo == {};
    while todo != {}
      invariant todo <= signals.Keys && total == start + Total(signals.Keys - todo, Weight(signals)) <= MAX_U64
      invariant forall key | key in signals.Keys - todo :: signals[key] != map[]
      decreases |todo|
    {
      var key :| key in todo;
      assert signals.Keys - (todo - {key}) == (signals.Keys - todo) + {key};
      TotalAdd(signals.Keys - todo, Weight(signals), key);
      TotalMonotone(signals.Keys - (todo - {key}), signals.Keys, Weight(signals));
      if signals[key] == map[] { return Err(EmptySignal); }
      if total + SignalBytes(|signals[key]|) > MAX_U64 { return Err(CounterOverflow); }
      total := total + SignalBytes(|signals[key]|);
      todo := todo - {key};
    }
    assert signals.Keys - todo == signals.Keys;
    r := Ok(total);
  }

  lemma NoMembers(signals: Signals)
    ensures Total(Sorting.Members([]), Weight(signals)) == 0
  {
    TotalNone(Weight(signals));
    var none: seq<(nat, nat)> := [];
    assert Sorting.Members(none) == {};
  }

  lemma MembersStep(signals: Signals, keys: seq<(nat, nat)>, i: nat)
    requires i < |keys| && Sorting.Members(keys) <= signals.Keys && Sorting.Ascending(KeyBefore, keys)
    ensures keys[i] in signals
    ensures Total(Sorting.Members(keys[..i + 1]), Weight(signals))
      == Total(Sorting.Members(keys[..i]), Weight(signals)) + SignalBytes(|signals[keys[i]]|)
      <= Total(Sorting.Members(keys), Weight(signals))
  {
    assert keys[i] in Sorting.Members(keys);
    assert keys[..i + 1] == keys[..i] + [keys[i]];
    Sorting.Appended(keys[..i], keys[i]);
    forall k | 0 <= k < i ensures keys[k] != keys[i] { assert KeyBefore(keys[k], keys[i]); }
    TotalAdd(Sorting.Members(keys[..i]), Weight(signals), keys[i]);
    TotalMonotone(Sorting.Members(keys[..i + 1]), Sorting.Members(keys), Weight(signals));
  }

  lemma KeysListed(signals: Signals, keys: seq<(nat, nat)>)
    requires Sorting.Lists(KeyBefore, signals.Keys, keys)
    ensures Sorting.Ascending(KeyBefore, keys) && Sorting.Members(keys) == signals.Keys
  {}

  lemma RetiredListed(signals: Signals, keys: seq<(nat, nat)>, n: nat, step: nat)
    requires Sorting.Ascending(KeyBefore, keys) && Sorting.Members(keys) == signals.Keys && n <= |keys|
    requires forall i | 0 <= i < |keys| :: keys[i].0 < step <==> i < n
    ensures Sorting.Members(keys[..n]) == Retired(signals, step) <= signals.Keys
    ensures Sorting.Ascending(KeyBefore, keys[..n])
    ensures forall key | key in signals :: key in keys[..n] <==> key.0 < step
  {
    forall key | key in signals ensures key in keys[..n] <==> key.0 < step {
      assert key in Sorting.Members(keys);
      var i :| 0 <= i < |keys| && keys[i] == key;
      if i < n { assert keys[..n][i] == key; }
    }
    assert forall i | 0 <= i < n :: keys[i] in Sorting.Members(keys);
  }
}
