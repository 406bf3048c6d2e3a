/** What one event of `simulate` in `oracle/cache_policy.py` does to the cache state,
    for all four policies. Victim planning and segment rebalancing are stated as sets:
    which pages are evicted or demoted, not how a loop finds them. `CacheSimulator`
    proves that the source's sort-and-scan loops compute exactly these sets. */
module CacheModel {
  import opened Common
  import opened Totals
  import TinyLfu

  const PPM: nat := 1_000_000

  datatype Policy = LruPolicy | SlruPolicy | TinyLfuPolicy | RouterAdmitPolicy

  datatype PageClass = Shared | Expert(layer: nat, expert: nat, ordinal: nat)

  datatype Page = Page(logical: nat, charge: nat, role: PageClass)

  datatype Prediction = Prediction(expert: nat, score: nat)

  datatype Event =
    | Demand(request: nat, step: nat, page: nat)
    | Signal(request: nat, targetStep: nat, layer: nat, predictions: seq<Prediction>)

  datatype Segment = Lru | Probation | Protected

  /** A resident page. Its identifier is the map key and its charge is the catalogue
      charge of that page, which nothing ever changes. */
  datatype Resident = Resident(lastTouch: nat, segment: Segment)

  type Residents = map<nat, Resident>

  /** Retained router scores: (request, step, layer) to expert to score. */
  type Scores = map<(nat, nat, nat), map<nat, nat>>

  datatype Config = Config(
    policy: Policy, capacity: nat, protectedFractionPpm: nat, minimumScorePpm: nat,
    maxExperts: nat, sketch: TinyLfu.SketchConfig)
  {
    /** The argument ranges `simulate` accepts. */
    ghost predicate Valid() {
      && capacity <= MAX_U64
      && protectedFractionPpm <= PPM && minimumScorePpm <= PPM && 0 < maxExperts <= MAX_U32
      && sketch.Valid()
    }

    predicate Segmented() { policy.SlruPolicy? || policy.RouterAdmitPolicy? }

    function Target(): nat { capacity * protectedFractionPpm / PPM }
  }

  datatype Metrics = Metrics(
    accesses: nat, hits: nat, misses: nat, admissions: nat, bypasses: nat, evictions: nat,
    loadBytes: nat, peakBytes: nat)

  datatype State = State(
    residents: Residents, scores: Scores, bytes: nat, touch: nat,
    sketch: TinyLfu.Sketch, metrics: Metrics)

  function Start(cfg: Config): State {
    State(map[], map[], 0, 0, TinyLfu.Fresh(cfg.sketch), Metrics(0, 0, 0, 0, 0, 0, 0, 0))
  }

  // ---------------------------------------------------------------- bytes

  function Charge(pages: seq<Page>): nat -> nat {
    (p: nat) => if p < |pages| then pages[p].charge else 0
  }

  ghost function Bytes(pages: seq<Page>, s: set<nat>): nat { Total(s, Charge(pages)) }

  function ProtectedPages(residents: Residents): set<nat> {
    set p | p in residents && residents[p].segment == Protected
  }

  // ---------------------------------------------------------------- router signals

  predicate RanksBefore(a: Prediction, b: Prediction) {
    a.score > b.score || (a.score == b.score && a.expert <= b.expert)
  }

  function Place(p: Prediction, ranked: seq<Prediction>): seq<Prediction> {
    if ranked == [] || RanksBefore(p, ranked[0]) then [p] + ranked
    else [ranked[0]] + Place(p, ranked[1..])
  }

  /** Predictions at or above the minimum score, by descending score then ascending expert. */
  function Ranked(predictions: seq<Prediction>, minimum: nat): seq<Prediction> {
    if predictions == [] then []
    else
      var last := predictions[|predictions| - 1];
      var rest := Ranked(predictions[..|predictions| - 1], minimum);
      if last.score >= minimum then Place(last, rest) else rest
  }

  function Selected(predictions: seq<Prediction>, minimum: nat, limit: nat): seq<Prediction> {
    var ranked := Ranked(predictions, minimum);
    if |ranked| <= limit then ranked else ranked[..limit]
  }

  function ScoreTable(selected: seq<Prediction>): map<nat, nat> {
    if selected == [] then map[]
    else
      var last := selected[|selected| - 1];
      ScoreTable(selected[..|selected| - 1])[last.expert := last.score]
  }

  function AfterSignal(cfg: Config, scores: Scores, e: Event): Scores
    requires e.Signal?
  {
    if !cfg.policy.RouterAdmitPolicy? then scores
    else
      var key := (e.request, e.targetStep, e.layer);
      var selected := Selected(e.predictions, cfg.minimumScorePpm, cfg.maxExperts);
      if selected != [] then scores[key := ScoreTable(selected)] else scores - {key}
  }

  /** Scores kept when `request` reaches `step`: those for its earlier steps expire. */
  function Unexpired(cfg: Config, scores: Scores, request: nat, step: nat): Scores {
    if !cfg.policy.RouterAdmitPolicy? then scores
    else map k | k in scores && !(k.0 == request && k.1 < step) :: scores[k]
  }

  function ActiveScore(cfg: Config, scores: Scores, pages: seq<Page>, request: nat, step: nat, p: nat): nat
    requires p < |pages|
  {
    if !cfg.policy.RouterAdmitPolicy? || pages[p].role.Shared? then 0
    else
      var key := (request, step, pages[p].role.layer);
      if key in scores && pages[p].role.expert in scores[key] then scores[key][pages[p].role.expert] else 0
  }

  // ---------------------------------------------------------------- victim planning

  datatype Key = Key(rank: nat, score: nat, touch: nat, page: nat)

  predicate Less(a: Key, b: Key) {
    a.rank < b.rank || (a.rank == b.rank && (
      a.score < b.score || (a.score == b.score && (
        a.touch < b.touch || (a.touch == b.touch && a.page < b.page)))))
  }

  /** The demand being served: who asks, at which step, for which page. */
  datatype Request = Request(id: nat, step: nat, page: nat)

  function VictimKey(cfg: Config, pages: seq<Page>, s: State, r: Request, p: nat): Key
    requires p in s.residents && p < |pages|
  {
    Key(if !cfg.Segmented() || s.residents[p].segment == Probation then 0 else 1,
        ActiveScore(cfg, s.scores, pages, r.id, r.step, p),
        s.residents[p].lastTouch, p)
  }

  ghost predicate InCatalogue(pages: seq<Page>, residents: Residents) {
    forall p | p in residents :: p < |pages|
  }

  /** Residents that would be evicted before `p`. */
  ghost function AheadOf(cfg: Config, pages: seq<Page>, s: State, r: Request, p: nat): set<nat>
    requires InCatalogue(pages, s.residents) && p in s.residents
  {
    set q | q in s.residents && Less(VictimKey(cfg, pages, s, r, q), VictimKey(cfg, pages, s, r, p))
  }

  /** A resident is evicted exactly when evicting everything ahead of it leaves too little room. */
  ghost function Victims(cfg: Config, pages: seq<Page>, s: State, r: Request): set<nat>
    requires InCatalogue(pages, s.residents) && r.page < |pages|
  {
    set p | p in s.residents &&
            cfg.capacity + Bytes(pages, AheadOf(cfg, pages, s, r, p)) < s.bytes + pages[r.page].charge
  }

  function Estimates(cfg: Config, s: State): nat -> nat
    requires TinyLfu.WellFormed(cfg.sketch, s.sketch)
  {
    (p: nat) => TinyLfu.Estimate(cfg.sketch, s.sketch, p)
  }

  function ScoresOf(cfg: Config, pages: seq<Page>, s: State, r: Request): nat -> nat {
    (p: nat) => if p < |pages| then ActiveScore(cfg, s.scores, pages, r.id, r.step, p) else 0
  }

  /** Whether a candidate of value `gain` and charge `charge` beats victims of total value
      `loss` and total charge `freed`, by value per byte. */
  predicate Denser(gain: nat, freed: nat, loss: nat, charge: nat) { gain * freed > loss * charge }

  /** The admission test against the planned victims. */
  ghost predicate Admits(cfg: Config, pages: seq<Page>, s: State, r: Request, victims: set<nat>)
    requires TinyLfu.WellFormed(cfg.sketch, s.sketch) && r.page < |pages|
  {
    var charge := pages[r.page].charge;
    var freed := Bytes(pages, victims);
    && (cfg.policy.TinyLfuPolicy? && victims != {} ==>
          Denser(TinyLfu.Estimate(cfg.sketch, s.sketch, r.page), freed, Total(victims, Estimates(cfg, s)), charge))
    && (cfg.policy.RouterAdmitPolicy? && victims != {} && s.scores != map[] ==>
          var gain := ActiveScore(cfg, s.scores, pages, r.id, r.step, r.page);
          var loss := Total(victims, ScoresOf(cfg, pages, s, r));
          (gain == 0 && loss == 0) || Denser(gain, freed, loss, charge))
  }

  // ---------------------------------------------------------------- hits

  predicate Older(residents: Residents, a: nat, b: nat)
    requires a in residents && b in residents
  {
    residents[a].lastTouch < residents[b].lastTouch ||
    (residents[a].lastTouch == residents[b].lastTouch && a < b)
  }

  /** Protected pages that are not older than `p`. */
  ghost function NotOlder(residents: Residents, p: nat): set<nat>
    requires p in residents
  {
    set q | q in ProtectedPages(residents) && !Older(residents, q, p)
  }

  /** A protected page is demoted exactly when it and the protected pages not older than it
      exceed the protected target. */
  ghost function Demoted(pages: seq<Page>, residents: Residents, target: nat): set<nat> {
    set p | p in ProtectedPages(residents) && Bytes(pages, NotOlder(residents, p)) > target
  }

  function Relabelled(residents: Residents, demoted: set<nat>, touch: nat): Residents {
    map p | p in residents :: if p in demoted then Resident(touch, Probation) else residents[p]
  }

  ghost function Rebalanced(pages: seq<Page>, residents: Residents, target: nat, touch: nat): Residents {
    Relabelled(residents, Demoted(pages, residents, target), touch)
  }

  predicate Promotes(cfg: Config, pages: seq<Page>, residents: Residents, p: nat)
    requires p in residents && p < |pages|
  {
    cfg.Segmented() && residents[p].segment == Probation && cfg.Target() > 0 && pages[p].charge <= cfg.Target()
  }

  ghost function AfterHit(cfg: Config, pages: seq<Page>, residents: Residents, p: nat, touch: nat): Residents
    requires p in residents && p < |pages|
  {
    if Promotes(cfg, pages, residents, p)
    then Rebalanced(pages, residents[p := Resident(touch, Protected)], cfg.Target(), touch)
    else residents[p := residents[p].(lastTouch := touch)]
  }

  // ---------------------------------------------------------------- one event

  /** The state in which a demand is served: scores expired, page observed, clock advanced. */
  ghost function Entered(cfg: Config, s: State, r: Request): State
    requires TinyLfu.WellFormed(cfg.sketch, s.sketch)
  {
    s.(scores := Unexpired(cfg, s.scores, r.id, r.step),
       sketch := if cfg.policy.TinyLfuPolicy? then TinyLfu.Observed(cfg.sketch, s.sketch, r.page) else s.sketch,
       touch := s.touch + 1,
       metrics := s.metrics.(accesses := s.metrics.accesses + 1))
  }

  ghost function Served(cfg: Config, pages: seq<Page>, s: State, r: Request): State
    requires r.page in s.residents && r.page < |pages|
  {
    s.(residents := AfterHit(cfg, pages, s.residents, r.page, s.touch),
       metrics := s.metrics.(hits := s.metrics.hits + 1))
  }

  function Missed(pages: seq<Page>, s: State, r: Request): State
    requires r.page < |pages|
  {
    s.(metrics := s.metrics.(misses := s.metrics.misses + 1,
                             loadBytes := s.metrics.loadBytes + pages[r.page].logical))
  }

  function Bypassed(s: State): State {
    s.(metrics := s.metrics.(bypasses := s.metrics.bypasses + 1))
  }

  function Without(residents: Residents, gone: set<nat>): Residents {
    map p | p in residents && p !in gone :: residents[p]
  }

  function Max(a: nat, b: nat): nat { if a < b then b else a }

  ghost function Admitted(cfg: Config, pages: seq<Page>, s: State, r: Request, victims: set<nat>): State
    requires r.page < |pages| && Bytes(pages, victims) <= s.bytes
  {
    var bytes := s.bytes - Bytes(pages, victims) + pages[r.page].charge;
    var entering := Resident(s.touch, if cfg.Segmented() then Probation else Lru);
    s.(residents := Without(s.residents, victims)[r.page := entering],
       bytes := bytes,
       metrics := s.metrics.(admissions := s.metrics.admissions + 1,
                             evictions := s.metrics.evictions + |victims|,
                             peakBytes := Max(s.metrics.peakBytes, bytes)))
  }

  /** Ledger, capacity, clock, accounting identities and segment discipline. */
  ghost predicate Inv(cfg: Config, pages: seq<Page>, s: State) {
    && cfg.Valid()
    && Ledger(cfg, pages, s)
    && TinyLfu.WellFormed(cfg.sketch, s.sketch)
    && (forall p | p in s.residents :: s.residents[p].lastTouch <= s.touch)
    && Accounted(cfg, s)
    && SegmentDiscipline(cfg, pages, s.residents)
  }

  /** The byte ledger equals the charges of the residents and fits the capacity. */
  ghost predicate Ledger(cfg: Config, pages: seq<Page>, s: State) {
    InCatalogue(pages, s.residents) && s.bytes == Bytes(pages, s.residents.Keys) <= cfg.capacity
  }

  ghost predicate Accounted(cfg: Config, s: State) {
    && s.metrics.accesses == s.touch == s.metrics.hits + s.metrics.misses
    && s.metrics.misses == s.metrics.admissions + s.metrics.bypasses
    && s.metrics.admissions == s.metrics.evictions + |s.residents.Keys|
    && s.bytes <= s.metrics.peakBytes <= cfg.capacity
  }

  /** Segmented policies keep every page in a segment and the protected bytes within the target. */
  ghost predicate SegmentDiscipline(cfg: Config, pages: seq<Page>, residents: Residents) {
    if cfg.Segmented()
    then (forall p | p in residents :: residents[p].segment != Lru)
      && Bytes(pages, ProtectedPages(residents)) <= cfg.Target()
    else forall p | p in residents :: residents[p].segment == Lru
  }

  ghost function AfterDemand(cfg: Config, pages: seq<Page>, s: State, r: Request): State
    requires Inv(cfg, pages, s) && r.page < |pages|
  {
    var e := Entered(cfg, s, r);
    if r.page in s.residents then Served(cfg, pages, e, r)
    else
      var m := Missed(pages, e, r);
      if pages[r.page].charge > cfg.capacity then Bypassed(m)
      else
        var victims := Victims(cfg, pages, m, r);
        if Admits(cfg, pages, m, r, victims)
        then TotalMonotone(victims, m.residents.Keys, Charge(pages)); Admitted(cfg, pages, m, r, victims)
        else Bypassed(m)
  }

  ghost predicate Known(pages: seq<Page>, e: Event) { e.Demand? ==> e.page < |pages| }

  ghost function Step(cfg: Config, pages: seq<Page>, s: State, e: Event): State
    requires Inv(cfg, pages, s) && Known(pages, e)
  {
    match e
    case Demand(request, step, page) => AfterDemand(cfg, pages, s, Request(request, step, page))
    case Signal(_, _, _, _) => s.(scores := AfterSignal(cfg, s.scores, e))
  }

  ghost predicate AllKnown(pages: seq<Page>, events: seq<Event>) {
    forall i | 0 <= i < |events| :: Known(pages, events[i])
  }

  /** The state after replaying `events` from an empty cache. */
  ghost function Run(cfg: Config, pages: seq<Page>, events: seq<Event>): (s: State)
    requires cfg.Valid() && AllKnown(pages, events)
    ensures Inv(cfg, pages, s)
  {
    if events == [] then
      StartInv(cfg, pages);
      Start(cfg)
    else
      var prior := Run(cfg, pages, events[..|events| - 1]);
      StepKeepsInv(cfg, pages, prior, events[|events| - 1]);
      Step(cfg, pages, prior, events[|events| - 1])
  }

  // ---------------------------------------------------------------- the invariant is kept

  lemma StartInv(cfg: Config, pages: seq<Page>)
    requires cfg.Valid()
    ensures Inv(cfg, pages, Start(cfg))
  {
    assert ProtectedPages(map[]) == {};
  }

  /** Evicting the planned victims makes room for the candidate. */
  lemma VictimsMakeRoom(cfg: Config, pages: seq<Page>, s: State, r: Request)
    requires Ledger(cfg, pages, s) && r.page < |pages| && pages[r.page].charge <= cfg.capacity
    ensures s.bytes - Bytes(pages, Victims(cfg, pages, s, r)) + pages[r.page].charge <= cfg.capacity
  {
    var victims := Victims(cfg, pages, s, r);
    var kept := s.residents.Keys - victims;
    TotalSplit(s.residents.Keys, victims, Charge(pages));
    if kept != {} {
      var first := LeastKey(cfg, pages, s, r, kept);
      var ahead := AheadOf(cfg, pages, s, r, first);
      assert ahead <= victims;
      TotalMonotone(ahead, victims, Charge(pages));
    } else {
      assert Total(kept, Charge(pages)) == 0;
    }
  }

  lemma {:induction false} LeastKey(cfg: Config, pages: seq<Page>, s: State, r: Request, among: set<nat>)
    returns (least: nat)
    requires InCatalogue(pages, s.residents) && among <= s.residents.Keys && among != {}
    ensures least in among
    ensures forall q | q in among && q != least ::
      Less(VictimKey(cfg, pages, s, r, least), VictimKey(cfg, pages, s, r, q))
  {
    var p :| p in among;
    if among == {p} {
      least := p;
    } else {
      least := LeastKey(cfg, pages, s, r, among - {p});
      if Less(VictimKey(cfg, pages, s, r, p), VictimKey(cfg, pages, s, r, least)) {
        least := p;
      }
    }
  }

  /** After rebalancing the protected bytes are within the target. */
  lemma RebalancedWithinTarget(pages: seq<Page>, residents: Residents, target: nat, touch: nat)
    ensures Bytes(pages, ProtectedPages(Rebalanced(pages, residents, target, touch))) <= target
  {
    var kept := ProtectedPages(residents) - Demoted(pages, residents, target);
    assert ProtectedPages(Rebalanced(pages, residents, target, touch)) == kept;
    if kept != {} {
      var oldest := Oldest(residents, kept);
      assert kept <= NotOlder(residents, oldest);
      TotalMonotone(kept, NotOlder(residents, oldest), Charge(pages));
    }
  }

  lemma {:induction false} Oldest(residents: Residents, among: set<nat>) returns (oldest: nat)
    requires among <= residents.Keys && among != {}
    ensures oldest in among
    ensures forall q | q in among && q != oldest :: Older(residents, oldest, q)
  {
    var p :| p in among;
    if among == {p} {
      oldest := p;
    } else {
      var rest := Oldest(residents, among - {p});
      oldest := if Older(residents, p, rest) then p else rest;
      forall q | q in among && q != oldest ensures Older(residents, oldest, q) {
        assert q == p || q == rest || Older(residents, rest, q);
      }
    }
  }

  lemma HitKeepsInv(cfg: Config, pages: seq<Page>, s: State, r: Request)
    requires Inv(cfg, pages, s) && r.page < |pages| && r.page in s.residents
    ensures Inv(cfg, pages, AfterDemand(cfg, pages, s, r))
  {
    var e := Entered(cfg, s, r);
    var t := AfterDemand(cfg, pages, s, r);
    assert t.residents.Keys == s.residents.Keys;
    if Promotes(cfg, pages, e.residents, r.page) {
      RebalancedWithinTarget(pages, e.residents[r.page := Resident(e.touch, Protected)], cfg.Target(), e.touch);
    } else {
      assert ProtectedPages(t.residents) == ProtectedPages(s.residents);
    }
  }

  lemma ReplacedKeys(residents: Residents, victims: set<nat>, p: nat, entry: Resident)
    requires victims <= residents.Keys && p !in residents
    ensures Without(residents, victims)[p := entry].Keys == (residents.Keys - victims) + {p}
    ensures |Without(residents, victims)[p := entry].Keys| == |residents.Keys| - |victims| + 1
  {
    assert |residents.Keys - victims| == |residents.Keys| - |victims|;
    assert Without(residents, victims)[p := entry].Keys == (residents.Keys - victims) + {p};
  }

  lemma AdmissionKeepsLedger(cfg: Config, pages: seq<Page>, s: State, r: Request, victims: set<nat>)
    requires Ledger(cfg, pages, s) && r.page < |pages| && r.page !in s.residents
    requires victims <= s.residents.Keys && Bytes(pages, victims) <= s.bytes
    requires s.bytes - Bytes(pages, victims) + pages[r.page].charge <= cfg.capacity
    ensures
      var t := Admitted(cfg, pages, s, r, victims);
      Ledger(cfg, pages, t) && |t.residents.Keys| == |s.residents.Keys| - |victims| + 1
  {
    hide Total;
    var t := Admitted(cfg, pages, s, r, victims);
    ReplacedKeys(s.residents, victims, r.page, t.residents[r.page]);
    TotalSplit(s.residents.Keys, victims, Charge(pages));
    TotalAdd(s.residents.Keys - victims, Charge(pages), r.page);
    assert t.residents.Keys == (s.residents.Keys - victims) + {r.page};
  }

  lemma AdmissionKeepsSegments(cfg: Config, pages: seq<Page>, s: State, r: Request, victims: set<nat>)
    requires SegmentDiscipline(cfg, pages, s.residents) && r.page < |pages| && r.page !in s.residents
    requires Bytes(pages, victims) <= s.bytes
    ensures SegmentDiscipline(cfg, pages, Admitted(cfg, pages, s, r, victims).residents)
  {
    var t := Admitted(cfg, pages, s, r, victims);
    assert ProtectedPages(t.residents) <= ProtectedPages(s.residents);
    TotalMonotone(ProtectedPages(t.residents), ProtectedPages(s.residents), Charge(pages));
  }

  lemma VictimsResident(cfg: Config, pages: seq<Page>, s: State, r: Request)
    requires Ledger(cfg, pages, s) && r.page < |pages|
    ensures Victims(cfg, pages, s, r) <= s.residents.Keys && Bytes(pages, Victims(cfg, pages, s, r)) <= s.bytes
  {
    TotalMonotone(Victims(cfg, pages, s, r), s.residents.Keys, Charge(pages));
  }

  /** A miss is bypassed or takes the place of the planned victims. */
  lemma MissOutcome(cfg: Config, pages: seq<Page>, s: State, r: Request)
    requires Inv(cfg, pages, s) && r.page < |pages| && r.page !in s.residents
    ensures
      var m := Missed(pages, Entered(cfg, s, r), r);
      var t := AfterDemand(cfg, pages, s, r);
      && Ledger(cfg, pages, m) && Bytes(pages, Victims(cfg, pages, m, r)) <= m.bytes
      && (t == Bypassed(m)
          || (pages[r.page].charge <= cfg.capacity && t == Admitted(cfg, pages, m, r, Victims(cfg, pages, m, r))))
  {
    VictimsResident(cfg, pages, Missed(pages, Entered(cfg, s, r), r), r);
    hide Victims, Admits, Bytes, Accounted, SegmentDiscipline;
  }

  lemma MissKeepsInv(cfg: Config, pages: seq<Page>, s: State, r: Request)
    requires Inv(cfg, pages, s) && r.page < |pages| && r.page !in s.residents
    ensures Inv(cfg, pages, AfterDemand(cfg, pages, s, r))
  {
    hide Victims, Bytes, AfterDemand;
    MissOutcome(cfg, pages, s, r);
    var m := Missed(pages, Entered(cfg, s, r), r);
    var victims := Victims(cfg, pages, m, r);
    VictimsResident(cfg, pages, m, r);
    if pages[r.page].charge <= cfg.capacity {
      VictimsMakeRoom(cfg, pages, m, r);
      AdmissionKeepsLedger(cfg, pages, m, r, victims);
      AdmissionKeepsSegments(cfg, pages, m, r, victims);
    }
  }

  /** Every event keeps the invariant: no internal consistency failure can be raised. */
  lemma StepKeepsInv(cfg: Config, pages: seq<Page>, s: State, e: Event)
    requires Inv(cfg, pages, s) && Known(pages, e)
    ensures Inv(cfg, pages, Step(cfg, pages, s, e))
  {
    if e.Demand? {
      hide AfterDemand, Inv;
      var r := Request(e.request, e.step, e.page);
      if r.page in s.residents {
        HitKeepsInv(cfg, pages, s, r);
      } else {
        MissKeepsInv(cfg, pages, s, r);
      }
    }
  }
}
