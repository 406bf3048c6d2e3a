/** The online policies of the replay kernel (`crates/runnel-sim/src/policy/mod.rs`): their state, what
    a hit does to the resident entries, and the victims they plan for a miss or a prefetch. */
module OnlinePolicy {
  import opened Common
  import opened Totals
  import A = Accounting
  import ByteSketch
  import K = Kernel
  import M = CacheModel
  import RouterSignals
  import Sorting
  import TinyLfu

  const PPM: nat := 1_000_000
  const MAX_U128: nat := 0xFFFF_FFFF_FFFF_FFFF_FFFF_FFFF_FFFF_FFFF

  datatype RouterConfig = RouterConfig(fraction: nat, minimum: nat, maxExperts: nat, maxPages: nat, maxBytes: nat)

  datatype Spec =
    | NoCache
    | Lru
    | Slru(fraction: nat)
    | TinyLfu(sketch: TinyLfu.SketchConfig)
    | RouterAdmit(config: RouterConfig)
    | RouterPrefetch(config: RouterConfig)

  datatype State =
    | Nothing
    | Recency
    | Segmented(target: nat)
    | Frequency(config: TinyLfu.SketchConfig, sketch: ByteSketch.Sketch)
    | Routed(target: nat, router: RouterConfig, prefetch: bool, ledger: RouterSignals.Ledger)

  function Target(capacity: nat, fraction: nat): nat { capacity * fraction / PPM }

  predicate RouterOk(c: RouterConfig) {
    c.minimum <= PPM && c.maxExperts > 0 && c.maxPages > 0 && c.fraction <= PPM
  }

  /** The state a specification starts in; None for values out of range. */
  function New(spec: Spec, capacity: nat, ceiling: nat): Option<State> {
    match spec
    case NoCache => Some(Nothing)
    case Lru => Some(Recency)
    case Slru(fraction) => if fraction <= PPM then Some(Segmented(Target(capacity, fraction))) else None
    case TinyLfu(c) => if c.InRange() then Some(Frequency(c, ByteSketch.Fresh(c))) else None
    case RouterAdmit(c) =>
      if RouterOk(c) then Some(Routed(Target(capacity, c.fraction), c, false, RouterSignals.Opened(ceiling))) else None
    case RouterPrefetch(c) =>
      if RouterOk(c) then Some(Routed(Target(capacity, c.fraction), c, true, RouterSignals.Opened(ceiling))) else None
  }

  ghost predicate Valid(s: State) { s.Frequency? ==> ByteSketch.WellFormed(s.config, s.sketch) }

  /** The metadata figures a policy closes with: none if a closing check fails. */
  ghost function Finished(s: State): Option<(nat, nat)> {
    match s
    case Frequency(_, sketch) => Some((|sketch.counters| + |sketch.door|, |sketch.counters| + |sketch.door|))
    case Routed(_, _, _, l) => if RouterSignals.Closes(l) then Some((l.peak, l.limit)) else None
    case _ => Some((0, 0))
  }

  /** A sketch costs a byte a counter and a bit a column, in whole bytes. */
  lemma SketchBytes(s: State)
    requires Valid(s) && s.Frequency?
    ensures
      var bytes := s.config.depth * s.config.width + (s.config.width + 7) / 8;
      Finished(s) == Some((bytes, bytes))
  {}

  // ---------------------------------------------------------------- events

  ghost function Entered(s: State, request: nat, step: nat): Option<State> {
    if !s.Routed? then Some(s)
    else
      match RouterSignals.Entered(s.ledger, request, step)
      case Err(_) => None
      case Ok(l) => Some(s.(ledger := l))
  }

  function Observed(s: State, page: nat): State
    requires Valid(s)
  {
    if s.Frequency? then s.(sketch := ByteSketch.Observed(s.config, s.sketch, page)) else s
  }

  function Recorded(s: State, request: nat, step: nat, layer: nat, selected: seq<M.Prediction>): Option<State> {
    if !s.Routed? then Some(s)
    else
      match RouterSignals.Recorded(s.ledger, request, step, layer, selected)
      case Err(_) => None
      case Ok(l) => Some(s.(ledger := l))
  }

  function ActiveScore(s: State, pages: seq<M.Page>, request: nat, step: nat, page: nat): nat
    requires page < |pages|
  {
    if s.Routed? then RouterSignals.ActiveScore(s.ledger.active, pages, request, step, page) else 0
  }

  // ---------------------------------------------------------------- entries

  type Residents = map<nat, K.Entry>

  const LRU: nat := 0
  const PROBATION: nat := 1
  const PROTECTED: nat := 2

  function InitialSegment(s: State): nat { if s.Segmented? || s.Routed? then PROBATION else LRU }

  function ProtectedTarget(s: State): Option<nat> { if s.Segmented? || s.Routed? then Some(s.target) else None }

  function Protected(residents: Residents): set<nat> { set p | p in residents && residents[p].segment == PROTECTED }

  function EntryCharge(residents: Residents): nat -> nat {
    (p: nat) => if p in residents then residents[p].charge else 0
  }

  ghost function ProtectedBytes(residents: Residents): nat { Total(Protected(residents), EntryCharge(residents)) }

  /** By last touch, then page. */
  function Older(residents: Residents): (nat, nat) -> bool {
    (a: nat, b: nat) =>
      a in residents && b in residents
      && (residents[a].lastTouch < residents[b].lastTouch
          || (residents[a].lastTouch == residents[b].lastTouch && a < b))
  }

  lemma AgesOrdered(residents: Residents, among: set<nat>)
    requires forall p | p in among :: p in residents
    ensures Sorting.Orders(Older(residents), among)
  {}

  ghost predicate IsOldest(residents: Residents, p: nat) {
    Sorting.IsLeast(Older(residents), Protected(residents), p)
  }

  ghost function Oldest(residents: Residents): (p: nat)
    requires Protected(residents) != {}
    ensures IsOldest(residents, p) && p in Protected(residents)
  {
    AgesOrdered(residents, Protected(residents));
    hide Older, Protected;
    Sorting.LeastOf(Older(residents), Protected(residents))
  }

  function Demote(residents: Residents, p: nat, touch: nat): Residents
    requires p in residents
  {
    residents[p := residents[p].(segment := PROBATION, lastTouch := touch)]
  }

  /** The oldest protected entry is demoted until the rest is within the target. */
  ghost function Rebalanced(residents: Residents, target: nat, touch: nat): Residents
    decreases |Protected(residents)|
  {
    if ProtectedBytes(residents) <= target then residents
    else
      SomeProtected(residents, target);
      var p := Oldest(residents);
      FewerProtected(residents, p, touch);
      Rebalanced(Demote(residents, p, touch), target, touch)
  }

  lemma SomeProtected(residents: Residents, target: nat)
    requires ProtectedBytes(residents) > target
    ensures Protected(residents) != {}
  {
    TotalNone<nat>(EntryCharge(residents));
  }

  lemma FewerProtected(residents: Residents, p: nat, touch: nat)
    requires p in Protected(residents)
    ensures p in residents
    ensures Protected(Demote(residents, p, touch)) == Protected(residents) - {p}
    ensures |Protected(Demote(residents, p, touch))| < |Protected(residents)|
  {
    assert Protected(Demote(residents, p, touch)) == Protected(residents) - {p};
  }

  predicate Promotes(target: Option<nat>, entry: K.Entry) {
    target.Some? && entry.segment == PROBATION && target.value > 0 && entry.charge <= target.value
  }

  ghost function AfterHit(target: Option<nat>, residents: Residents, page: nat, touch: nat): Residents {
    if page !in residents then residents
    else
      var entry := residents[page].(lastTouch := touch);
      if Promotes(target, entry)
      then Rebalanced(residents[page := entry.(segment := PROTECTED)], target.value, touch)
      else residents[page := entry]
  }

  lemma {:induction false} RebalancedKeeps(residents: Residents, target: nat, touch: nat)
    ensures K.SameHoldings(residents, Rebalanced(residents, target, touch))
    decreases |Protected(residents)|
  {
    hide Protected, K.SameHoldings, ProtectedBytes, Demote, IsOldest;
    if ProtectedBytes(residents) <= target {
      SameAsItself(residents);
    } else {
      SomeProtected(residents, target);
      var p := Oldest(residents);
      FewerProtected(residents, p, touch);
      RebalancedKeeps(Demote(residents, p, touch), target, touch);
      DemoteKeeps(residents, p, touch, Rebalanced(Demote(residents, p, touch), target, touch));
    }
  }

  lemma SameAsItself(residents: Residents)
    ensures K.SameHoldings(residents, residents)
  {}

  lemma DemoteKeeps(residents: Residents, p: nat, touch: nat, next: Residents)
    requires p in residents && K.SameHoldings(Demote(residents, p, touch), next)
    ensures K.SameHoldings(residents, next)
  {}

  /** A hit moves, resizes and flags nothing. */
  lemma HitKeeps(target: Option<nat>, residents: Residents, page: nat, touch: nat)
    ensures K.SameHoldings(residents, AfterHit(target, residents, page, touch))
  {
    hide Rebalanced;
    if page in residents && Promotes(target, residents[page].(lastTouch := touch)) {
      var promoted := residents[page := residents[page].(lastTouch := touch, segment := PROTECTED)];
      RebalancedKeeps(promoted, target.value, touch);
    }
  }

  // ---------------------------------------------------------------- victims of a demand

  function SegmentRank(s: State, entry: K.Entry): nat {
    if !s.Segmented? && !s.Routed? then 0
    else if entry.segment == PROBATION then 0
    else if entry.segment == PROTECTED then 1
    else 2
  }

  /** The sort key of an entry, compared field by field. */
  datatype SortKey = SortKey(rank: nat, score: nat, touch: nat, page: nat)

  predicate Precedes(a: SortKey, b: SortKey) {
    if a.rank != b.rank then a.rank < b.rank
    else if a.score != b.score then a.score < b.score
    else if a.touch != b.touch then a.touch < b.touch
    else a.page < b.page
  }

  function KeyOf(s: State, pages: seq<M.Page>, residents: Residents, r: M.Request, p: nat): SortKey
    requires p in residents && p < |pages|
  {
    SortKey(SegmentRank(s, residents[p]), ActiveScore(s, pages, r.id, r.step, p), residents[p].lastTouch, p)
  }

  predicate InCatalogue(pages: seq<M.Page>, residents: Residents) { forall p | p in residents :: p < |pages| }

  function Sooner(s: State, pages: seq<M.Page>, residents: Residents, r: M.Request): (nat, nat) -> bool
    requires InCatalogue(pages, residents)
  {
    (p: nat, q: nat) =>
      p in residents && q in residents
      && Precedes(KeyOf(s, pages, residents, r, p), KeyOf(s, pages, residents, r, q))
  }

  lemma SoonerOrders(s: State, pages: seq<M.Page>, residents: Residents, r: M.Request, among: set<nat>)
    requires InCatalogue(pages, residents) && among <= residents.Keys
    ensures Sorting.Orders(Sooner(s, pages, residents, r), among)
  {
    hide SegmentRank, ActiveScore;
  }

  /** The front of a list up to the entry that completes `needed` bytes, or all of it. */
  function TakeUntil(order: seq<nat>, w: nat -> nat, needed: nat): seq<nat> {
    if order == [] then []
    else if w(order[0]) >= needed then [order[0]]
    else [order[0]] + TakeUntil(order[1..], w, needed - w(order[0]))
  }

  ghost function Planned(s: State, pages: seq<M.Page>, residents: Residents, r: M.Request, needed: nat): seq<nat>
    requires InCatalogue(pages, residents)
  {
    SoonerOrders(s, pages, residents, r, residents.Keys);
    TakeUntil(Sorting.Sorted(Sooner(s, pages, residents, r), residents.Keys), EntryCharge(residents), needed)
  }

  function EstimateOf(s: State): nat -> nat
    requires Valid(s)
  {
    (p: nat) => if s.Frequency? then ByteSketch.Estimate(s.config, s.sketch, p) else 0
  }

  function ScoreOf(s: State, pages: seq<M.Page>, r: M.Request): nat -> nat {
    (p: nat) => if p < |pages| then ActiveScore(s, pages, r.id, r.step, p) else 0
  }

  /** Value per byte, by products of 128 bits; None when one overflows. */
  function Denser(gain: nat, freed: nat, loss: nat, charge: nat): Option<bool> {
    if gain * freed > MAX_U128 || loss * charge > MAX_U128 then None else Some(gain * freed > loss * charge)
  }

  function Admits(s: State, pages: seq<M.Page>, residents: Residents, r: M.Request, victims: seq<nat>): Option<bool>
    requires Valid(s) && r.page < |pages|
  {
    var freed := A.Sum(victims, EntryCharge(residents));
    if s.Frequency? && victims != [] then
      var loss := A.Sum(victims, EstimateOf(s));
      if freed > MAX_U128 || loss > MAX_U128 then None
      else Denser(EstimateOf(s)(r.page), freed, loss, pages[r.page].charge)
    else if s.Routed? && s.ledger.active != map[] then
      var gain := ActiveScore(s, pages, r.id, r.step, r.page);
      var loss := A.Sum(victims, ScoreOf(s, pages, r));
      if freed > MAX_U128 || loss > MAX_U128 then None
      else if gain == 0 && loss == 0 then Some(true)
      else Denser(gain, freed, loss, pages[r.page].charge)
    else Some(true)
  }

  /** The answer to a miss, from the policy's own state and the kernel's entries and ledger. */
  ghost function DemandPlan(s: State, pages: seq<M.Page>, residents: Residents, resident: nat, capacity: nat,
                            r: M.Request): K.Answer
    requires Valid(s) && InCatalogue(pages, residents) && r.page < |pages| && resident <= capacity
  {
    var charge, available := pages[r.page].charge, capacity - resident;
    if charge > capacity || s.Nothing? then K.Decline
    else if charge <= available then K.Evict([])
    else
      var needed := charge - available;
      var victims := Planned(s, pages, residents, r, needed);
      var bytes := A.Sum(victims, EntryCharge(residents));
      if bytes > MAX_U64 then K.Fail
      else if bytes < needed then K.Decline
      else
        match Admits(s, pages, residents, r, victims)
        case None => K.Fail
        case Some(admit) => if admit then K.Evict(victims) else K.Decline
  }

  // ---------------------------------------------------------------- the loops

  method SumOver(list: seq<nat>, w: nat -> nat) returns (total: nat)
    ensures total == A.Sum(list, w)
  {
    total := 0;
    for i := 0 to |list|
      invariant total == A.Sum(list[..i], w)
    {
      assert list[..i + 1][..i] == list[..i];
      total := total + w(list[i]);
    }
    assert list[..|list|] == list;
  }

  method Rebalance(start: Residents, target: nat, touch: nat) returns (residents: Residents)
    ensures residents == Rebalanced(start, target, touch)
  {
    hide Protected, IsOldest, Demote;
    residents := start;
    while true
      invariant Rebalanced(residents, target, touch) == Rebalanced(start, target, touch)
      decreases |Protected(residents)|
    {
      var bytes := SumSet(Protected(residents), EntryCharge(residents));
      if bytes <= target { return; }
      SomeProtected(residents, target);
      var oldest := FindOldest(residents);
      FewerProtected(residents, oldest, touch);
      residents := Demote(residents, oldest, touch);
    }
  }

  method SumSet(s: set<nat>, w: nat -> nat) returns (total: nat)
    ensures total == Total(s, w)
  {
    hide Total;
    total := 0;
    var todo := s;
    while todo != {}
      invariant todo <= s && total + Total(todo, w) == Total(s, w)
      decreases |todo|
    {
      var p :| p in todo;
      TotalRemove(todo, w, p);
      total := total + w(p);
      todo := todo - {p};
    }
    TotalNone<nat>(w);
  }

  method FindOldest(residents: Residents) returns (p: nat)
    requires Protected(residents) != {}
    ensures p == Oldest(residents)
  {
    hide Protected, Older, Sorting.IsLeast, Sorting.Orders;
    AgesOrdered'(residents);
    p := Sorting.Least(Older(residents), Protected(residents));
    OldestOnce(residents, p);
  }

  lemma AgesOrdered'(residents: Residents)
    ensures Sorting.Orders(Older(residents), Protected(residents))
  {
    AgesOrdered(residents, Protected(residents));
  }

  lemma OldestOnce(residents: Residents, p: nat)
    requires Protected(residents) != {} && IsOldest(residents, p)
    ensures p == Oldest(residents)
  {
    hide Protected;
  }

  method OnHit(target: Option<nat>, residents: Residents, page: nat, touch: nat) returns (next: Residents)
    ensures next == AfterHit(target, residents, page, touch)
  {
    hide Rebalanced;
    if page !in residents { return residents; }
    next := residents[page := residents[page].(lastTouch := touch)];
    if Promotes(target, next[page]) {
      next := next[page := next[page].(segment := PROTECTED)];
      assert next == residents[page := residents[page].(lastTouch := touch).(segment := PROTECTED)];
      next := Rebalance(next, target.value, touch);
    }
  }

  /** Takes entries in order until enough is freed. */
  method Gather(order: seq<nat>, w: nat -> nat, needed: nat) returns (victims: seq<nat>, bytes: nat)
    requires needed > 0
    ensures victims == TakeUntil(order, w, needed) && bytes == A.Sum(victims, w)
  {
    hide A.Sum, TakeUntil;
    victims, bytes := [], 0;
    NothingTaken(order, w);
    for i := 0 to |order|
      invariant bytes < needed && bytes == A.Sum(victims, w)
      invariant TakeUntil(order, w, needed) == victims + TakeUntil(order[i..], w, needed - bytes)
    {
      TakeStep(victims, order, i, w, needed - bytes);
      SumAppend(victims, order[i], w);
      victims, bytes := victims + [order[i]], bytes + w(order[i]);
      if bytes >= needed { return; }
    }
    TakeEnd(order, w, needed - bytes);
  }

  lemma NothingTaken(order: seq<nat>, w: nat -> nat)
    ensures A.Sum([], w) == 0 && order[0..] == order
  {}

  lemma TakeEnd(order: seq<nat>, w: nat -> nat, needed: nat)
    ensures TakeUntil(order[|order|..], w, needed) == []
  {}

  lemma TakeStep(victims: seq<nat>, order: seq<nat>, i: nat, w: nat -> nat, needed: nat)
    requires i < |order|
    ensures
      victims + TakeUntil(order[i..], w, needed)
      == (victims + [order[i]])
         + if w(order[i]) >= needed then [] else TakeUntil(order[i + 1..], w, needed - w(order[i]))
  {
    assert order[i..][1..] == order[i + 1..];
  }

  lemma SumAppend(list: seq<nat>, p: nat, w: nat -> nat)
    ensures A.Sum(list + [p], w) == A.Sum(list, w) + w(p)
  {
    assert (list + [p])[..|list|] == list;
  }

  method AdmitDemand(s: State, pages: seq<M.Page>, residents: Residents, r: M.Request, victims: seq<nat>)
    returns (admit: Option<bool>)
    requires Valid(s) && r.page < |pages|
    ensures admit == Admits(s, pages, residents, r, victims)
  {
    hide A.Sum, ByteSketch.Estimate, RouterSignals.ActiveScore;
    if s.Frequency? && victims != [] {
      var freed := SumOver(victims, EntryCharge(residents));
      var loss := SumOver(victims, EstimateOf(s));
      if freed > MAX_U128 || loss > MAX_U128 { return None; }
      return Denser(EstimateOf(s)(r.page), freed, loss, pages[r.page].charge);
    }
    if s.Routed? && s.ledger.active != map[] {
      var gain := ActiveScore(s, pages, r.id, r.step, r.page);
      var freed := SumOver(victims, EntryCharge(residents));
      var loss := SumOver(victims, ScoreOf(s, pages, r));
      if freed > MAX_U128 || loss > MAX_U128 { return None; }
      if gain == 0 && loss == 0 { return Some(true); }
      return Denser(gain, freed, loss, pages[r.page].charge);
    }
    admit := Some(true);
  }

  method PlanDemandVictims(s: State, pages: seq<M.Page>, residents: Residents, resident: nat, capacity: nat,
                           r: M.Request)
    returns (answer: K.Answer)
    requires Valid(s) && InCatalogue(pages, residents) && r.page < |pages| && resident <= capacity
    ensures answer == DemandPlan(s, pages, residents, resident, capacity, r)
  {
    hide A.Sum, TakeUntil, Admits, Sorting.Orders, Sorting.Lists, EntryCharge, Sooner;
    var charge := pages[r.page].charge;
    if charge > capacity || s.Nothing? { return K.Decline; }
    if charge <= capacity - resident { return K.Evict([]); }
    var needed := charge - (capacity - resident);
    SoonerOrders(s, pages, residents, r, residents.Keys);
    var order := Sorting.Sort(Sooner(s, pages, residents, r), residents.Keys);
    var victims, bytes := Gather(order, EntryCharge(residents), needed);
    if bytes > MAX_U64 { return K.Fail; }
    if bytes < needed { return K.Decline; }
    var admit := AdmitDemand(s, pages, residents, r, victims);
    match admit
    case None => answer := K.Fail;
    case Some(ok) => answer := if ok then K.Evict(victims) else K.Decline;
  }
}
