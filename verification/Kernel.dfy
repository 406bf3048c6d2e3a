/** The replay kernel: demand and speculative fills over a resident map, a byte ledger, checked
    64-bit counters and the decision stream. Nothing is known about the policy beyond the calls it
    answers, so every result holds whatever it plans. */
module Kernel {
  import opened Common
  import opened Accounting
  import opened DecisionLog
  import opened Totals
  import CacheModel

  datatype SimError =
    | CounterOverflow(name: string) | PolicyFailed | VictimNotResident | CapacityNotFreed
    | LedgerUnderflow | AlreadyResident | BudgetUnderflow | IdentityFailed(name: string)

  /** What may go wrong: a counter that outgrows 64 bits, or a policy that fails or plans badly. */
  predicate Genuine(e: SimError) {
    e.CounterOverflow? || e.PolicyFailed? || e.VictimNotResident? || e.CapacityNotFreed?
  }

  datatype Outcome<+T> = Ok(value: T) | Err(error: SimError) {
    predicate IsFailure() { Err? }
    function PropagateFailure<U>(): Outcome<U>
      requires Err?
    {
      Err(error)
    }
    function Extract(): T
      requires Ok?
    {
      value
    }
  }

  function Bump(target: nat, value: nat, name: string): Outcome<nat> {
    if target + value > MAX_U64 then Err(CounterOverflow(name)) else Ok(target + value)
  }

  predicate Small(t: Tally) { t.count <= MAX_U64 && t.bytes <= MAX_U64 }

  function BumpTally(t: Tally, bytes: nat, name: string, bytesName: string): (r: Outcome<Tally>)
    ensures r.Ok? ==> r.value == Plus(t, bytes) && Small(r.value)
    ensures r.Err? ==> r.error.CounterOverflow?
    ensures r.Ok? <==> t.count < MAX_U64 && t.bytes + bytes <= MAX_U64
  {
    var count :- Bump(t.count, 1, name);
    var total :- Bump(t.bytes, bytes, bytesName);
    Ok(Tally(count, total))
  }

  // ---------------------------------------------------------------- the final identities

  predicate Bounded(m: Metrics) { Small(m.demand) && Small(m.offered) && Small(m.admitted) }

  function Require(holds: bool, name: string): Outcome<bool> { if holds then Ok(true) else Err(IdentityFailed(name)) }

  function Sum3(a: nat, b: nat, c: nat, name: string): Outcome<nat> {
    var ab :- Bump(a, b, name);
    Bump(ab, c, name)
  }

  function DemandIdentities(m: Metrics): Outcome<bool> {
    var hits :- Sum3(m.ordinaryHits.count, m.usefulHits.count, m.misses.count, "demand_accesses identity");
    var _ :- Require(hits == m.demand.count, "demand hit/miss accounting");
    var bytes :- Sum3(m.ordinaryHits.bytes, m.usefulHits.bytes, m.misses.bytes, "demand_logical_bytes identity");
    var _ :- Require(bytes == m.demand.bytes, "demand byte accounting");
    Require(m.demandLoad == m.misses.bytes, "every modeled demand miss must account one physical fill")
  }

  function OfferIdentities(m: Metrics): Outcome<bool> {
    var offers :- Sum3(m.admitted.count, m.redundant.count, m.dropped.count, "prefetch offer identity");
    var _ :- Require(offers == m.offered.count, "prefetch offer classification");
    var bytes :- Sum3(m.admitted.bytes, m.redundant.bytes, m.dropped.bytes, "prefetch offer byte identity");
    Require(bytes == m.offered.bytes, "prefetch offer byte classification")
  }

  function PrefetchIdentities(m: Metrics): Outcome<bool> {
    var admitted :- Bump(m.useful.count, m.wasted.count, "prefetch count identity");
    var _ :- Require(admitted == m.admitted.count, "admitted prefetch classification");
    var bytes :- Bump(m.useful.bytes, m.wasted.bytes, "prefetch byte identity");
    Require(bytes == m.admitted.bytes, "prefetch byte classification")
  }

  /** The checks made once a replay is over. */
  function Finish(m: Metrics): Outcome<Metrics> {
    var total :- Bump(m.demandLoad, m.admitted.bytes, "total_physical_load_bytes");
    var _ :- DemandIdentities(m);
    var _ :- OfferIdentities(m);
    var _ :- PrefetchIdentities(m);
    Ok(m.(totalLoad := total))
  }

  /** The counters once every prefetch still unused is written off. */
  ghost function Settled(cat: Catalogue, b: Books): Metrics {
    var pending := Pending(cat, b.unused);
    b.m.(wasted := Tally(b.m.wasted.count + pending.count, b.m.wasted.bytes + pending.bytes),
         finalBytes := if b.resident < 0 then 0 else b.resident)
  }

  /** No identity can fail: the only possible error is the overflow of the grand total. */
  lemma FinishOnlyOverflows(m: Metrics)
    requires Flow(m) && Bounded(m) && Parts(m.admitted, m.useful, m.wasted, Tally(0, 0))
    ensures
      var total := m.demandLoad + m.admitted.bytes;
      Finish(m)
      == if total > MAX_U64 then Err(CounterOverflow("total_physical_load_bytes")) else Ok(m.(totalLoad := total))
  {
    hide DemandIdentities, OfferIdentities, PrefetchIdentities;
    IdentitiesHold(m);
  }

  lemma IdentitiesHold(m: Metrics)
    requires Flow(m) && Bounded(m) && Parts(m.admitted, m.useful, m.wasted, Tally(0, 0))
    ensures DemandIdentities(m) == Ok(true) && OfferIdentities(m) == Ok(true) && PrefetchIdentities(m) == Ok(true)
  {
    hide DemandIdentities, OfferIdentities, PrefetchIdentities;
    DemandsBalance(m);
    OffersBalance(m);
    PrefetchesBalance(m);
  }

  lemma DemandsBalance(m: Metrics)
    requires Flow(m) && Small(m.demand)
    ensures DemandIdentities(m) == Ok(true)
  {}

  lemma OffersBalance(m: Metrics)
    requires Flow(m) && Small(m.offered)
    ensures OfferIdentities(m) == Ok(true)
  {}

  lemma PrefetchesBalance(m: Metrics)
    requires Small(m.admitted) && Parts(m.admitted, m.useful, m.wasted, Tally(0, 0))
    ensures PrefetchIdentities(m) == Ok(true)
  {}

  // ---------------------------------------------------------------- policy and trace

  /** One answer of the policy. A demand or prefetch plan declines or names victims; a call that
      only reports success or failure succeeds unless it fails. */
  datatype Answer = Fail | Decline | Evict(victims: seq<nat>)

  datatype Router = Router(minimumScore: nat, maxExperts: nat, maxPages: nat, maxBytes: nat)

  datatype Entry = Entry(charge: nat, logical: nat, lastTouch: nat, segment: nat, unused: bool)

  /** `answer` gives the policy's answers in the order they are asked for, so it stands for any
      policy at all, with any internal state. */
  datatype Policy = Policy(
    answer: nat -> Answer, onHit: (map<nat, Entry>, nat, nat) -> map<nat, Entry>,
    router: Option<Router>, prefetch: bool, segment: nat, metadata: nat, metadataLimit: nat)

  predicate SameHoldings(a: map<nat, Entry>, b: map<nat, Entry>) {
    && a.Keys == b.Keys
    && forall p | p in a :: a[p].charge == b[p].charge && a[p].logical == b[p].logical && a[p].unused == b[p].unused
  }

  /** A hit may reorder residents; it does not move them, resize them or touch their flags. */
  ghost predicate Discreet(policy: Policy) {
    forall residents, page, touch :: SameHoldings(residents, policy.onHit(residents, page, touch))
  }

  datatype TraceEvent =
    | Demand(sequence: nat, request: nat, step: nat, page: nat)
    | Signal(sequence: nat, request: nat, targetStep: nat, layer: nat, predictions: seq<CacheModel.Prediction>)

  type Experts = (nat, nat) -> seq<nat>

  ghost predicate Grouped(experts: Experts) { forall layer, expert :: Distinct(experts(layer, expert)) }

  /** A trace in its own integer types: 64-bit sequence numbers and 32-bit pages. */
  ghost predicate Native(experts: Experts, events: seq<TraceEvent>) {
    && (forall layer, expert :: forall p | p in experts(layer, expert) :: p <= MAX_U32)
    && forall e | e in events :: e.sequence <= MAX_U64 && (e.Demand? ==> e.page <= MAX_U32)
  }

  lemma NativeEvent(experts: Experts, events: seq<TraceEvent>, i: nat)
    requires Native(experts, events) && i < |events|
    ensures Native(experts, []) && events[i].sequence <= MAX_U64 && (events[i].Demand? ==> events[i].page <= MAX_U32)
  {
    assert events[i] in events;
  }

  lemma NativePart(experts: Experts, events: seq<TraceEvent>, i: nat)
    requires Native(experts, events) && i < |events|
    ensures Native(experts, [events[i]])
  {
    assert events[i] in events;
  }

  function Flags(residents: map<nat, Entry>): map<nat, bool> { map p | p in residents :: residents[p].unused }

  lemma {:induction false} EncodeAppend(log: seq<Record>, r: Record)
    ensures EncodeAll(log + [r]) == EncodeAll(log) + Encode(r)
  {
    hide Encode;
    if log == [] {
      assert log + [r] == [r] && [r][1..] == [];
    } else {
      EncodeAppend(log[1..], r);
      assert (log + [r])[1..] == log[1..] + [r];
    }
  }

  lemma {:induction false} WordsAppend(pages: seq<nat>, p: nat)
    ensures Words(pages + [p]) == Words(pages) + Word(p, 4)
  {
    if pages == [] {
      assert pages + [p] == [p] && [p][1..] == [];
    } else {
      WordsAppend(pages[1..], p);
      assert (pages + [p])[1..] == pages[1..] + [p];
    }
  }

  /** Appending a legal decision to a legal log. */
  lemma Committed(cat: Catalogue, capacity: nat, log: seq<Record>, r: Record)
    requires LegalRun(cat, capacity, log) && Legal(cat, capacity, Replay(cat, log), r)
    ensures LegalRun(cat, capacity, log + [r]) && Replay(cat, log + [r]) == Post(cat, Replay(cat, log), r)
  {
    hide Post, Legal;
    assert (log + [r])[..|log|] == log;
  }

  /** The log grew by one decision, about this demand. */
  predicate OneMore(before: seq<Record>, after: seq<Record>, sequence: nat, page: nat) {
    && |after| == |before| + 1 && after[..|before|] == before
    && after[|before|].Event? && after[|before|].sequence == sequence && after[|before|].page == Some(page)
  }

  lemma HitKeeps(policy: Policy, residents: map<nat, Entry>, page: nat, touch: nat)
    requires Discreet(policy)
    ensures SameHoldings(residents, policy.onHit(residents, page, touch))
    ensures Flags(policy.onHit(residents, page, touch)) == Flags(residents)
  {}

  /** The accounts after the counters of a hit, given that the demand itself is counted. */
  predicate CountedHit(cat: Catalogue, before: Books, after: Books, page: nat, useful: bool) {
    var size := cat(page).logical;
    after == if useful then Books(before.unused[page := false], before.resident,
                                  before.m.(usefulHits := Plus(before.m.usefulHits, size),
                                            useful := Plus(before.m.useful, size)))
             else before.(m := before.m.(ordinaryHits := Plus(before.m.ordinaryHits, size)))
  }

  function CheckedSub(a: nat, b: nat, e: SimError): Outcome<nat> { if b <= a then Ok(a - b) else Err(e) }

  function Removed(residents: map<nat, Entry>, page: nat): map<nat, Entry> {
    map p | p in residents && p != page :: residents[p]
  }

  /** What is left when the victims are gone. */
  function Left(residents: map<nat, Entry>, victims: seq<nat>): map<nat, Entry> {
    map p | p in residents && p !in victims :: residents[p]
  }

  lemma LeftStep(residents: map<nat, Entry>, victims: seq<nat>, i: nat)
    requires i < |victims|
    ensures Left(residents, victims[..i + 1]) == Removed(Left(residents, victims[..i]), victims[i])
  {
    assert victims[..i + 1] == victims[..i] + [victims[i]];
  }

  /** Entries that none of these decisions names as a victim are as they were. */
  ghost predicate Kept(before: map<nat, Entry>, after: map<nat, Entry>, told: seq<Record>) {
    forall p | p in before && (forall d | d in told :: p !in d.victims) :: p in after && after[p] == before[p]
  }

  lemma KeptAll(residents: map<nat, Entry>)
    ensures Kept(residents, residents, [])
  {}

  lemma KeptLonger(a: map<nat, Entry>, b: map<nat, Entry>, c: map<nat, Entry>, before: seq<Record>, middle: seq<Record>,
                   after: seq<Record>)
    requires before <= middle <= after
    requires Kept(a, b, middle[|before|..]) && Kept(b, c, after[|middle|..])
    ensures Kept(a, c, after[|before|..])
  {
    assert after[|before|..] == middle[|before|..] + after[|middle|..];
  }

  lemma KeptOne(a: map<nat, Entry>, b: map<nat, Entry>, before: seq<Record>, d: Record)
    requires Covers(Left(a, d.victims), b)
    ensures Kept(a, b, (before + [d])[|before|..])
  {
    var told := (before + [d])[|before|..];
    assert told == [d] && d in told;
  }

  /** Prefetched pages enter one tick after another, unused, in the segment of new pages. */
  function Filled(cat: Catalogue, policy: Policy, residents: map<nat, Entry>, pages: seq<nat>, touch: nat)
    : map<nat, Entry>
  {
    if pages == [] then residents
    else
      var n := |pages| - 1;
      var entry := Entering(cat, policy, pages[n], touch + n + 1, true);
      Filled(cat, policy, residents, pages[..n], touch)[pages[n] := entry]
  }

  /** The residents after a decision on a group. */
  function AfterGroup(cat: Catalogue, policy: Policy, residents: map<nat, Entry>, d: Record, touch: nat)
    : map<nat, Entry>
  {
    if d.Prefetch? && d.move.Admit? then Filled(cat, policy, Left(residents, d.victims), d.moved, touch) else residents
  }

  /** The page in place `i` of an admitted group is resident with its size and the tick of its place, and
      is not yet used. */
  lemma {:induction false} FilledAt(cat: Catalogue, policy: Policy, residents: map<nat, Entry>, pages: seq<nat>,
                                    touch: nat, i: nat)
    requires i < |pages| && Distinct(pages)
    ensures pages[i] in Filled(cat, policy, residents, pages, touch)
    ensures
      Filled(cat, policy, residents, pages, touch)[pages[i]]
      == Entry(cat(pages[i]).charge, cat(pages[i]).logical, touch + i + 1, policy.segment, true)
  {
    if i < |pages| - 1 { FilledAt(cat, policy, residents, pages[..|pages| - 1], touch, i); }
  }

  lemma FilledNext(cat: Catalogue, policy: Policy, residents: map<nat, Entry>, pages: seq<nat>, touch: nat, i: nat)
    requires i < |pages|
    ensures
      var entry := Entering(cat, policy, pages[i], touch + i + 1, true);
      Filled(cat, policy, residents, pages[..i + 1], touch)
      == Filled(cat, policy, residents, pages[..i], touch)[pages[i] := entry]
  {
    assert pages[..i + 1][..i] == pages[..i];
  }

  /** Entries stay when others enter. */
  ghost predicate Covers(before: map<nat, Entry>, after: map<nat, Entry>) {
    forall p | p in before :: p in after && after[p] == before[p]
  }

  function Entering(cat: Catalogue, policy: Policy, page: nat, touch: nat, unused: bool): Entry {
    Entry(cat(page).charge, cat(page).logical, touch, policy.segment, unused)
  }

  /** A hit: the prefetch flag falls, then the policy reorders. */
  function AfterHit(policy: Policy, residents: map<nat, Entry>, page: nat, touch: nat): map<nat, Entry>
    requires page in residents
  {
    policy.onHit(residents[page := residents[page].(unused := false)], page, touch)
  }

  /** The residents after a demand and the decision told about it, when the policy answers `plan`. */
  function DemandOutcome(cat: Catalogue, policy: Policy, residents: map<nat, Entry>, sequence: nat, page: nat,
                         touch: nat, plan: Answer): (map<nat, Entry>, Record)
  {
    if page in residents then
      (AfterHit(policy, residents, page, touch),
       Event(sequence, if residents[page].unused then UsefulHit else Hit, Some(page), []))
    else match plan
      case Evict(victims) =>
        (Left(residents, victims)[page := Entering(cat, policy, page, touch, false)],
         Event(sequence, MissAdmit, Some(page), victims))
      case _ => (residents, Event(sequence, MissBypass, Some(page), []))
  }

  lemma FlagsWithout(residents: map<nat, Entry>, page: nat)
    requires page in residents
    ensures Flags(Removed(residents, page)) == Dropped(Flags(residents), page)
    ensures Removed(residents, page).Keys == residents.Keys - {page}
  {}

  lemma LedgerGrows(cat: Catalogue, residents: map<nat, Entry>, page: nat, entry: Entry)
    ensures Flags(residents[page := entry]) == Flags(residents)[page := entry.unused]
    ensures page !in residents ==>
      Total(residents[page := entry].Keys, Charge(cat)) == Total(residents.Keys, Charge(cat)) + cat(page).charge
  {
    assert residents[page := entry].Keys == residents.Keys + {page};
    if page !in residents { TotalAdd(residents.Keys, Charge(cat), page); }
  }

  lemma SumStep(pages: seq<nat>, i: nat, w: nat -> nat)
    requires i < |pages|
    ensures Sum(pages[..i + 1], w) == Sum(pages[..i], w) + w(pages[i])
  {
    assert pages[..i + 1][..i] == pages[..i];
  }

  lemma SumAppend(pages: seq<nat>, p: nat, w: nat -> nat)
    ensures Sum(pages + [p], w) == Sum(pages, w) + w(p)
  {
    assert (pages + [p])[..|pages|] == pages;
  }

  lemma NothingSorted(b: Books, pages: seq<nat>, w: nat -> nat)
    ensures Where(b, pages[..0], true) == [] && Where(b, pages[..0], false) == [] && Sum([], w) == 0
  {}

  lemma WhereStep(b: Books, pages: seq<nat>, i: nat)
    requires i < |pages|
    ensures Where(b, pages[..i + 1], true)
      == Where(b, pages[..i], true) + (if pages[i] in b.unused then [pages[i]] else [])
    ensures Where(b, pages[..i + 1], false)
      == Where(b, pages[..i], false) + (if pages[i] in b.unused then [] else [pages[i]])
  {
    assert pages[..i + 1][..i] == pages[..i];
  }

  lemma {:induction false} WhereAgrees(a: Books, b: Books, pages: seq<nat>)
    requires a.unused == b.unused
    ensures Where(a, pages, true) == Where(b, pages, true) && Where(a, pages, false) == Where(b, pages, false)
  {
    if pages != [] { WhereAgrees(a, b, pages[..|pages| - 1]); }
  }

  /** A page of the group is absent until its own turn. */
  lemma {:induction false} NotYet(cat: Catalogue, b: Books, pages: seq<nat>, i: nat)
    requires i < |pages| && Distinct(pages) && forall p | p in pages :: p !in b.unused
    ensures pages[i] !in PrefetchedAll(cat, b, pages[..i]).unused
  {
    AmongInserted(cat, b, pages[..i], pages[i]);
    assert pages[i] in pages;
  }

  lemma {:induction false} AmongInserted(cat: Catalogue, b: Books, pages: seq<nat>, p: nat)
    ensures p in PrefetchedAll(cat, b, pages).unused ==> p in b.unused || p in pages
  {
    if pages != [] { AmongInserted(cat, b, pages[..|pages| - 1], p); }
  }

  lemma FiveRegroup(s: seq<Byte>, t: seq<Byte>, a: seq<Byte>, b: seq<Byte>, c: seq<Byte>, d: seq<Byte>)
    ensures s + t + a + b + c + d == s + (t + (a + (b + (c + d))))
  {}

  datatype Budget = Budget(pages: nat, bytes: nat)

  function PagesIn(d: Record): nat { if d.Prefetch? && d.move.Admit? then |d.moved| else 0 }

  function BytesIn(cat: Catalogue, d: Record): nat {
    if d.Prefetch? && d.move.Admit? then Sum(d.moved, Logical(cat)) else 0
  }

  predicate AsksPolicy(d: Record) { d.Prefetch? && (d.move.Admit? || d.move.DropAdmission?) }

  /** What the decisions so far admitted, in pages and in bytes, and how often they asked the policy. */
  function PagesAdmitted(told: seq<Record>): nat {
    if told == [] then 0 else PagesAdmitted(told[..|told| - 1]) + PagesIn(told[|told| - 1])
  }

  function BytesAdmitted(cat: Catalogue, told: seq<Record>): nat {
    if told == [] then 0 else BytesAdmitted(cat, told[..|told| - 1]) + BytesIn(cat, told[|told| - 1])
  }

  function Asked(told: seq<Record>): nat {
    if told == [] then 0 else Asked(told[..|told| - 1]) + if AsksPolicy(told[|told| - 1]) then 1 else 0
  }

  /** The decision on a group, given the pages and bytes left and what the policy says when asked: a group
      is dropped for pages only if it has more than are left, for bytes only if its pages fit and its
      bytes do not, and admitted exactly if both fit and the policy names victims. */
  ghost predicate Decides(cat: Catalogue, pages: int, bytes: int, answer: Answer, d: Record) {
    && d.Prefetch?
    && var load := Sum(d.moved, Logical(cat));
       match d.move
       case Redundant => d.moved == [] && d.victims == []
       case DropPages => |d.moved| > pages && d.victims == []
       case DropBytes => d.moved != [] && |d.moved| <= pages && load > bytes && d.victims == []
       case DropAdmission =>
         d.moved != [] && |d.moved| <= pages && load <= bytes && answer == Decline && d.victims == []
       case Admit => d.moved != [] && |d.moved| <= pages && load <= bytes && answer == Evict(d.victims)
  }

  /** The decisions of one signal, each taken while pages are left, on what the earlier ones left of the
      limit and on the policy's next answer. */
  ghost predicate Rationed(cat: Catalogue, policy: Policy, limit: Budget, calls: nat, told: seq<Record>) {
    forall i | 0 <= i < |told| :: RationedAt(cat, policy, limit, calls, told[..i], told[i])
  }

  ghost predicate RationedAt(cat: Catalogue, policy: Policy, limit: Budget, calls: nat, before: seq<Record>,
                             d: Record)
  {
    && PagesAdmitted(before) < limit.pages
    && Decides(cat, limit.pages - PagesAdmitted(before), limit.bytes - BytesAdmitted(cat, before),
               policy.answer(calls + Asked(before)), d)
  }

  /** What is left of a limit after these decisions, and the calls made. */
  ghost predicate Rationing(cat: Catalogue, policy: Policy, limit: Budget, calls: nat, told: seq<Record>, left: Budget,
                            now: nat)
  {
    && Rationed(cat, policy, limit, calls, told) && now == calls + Asked(told)
    && left.pages + PagesAdmitted(told) == limit.pages && left.bytes + BytesAdmitted(cat, told) == limit.bytes
  }

  lemma NothingRationed(cat: Catalogue, policy: Policy, limit: Budget, calls: nat)
    ensures Rationing(cat, policy, limit, calls, [], limit, calls)
  {}

  lemma RationedOnce(cat: Catalogue, policy: Policy, limit: Budget, calls: nat, told: seq<Record>, left: Budget,
                     now: nat, d: Record, left': Budget, now': nat)
    requires Rationing(cat, policy, limit, calls, told, left, now) && left.pages > 0
    requires Decides(cat, left.pages, left.bytes, policy.answer(now), d) && Charged(cat, left, left', d)
    requires now' == now + if AsksPolicy(d) then 1 else 0
    ensures Rationing(cat, policy, limit, calls, told + [d], left', now')
  {
    AdmittedOnce(cat, told, d);
    assert RationedAt(cat, policy, limit, calls, told, d);
    hide RationedAt, Decides, AsksPolicy, PagesIn, BytesIn, PagesAdmitted, BytesAdmitted, Asked;
    var longer := told + [d];
    forall i | 0 <= i < |longer| ensures RationedAt(cat, policy, limit, calls, longer[..i], longer[i]) {
      if i < |told| {
        assert longer[..i] == told[..i];
      } else {
        assert longer[..i] == told;
      }
    }
  }

  lemma AdmittedOnce(cat: Catalogue, told: seq<Record>, d: Record)
    ensures PagesAdmitted(told + [d]) == PagesAdmitted(told) + PagesIn(d)
    ensures BytesAdmitted(cat, told + [d]) == BytesAdmitted(cat, told) + BytesIn(cat, d)
    ensures Asked(told + [d]) == Asked(told) + if AsksPolicy(d) then 1 else 0
  {
    assert (told + [d])[..|told|] == told;
  }

  /** A budget fell by what one decision admitted. */
  predicate Charged(cat: Catalogue, before: Budget, after: Budget, d: Record) {
    after.pages + PagesIn(d) == before.pages && after.bytes + BytesIn(cat, d) == before.bytes
  }

  /** The budget fell by exactly the pages and bytes the counters say were admitted. */
  predicate Spent(before: Metrics, after: Metrics, offered: Budget, left: Budget) {
    && left.pages <= offered.pages && left.bytes <= offered.bytes
    && after.admitted.count + left.pages == before.admitted.count + offered.pages
    && after.admitted.bytes + left.bytes == before.admitted.bytes + offered.bytes
  }

  /** The log grew by one decision, about this group of pages. */
  predicate GroupTold(before: seq<Record>, after: seq<Record>, sequence: nat, pages: seq<nat>) {
    && |after| == |before| + 1 && after[..|before|] == before
    && after[|before|].Prefetch? && after[|before|].sequence == sequence && after[|before|].offered == pages
  }

  lemma ToldLonger(before: seq<Record>, after: seq<Record>, sequence: nat, pages: seq<nat>)
    requires GroupTold(before, after, sequence, pages)
    ensures before <= after
  {}

  lemma AbsentNow(b: Books, pages: seq<nat>, residents: map<nat, Entry>)
    requires b.unused == Flags(residents)
    ensures forall p | p in Where(b, pages, false) :: p !in residents
  {
    forall p | p in Where(b, pages, false) ensures p !in residents {
      assert p !in b.unused;
    }
  }

  /** The log grew by one decision per group, in ranked order, for a prefix of the groups. */
  ghost predicate GroupsTold(experts: Experts, before: seq<Record>, after: seq<Record>, sequence: nat, layer: nat,
                             selected: seq<CacheModel.Prediction>)
  {
    && |before| <= |after| <= |before| + |selected| && after[..|before|] == before
    && forall i | |before| <= i < |after| ::
         && after[i].Prefetch? && after[i].sequence == sequence
         && after[i].offered == experts(layer, selected[i - |before|].expert)
  }

  predicate WithinBudget(before: Metrics, after: Metrics, limit: Budget) {
    && before.admitted.count <= after.admitted.count <= before.admitted.count + limit.pages
    && before.admitted.bytes <= after.admitted.bytes <= before.admitted.bytes + limit.bytes
  }

  lemma NoGroups(experts: Experts, log: seq<Record>, sequence: nat, layer: nat, selected: seq<CacheModel.Prediction>,
                 m: Metrics, b: Budget)
    ensures GroupsTold(experts, log, log, sequence, layer, selected) && Spent(m, m, b, b)
  {}

  lemma GroupsExtend(experts: Experts, before: seq<Record>, middle: seq<Record>, after: seq<Record>, sequence: nat,
                     layer: nat, selected: seq<CacheModel.Prediction>, i: nat)
    requires i < |selected| && |middle| == |before| + i
    requires GroupsTold(experts, before, middle, sequence, layer, selected)
    requires GroupTold(middle, after, sequence, experts(layer, selected[i].expert))
    ensures GroupsTold(experts, before, after, sequence, layer, selected) && |after| == |before| + i + 1
  {
    assert after[..|before|] == middle[..|before|];
    forall k | |before| <= k < |middle| ensures after[k] == middle[k] {
      assert after[..|middle|][k] == after[k];
    }
  }

  lemma SpentOnward(m0: Metrics, m1: Metrics, m2: Metrics, b0: Budget, b1: Budget, b2: Budget)
    requires Spent(m0, m1, b0, b1) && Spent(m1, m2, b1, b2)
    ensures Spent(m0, m2, b0, b2)
  {}

  lemma SpentWithin(m0: Metrics, m1: Metrics, b0: Budget, b1: Budget)
    requires Spent(m0, m1, b0, b1)
    ensures WithinBudget(m0, m1, b0) && (b1.pages == 0 ==> m1.admitted.count == m0.admitted.count + b0.pages)
  {}

  /** Where a replay stands: its residents, clock, questions asked and decisions told. */
  datatype Standing = Standing(residents: map<nat, Entry>, touch: nat, calls: nat, log: seq<Record>)

  predicate Prefetches(policy: Policy) { policy.router.Some? && policy.prefetch }

  /** The one decision a signal leads to when nothing is prefetched, and whether the policy is asked
      to record it. */
  function SignalOutcome(policy: Policy, sequence: nat, predictions: seq<CacheModel.Prediction>): (Record, bool) {
    match policy.router
    case None => (Event(sequence, SignalIgnored, None, []), false)
    case Some(config) =>
      if CacheModel.Selected(predictions, config.minimumScore, config.maxExperts) == []
      then (Event(sequence, SignalEmpty, None, []), false)
      else (Event(sequence, SignalAdmissionOnly, None, []), true)
  }

  /** One event of a policy that does not prefetch, given its answers. */
  function Onward(cat: Catalogue, policy: Policy, s: Standing, e: TraceEvent): Standing {
    match e
    case Demand(sequence, _, _, page) =>
      var outcome := DemandOutcome(cat, policy, s.residents, sequence, page, s.touch + 1, policy.answer(s.calls + 1));
      Standing(outcome.0, s.touch + 1, s.calls + (if page in s.residents then 1 else 2), s.log + [outcome.1])
    case Signal(sequence, _, _, _, predictions) =>
      var outcome := SignalOutcome(policy, sequence, predictions);
      s.(calls := s.calls + (if outcome.1 then 1 else 0), log := s.log + [outcome.0])
  }

  function Standings(cat: Catalogue, policy: Policy, events: seq<TraceEvent>): Standing {
    if events == [] then Standing(map[], 0, 0, [])
    else Onward(cat, policy, Standings(cat, policy, events[..|events| - 1]), events[|events| - 1])
  }

  /** Residents, each named once. */
  ghost predicate Removable(residents: map<nat, Entry>, victims: seq<nat>) {
    Distinct(victims) && forall v | v in victims :: v in residents
  }

  /** An answer to a miss that can be carried out: residents, each named once, that make room. */
  ghost predicate Workable(cat: Catalogue, capacity: nat, residents: map<nat, Entry>, page: nat, answer: Answer) {
    match answer
    case Fail => false
    case Decline => true
    case Evict(victims) =>
      && Removable(residents, victims)
      && Total(Left(residents, victims).Keys, Charge(cat)) + cat(page).charge <= capacity
  }

  ghost predicate Answered(cat: Catalogue, capacity: nat, policy: Policy, residents: map<nat, Entry>, calls: nat,
                           page: nat)
  {
    && policy.answer(calls) != Fail
    && (page in residents || Workable(cat, capacity, residents, page, policy.answer(calls + 1)))
  }

  /** The answers that an event will ask for do not fail and can be carried out. */
  ghost predicate Poised(cat: Catalogue, capacity: nat, policy: Policy, s: Standing, e: TraceEvent) {
    match e
    case Demand(_, _, _, page) =>
      Answered(cat, capacity, policy, s.residents, s.calls, page)
    case Signal(_, _, _, _, _) => policy.answer(s.calls) != Fail
  }

  /** So it is with every event of a trace. */
  ghost predicate Steady(cat: Catalogue, capacity: nat, policy: Policy, events: seq<TraceEvent>) {
    forall i | 0 <= i < |events| :: Poised(cat, capacity, policy, Standings(cat, policy, events[..i]), events[i])
  }

  /** A policy that does not prefetch and whose answers, the closing one too, a replay can use. */
  ghost predicate Reliable(cat: Catalogue, capacity: nat, policy: Policy, events: seq<TraceEvent>) {
    && !Prefetches(policy) && Steady(cat, capacity, policy, events)
    && policy.answer(Standings(cat, policy, events).calls) != Fail
  }

  /** What a signal adds to the log. */
  ghost predicate SignalTold(policy: Policy, experts: Experts, before: seq<Record>, after: seq<Record>, sequence: nat,
                             layer: nat, predictions: seq<CacheModel.Prediction>)
  {
    match policy.router
    case None => after == before + [Event(sequence, SignalIgnored, None, [])]
    case Some(config) =>
      var selected := CacheModel.Selected(predictions, config.minimumScore, config.maxExperts);
      if selected == [] then after == before + [Event(sequence, SignalEmpty, None, [])]
      else if !policy.prefetch then after == before + [Event(sequence, SignalAdmissionOnly, None, [])]
      else GroupsTold(experts, before, after, sequence, layer, selected)
  }

  /** The demands of a trace and of a log, each with its sequence number. */
  function DemandsIn(events: seq<TraceEvent>): seq<(nat, nat)> {
    if events == [] then []
    else
      var prior := DemandsIn(events[..|events| - 1]);
      match events[|events| - 1]
      case Demand(sequence, _, _, page) => prior + [(sequence, page)]
      case Signal(_, _, _, _, _) => prior
  }

  function DemandsTold(log: seq<Record>): seq<(nat, nat)> {
    if log == [] then []
    else
      var prior := DemandsTold(log[..|log| - 1]);
      match log[|log| - 1]
      case Event(sequence, _, Some(page), _) => prior + [(sequence, page)]
      case _ => prior
  }

  /** No decision of a log is about a prefetch. */
  predicate OnlyEvents(log: seq<Record>) { forall d | d in log :: d.Event? }

  predicate AllSized(log: seq<Record>) { forall d | d in log :: Sized(d) }

  lemma NoDecisions()
    ensures OnlyEvents([]) && AllSized([])
  {}

  lemma DemandAppends(before: seq<Record>, after: seq<Record>, sequence: nat, page: nat)
    requires OneMore(before, after, sequence, page)
    ensures DemandsTold(after) == DemandsTold(before) + [(sequence, page)]
    ensures sequence <= MAX_U64 && page <= MAX_U32 && AllSized(before) ==> AllSized(after)
    ensures OnlyEvents(before) ==> OnlyEvents(after)
  {
    assert after == before + [after[|before|]];
  }

  lemma {:induction false} QuietAppends(before: seq<Record>, after: seq<Record>)
    requires |before| <= |after| && after[..|before|] == before
    requires forall i | |before| <= i < |after| :: after[i].Prefetch? || after[i].page.None?
    ensures DemandsTold(after) == DemandsTold(before)
  {
    if |before| == |after| {
      assert after == before;
    } else {
      var prior := after[..|after| - 1];
      assert prior[..|before|] == before;
      QuietAppends(before, prior);
    }
  }

  lemma SignalAppends(policy: Policy, experts: Experts, before: seq<Record>, after: seq<Record>, sequence: nat,
                      layer: nat, predictions: seq<CacheModel.Prediction>)
    requires SignalTold(policy, experts, before, after, sequence, layer, predictions)
    ensures DemandsTold(after) == DemandsTold(before)
    ensures !Prefetches(policy) && OnlyEvents(before) ==> OnlyEvents(after)
  {
    QuietAppends(before, after);
  }

  lemma SignalSized(policy: Policy, experts: Experts, before: seq<Record>, after: seq<Record>, sequence: nat,
                    layer: nat, predictions: seq<CacheModel.Prediction>)
    requires SignalTold(policy, experts, before, after, sequence, layer, predictions)
    requires sequence <= MAX_U64 && Native(experts, []) && AllSized(before)
    ensures AllSized(after)
  {
    forall i | 0 <= i < |after| ensures Sized(after[i]) {
      if i < |before| { assert after[i] == before[i]; }
    }
  }

  /** The report of a replay that ended in these accounts. */
  ghost function Reported(cat: Catalogue, b: Books, policy: Policy): Metrics {
    Settled(cat, b).(metadata := policy.metadata, metadataLimit := policy.metadataLimit,
                     totalLoad := b.m.demandLoad + b.m.admitted.bytes)
  }

  class Kernel {
    const cat: Catalogue
    const capacity: nat
    const policy: Policy
    const experts: Experts
    var residents: map<nat, Entry>
    var residentBytes: nat
    var metrics: Metrics
    var stream: seq<Byte>
    var touch: nat
    var calls: nat
    ghost var decisions: seq<Record>

    ghost function Accounts(): Books
      reads this`residents, this`residentBytes, this`metrics
    {
      Books(Flags(residents), residentBytes, metrics)
    }

    /** Entries carry their page's geometry, the ledger is their total charge, counters fit. */
    ghost predicate Sound()
      reads this`residents, this`residentBytes, this`metrics
    {
      && (forall p | p in residents :: residents[p].charge == cat(p).charge && residents[p].logical == cat(p).logical)
      && residentBytes == Total(residents.Keys, Charge(cat))
      && Bounded(metrics)
    }

    /** The decisions and the stream written for them lead to these accounts. */
    ghost predicate Logged(b: Books)
      reads this`decisions, this`stream
    {
      && Discreet(policy) && Grouped(experts) && LegalRun(cat, capacity, decisions)
      && b == Replay(cat, decisions) && stream == EncodeAll(decisions)
    }

    /** Between events the accounts are what the decisions so far account for. */
    ghost predicate Valid()
      reads this
    {
      Sound() && Logged(Accounts())
    }

    constructor (cat: Catalogue, capacity: nat, policy: Policy, experts: Experts)
      requires Discreet(policy) && Grouped(experts)
      ensures Valid() && Now() == Standing(map[], 0, 0, []) && this.cat == cat && this.capacity == capacity
      ensures this.policy == policy && this.experts == experts
    {
      this.cat, this.capacity, this.policy, this.experts := cat, capacity, policy, experts;
      residents, residentBytes, metrics, stream, touch, calls := map[], 0, Untouched(Tally(0, 0)), [], 0, 0;
      decisions := [];
      new;
      assert residents.Keys == {};
    }

    method Ask() returns (a: Answer)
      modifies this`calls
      ensures a == policy.answer(old(calls)) && calls == old(calls) + 1
    {
      a := policy.answer(calls);
      calls := calls + 1;
    }

    method NextTouch() returns (r: Outcome<nat>)
      modifies this`touch
      ensures r.Ok? ==> touch == old(touch) + 1 && r.value == touch
      ensures r.Err? ==> r.error.CounterOverflow?
    {
      var next :- Bump(touch, 1, "policy touch clock");
      touch := next;
      r := Ok(touch);
    }

    method HashPageList(pages: seq<nat>)
      modifies this`stream
      ensures stream == old(stream) + PageList(pages)
    {
      stream := stream + Word(|pages|, 8);
      ghost var before := stream;
      for i := 0 to |pages|
        invariant stream == before + Words(pages[..i])
      {
        stream := stream + Word(pages[i], 4);
        WordsAppend(pages[..i], pages[i]);
        assert pages[..i + 1] == pages[..i] + [pages[i]];
      }
      assert pages[..|pages|] == pages;
    }

    method HashTag(sequence: nat, tag: seq<Byte>)
      modifies this`stream
      ensures stream == old(stream) + Tagged(sequence, tag)
    {
      stream := stream + Word(sequence, 8);
      stream := stream + Word(|tag|, 8);
      stream := stream + tag;
    }

    method HashOption(page: Option<nat>)
      modifies this`stream
      ensures stream == old(stream) + PageOption(page)
    {
      match page {
        case Some(id) =>
          stream := stream + [1];
          stream := stream + Word(id, 4);
        case None => stream := stream + [0];
      }
    }

    method HashEvent(sequence: nat, kind: EventKind, page: Option<nat>, victims: seq<nat>)
      modifies this`stream, this`decisions
      ensures decisions == old(decisions) + [Event(sequence, kind, page, victims)]
      ensures stream == old(stream) + Encode(Event(sequence, kind, page, victims))
    {
      hide Tagged, PageOption, PageList, Label, EventTag;
      var tag := Label(EventTag(kind));
      HashTag(sequence, tag);
      HashOption(page);
      HashPageList(victims);
      Regroup(old(stream) + Tagged(sequence, tag), PageOption(page), PageList(victims));
      Regroup(old(stream), Tagged(sequence, tag), PageOption(page) + PageList(victims));
      decisions := decisions + [Event(sequence, kind, page, victims)];
    }

    method HashPrefetchDecision(sequence: nat, move: PrefetchKind, offered: seq<nat>, redundant: seq<nat>,
                                moved: seq<nat>, victims: seq<nat>)
      modifies this`stream, this`decisions
      ensures decisions == old(decisions) + [Prefetch(sequence, move, offered, redundant, moved, victims)]
      ensures stream == old(stream) + Encode(Prefetch(sequence, move, offered, redundant, moved, victims))
    {
      hide Tagged, PageList, Label, PrefetchTag;
      var tag := Label(PrefetchTag(move));
      HashTag(sequence, tag);
      HashPageList(offered);
      HashPageList(redundant);
      HashPageList(moved);
      HashPageList(victims);
      FiveRegroup(old(stream), Tagged(sequence, tag), PageList(offered), PageList(redundant), PageList(moved),
                  PageList(victims));
      decisions := decisions + [Prefetch(sequence, move, offered, redundant, moved, victims)];
    }

    method AccountWasted(entry: Entry) returns (r: Outcome<()>)
      modifies this`metrics
      ensures r.Ok? ==>
        metrics == if entry.unused then old(metrics).(wasted := Plus(old(metrics).wasted, entry.logical))
                   else old(metrics)
      ensures r.Ok? <== old(metrics).wasted.count < MAX_U64 && old(metrics).wasted.bytes + entry.logical <= MAX_U64
      ensures r.Err? ==> r.error.CounterOverflow?
    {
      if entry.unused {
        var wasted :- BumpTally(metrics.wasted, entry.logical, "prefetch_wasted", "prefetch_wasted_bytes");
        metrics := metrics.(wasted := wasted);
      }
      r := Ok(());
    }

    method Evict(page: nat) returns (r: Outcome<()>)
      requires Sound()
      modifies this`residents, this`residentBytes, this`metrics
      ensures r.Ok? ==> Sound() && page in old(residents) && Accounts() == Evicted(cat, old(Accounts()), page)
      ensures r.Ok? ==> residents == Removed(old(residents), page)
      ensures r.Err? ==> r.error.CounterOverflow? || (r.error.VictimNotResident? && page !in old(residents))
    {
      hide Total;
      if page !in residents { return Err(VictimNotResident); }
      var entry := residents[page];
      TotalRemove(residents.Keys, Charge(cat), page);
      FlagsWithout(residents, page);
      residents := Removed(residents, page);
      var _ :- AccountWasted(entry);
      // The ledger holds the victim's charge, so the checked subtraction succeeds.
      var left := CheckedSub(residentBytes, entry.charge, LedgerUnderflow);
      assert left.Ok?;
      residentBytes := left.value;
      var evictions :- BumpTally(metrics.evictions, entry.charge, "evictions", "evicted_charge_bytes");
      metrics := metrics.(evictions := evictions);
      r := Ok(());
    }

    method EvictAll(victims: seq<nat>) returns (r: Outcome<()>)
      requires Sound()
      modifies this`residents, this`residentBytes, this`metrics
      ensures r.Ok? ==>
        Sound() && Evictable(cat, old(Accounts()), victims) && Accounts() == EvictedAll(cat, old(Accounts()), victims)
      ensures r.Ok? ==> residents == Left(old(residents), victims)
      ensures r.Err? ==>
        r.error.CounterOverflow? || (r.error.VictimNotResident? && !Removable(old(residents), victims))
    {
      ghost var start := Accounts();
      assert Left(residents, victims[..0]) == residents;
      for i := 0 to |victims|
        invariant residents == Left(old(residents), victims[..i])
        invariant Sound() && Evictable(cat, start, victims[..i]) && Accounts() == EvictedAll(cat, start, victims[..i])
      {
        LeftStep(old(residents), victims, i);
        var _ :- Evict(victims[i]);
        assert victims[..i + 1][..i] == victims[..i];
      }
      assert victims[..|victims|] == victims;
      r := Ok(());
    }

    method Insert(page: nat, touch: nat, unused: bool) returns (r: Outcome<()>)
      requires Sound()
      modifies this`residents, this`residentBytes, this`metrics
      ensures r.Ok? ==> Sound() && page !in old(residents) && Accounts() == Inserted(cat, old(Accounts()), page, unused)
      ensures r.Ok? ==> residents == old(residents)[page := Entering(cat, policy, page, touch, unused)]
      ensures r.Ok? ==> residentBytes <= capacity
      ensures r.Err? ==>
        || r.error.CounterOverflow? || (r.error == AlreadyResident && page in old(residents))
        || (r.error == CapacityNotFreed && old(residentBytes) + cat(page).charge > capacity)
    {
      hide Total;
      var grown :- Bump(residentBytes, cat(page).charge, "resident charge");
      if grown > capacity { return Err(CapacityNotFreed); }
      var replaced := page in residents;
      var entry := Entering(cat, policy, page, touch, unused);
      LedgerGrows(cat, residents, page, entry);
      residents := residents[page := entry];
      if replaced { return Err(AlreadyResident); }
      residentBytes := grown;
      var admissions :- Bump(metrics.admissions, 1, "admissions");
      metrics := metrics.(peakBytes := Accounting.Max(metrics.peakBytes, residentBytes), admissions := admissions);
      r := Ok(());
    }

    method CommitEvent(ghost start: Books, sequence: nat, kind: EventKind, page: Option<nat>, victims: seq<nat>)
      requires Logged(start) && Legal(cat, capacity, start, Event(sequence, kind, page, victims))
      modifies this`stream, this`decisions
      ensures Logged(Post(cat, start, Event(sequence, kind, page, victims)))
      ensures decisions == old(decisions) + [Event(sequence, kind, page, victims)]
    {
      hide Post, Legal, Encode;
      ghost var r := Event(sequence, kind, page, victims);
      Committed(cat, capacity, decisions, r);
      EncodeAppend(decisions, r);
      HashEvent(sequence, kind, page, victims);
    }

    method CommitPrefetch(ghost start: Books, sequence: nat, move: PrefetchKind, offered: seq<nat>, redundant: seq<nat>,
                          moved: seq<nat>, victims: seq<nat>)
      requires Logged(start)
      requires Legal(cat, capacity, start, Prefetch(sequence, move, offered, redundant, moved, victims))
      modifies this`stream, this`decisions
      ensures Logged(Post(cat, start, Prefetch(sequence, move, offered, redundant, moved, victims)))
      ensures decisions == old(decisions) + [Prefetch(sequence, move, offered, redundant, moved, victims)]
    {
      hide Post, Legal, Encode;
      ghost var r := Prefetch(sequence, move, offered, redundant, moved, victims);
      Committed(cat, capacity, decisions, r);
      EncodeAppend(decisions, r);
      HashPrefetchDecision(sequence, move, offered, redundant, moved, victims);
    }

    // -------------------------------------------------------------- demand

    method OnHit(page: nat, touch: nat)
      requires Sound() && Discreet(policy)
      modifies this`residents
      ensures Sound() && Accounts() == old(Accounts()) && residents == policy.onHit(old(residents), page, touch)
    {
      HitKeeps(policy, residents, page, touch);
      residents := policy.onHit(residents, page, touch);
    }

    method CountHit(page: nat) returns (r: Outcome<()>)
      requires Sound() && page in residents
      modifies this`residents, this`metrics
      ensures r.Ok? ==> Sound() && CountedHit(cat, old(Accounts()), Accounts(), page, old(residents)[page].unused)
      ensures r.Ok? ==> residents == old(residents)[page := old(residents)[page].(unused := false)]
      ensures r.Err? ==> r.error.CounterOverflow?
    {
      hide Total;
      var entry := residents[page];
      var size := cat(page).logical;
      if entry.unused {
        residents := residents[page := entry.(unused := false)];
        assert residents.Keys == old(residents).Keys;
        var hits :- BumpTally(metrics.usefulHits, size, "useful_prefetch_hits", "useful_prefetch_hit_bytes");
        var useful :- BumpTally(metrics.useful, size, "prefetch_useful", "prefetch_useful_bytes");
        metrics := metrics.(usefulHits := hits, useful := useful);
      } else {
        var hits :- BumpTally(metrics.ordinaryHits, size, "ordinary_demand_hits", "ordinary_demand_hit_bytes");
        metrics := metrics.(ordinaryHits := hits);
      }
      r := Ok(());
    }

    method Serve(ghost start: Books, sequence: nat, page: nat, touch: nat) returns (r: Outcome<()>)
      requires Sound() && Logged(start) && Accounts() == start.(m := Demanded(cat, start.m, page)) && page in residents
      modifies this`residents, this`metrics, this`stream, this`decisions
      ensures r.Ok? ==>
        Valid() && Told(old(residents), old(decisions), sequence, page, touch, Decline)
      ensures r.Err? ==> r.error.CounterOverflow?
    {
      hide Sound, LegalRun, Replay, EncodeAll, Grouped, Discreet;
      var useful := residents[page].unused;
      var _ :- CountHit(page);
      OnHit(page, touch);
      CommitEvent(start, sequence, if useful then UsefulHit else Hit, Some(page), []);
      r := Ok(());
    }

    method CountMiss(page: nat) returns (r: Outcome<()>)
      requires Sound()
      modifies this`metrics
      ensures r.Ok? ==> Sound() && residents == old(residents) && residentBytes == old(residentBytes)
      ensures r.Ok? ==> metrics == old(metrics).(misses := Plus(old(metrics).misses, cat(page).logical),
                                                 demandLoad := old(metrics).demandLoad + cat(page).logical)
      ensures r.Err? ==> r.error.CounterOverflow?
    {
      var size := cat(page).logical;
      var misses :- BumpTally(metrics.misses, size, "demand_misses", "demand_miss_bytes");
      var loaded :- Bump(metrics.demandLoad, size, "demand_load_bytes");
      metrics := metrics.(misses := misses, demandLoad := loaded);
      r := Ok(());
    }

    method CountBypass() returns (r: Outcome<()>)
      requires Sound()
      modifies this`metrics
      ensures r.Ok? ==> Sound() && metrics == old(metrics).(bypasses := old(metrics).bypasses + 1)
      ensures r.Err? ==> r.error.CounterOverflow?
    {
      var bypasses :- Bump(metrics.bypasses, 1, "bypasses");
      metrics := metrics.(bypasses := bypasses);
      r := Ok(());
    }

    /** Carries out a victim plan and makes the missed page resident. */
    method Fill(page: nat, victims: seq<nat>, touch: nat) returns (r: Outcome<()>)
      requires Sound() && page !in residents
      modifies this`residents, this`residentBytes, this`metrics
      ensures r.Ok? ==> Sound() && Evictable(cat, old(Accounts()), victims)
      ensures r.Ok? ==> Accounts() == Inserted(cat, EvictedAll(cat, old(Accounts()), victims), page, false)
      ensures r.Ok? ==> residents == Left(old(residents), victims)[page := Entering(cat, policy, page, touch, false)]
      ensures r.Ok? ==> residentBytes <= capacity
      ensures r.Err? ==> Genuine(r.error)
      ensures r.Err? && Workable(cat, capacity, old(residents), page, Answer.Evict(victims)) ==>
        r.error.CounterOverflow?
    {
      hide Sound, EvictedAll, Evictable, Inserted;
      var _ :- EvictAll(victims);
      EvictedAllFrame(cat, old(Accounts()), victims);
      assert page !in Flags(residents);
      r := Insert(page, touch, false);
    }

    method AdmitDemand(ghost start: Books, sequence: nat, page: nat, victims: seq<nat>, touch: nat)
      returns (r: Outcome<()>)
      requires Sound() && Logged(start) && Accounts() == start.(m := Missed(cat, start.m, page)) && page !in residents
      modifies this`residents, this`residentBytes, this`metrics, this`stream, this`decisions
      ensures r.Ok? ==>
        Valid() && Told(old(residents), old(decisions), sequence, page, touch, Answer.Evict(victims))
      ensures r.Err? ==> Genuine(r.error)
      ensures r.Err? && Workable(cat, capacity, old(residents), page, Answer.Evict(victims)) ==>
        r.error.CounterOverflow?
    {
      hide Sound, LegalRun, Replay, EncodeAll, Grouped, Discreet, EvictedAll, Evictable, Missed, Inserted,
           Workable;
      var _ :- Fill(page, victims, touch);
      EvictableMetrics(cat, start, Missed(cat, start.m, page), victims);
      CommitEvent(start, sequence, MissAdmit, Some(page), victims);
      r := Ok(());
    }

    method Load(ghost start: Books, sequence: nat, page: nat, touch: nat) returns (r: Outcome<()>)
      requires Sound() && Logged(start) && Accounts() == start.(m := Demanded(cat, start.m, page)) && page !in residents
      modifies this`residents, this`residentBytes, this`metrics, this`stream, this`decisions, this`calls
      ensures r.Ok? ==> calls == old(calls) + 1
      ensures r.Ok? ==>
        Valid() && Told(old(residents), old(decisions), sequence, page, touch, policy.answer(old(calls)))
      ensures r.Err? ==> Genuine(r.error)
      ensures r.Err? && Workable(cat, capacity, old(residents), page, policy.answer(old(calls))) ==>
        r.error.CounterOverflow?
    {
      hide Sound, LegalRun, Replay, EncodeAll, Grouped, Discreet;
      var _ :- CountMiss(page);
      var plan := Ask();
      if plan.Fail? { return Err(PolicyFailed); }
      if plan.Decline? {
        var _ :- CountBypass();
        CommitEvent(start, sequence, MissBypass, Some(page), []);
        return Ok(());
      }
      r := AdmitDemand(start, sequence, page, plan.victims, touch);
    }

    /** The residents are those the demand leads to, and the decision is told. */
    ghost predicate Told(before: map<nat, Entry>, log: seq<Record>, sequence: nat, page: nat, now: nat, plan: Answer)
      reads this
    {
      var outcome := DemandOutcome(cat, policy, before, sequence, page, now, plan);
      residents == outcome.0 && decisions == log + [outcome.1]
    }

    /** One demand: a hit, a bypassed miss or an admitted miss, and one decision recorded. The clock
        moves on by one; the policy is asked about the step first and about a miss second. */
    method HandleDemand(sequence: nat, page: nat) returns (r: Outcome<()>)
      requires Valid()
      modifies this
      ensures r.Ok? ==> touch == old(touch) + 1 && calls == old(calls) + (if page in old(residents) then 1 else 2)
      ensures r.Ok? ==>
        Told(old(residents), old(decisions), sequence, page, touch, policy.answer(old(calls) + 1))
      ensures r.Ok? ==> Valid() && OneMore(old(decisions), decisions, sequence, page)
      ensures r.Err? ==> Genuine(r.error)
      ensures r.Err? && Answered(cat, capacity, policy, old(residents), old(calls), page) ==> r.error.CounterOverflow?
    {
      hide LegalRun, Replay, EncodeAll, Grouped, Discreet, Total, Workable;
      ghost var start := Accounts();
      var entered := Ask();
      if entered.Fail? { return Err(PolicyFailed); }
      var demand :- BumpTally(metrics.demand, cat(page).logical, "demand_accesses", "demand_logical_bytes");
      metrics := metrics.(demand := demand);
      var now :- NextTouch();
      if page in residents {
        r := Serve(start, sequence, page, now);
      } else {
        r := Load(start, sequence, page, now);
      }
    }

    // -------------------------------------------------------------- prefetch

    method Offer(pages: seq<nat>) returns (r: Outcome<()>)
      requires Sound()
      modifies this`metrics
      ensures r.Ok? ==>
        Sound() && metrics == old(metrics).(offered := PlusAll(old(metrics).offered, pages, Logical(cat)))
      ensures r.Err? ==> Genuine(r.error)
    {
      hide Total;
      for i := 0 to |pages|
        invariant Sound()
        invariant metrics == old(metrics).(offered := PlusAll(old(metrics).offered, pages[..i], Logical(cat)))
      {
        SumStep(pages, i, Logical(cat));
        var offered :- BumpTally(metrics.offered, cat(pages[i]).logical, "prefetch_offered", "prefetch_offered_bytes");
        metrics := metrics.(offered := offered);
      }
      assert pages[..|pages|] == pages;
      r := Ok(());
    }

    /** Separates an offer into absent and redundant pages, counting the redundant ones. */
    method Classify(pages: seq<nat>) returns (r: Outcome<(seq<nat>, seq<nat>)>)
      requires Sound()
      modifies this`metrics
      ensures r.Ok? ==> r.value == (Where(Accounts(), pages, false), Where(Accounts(), pages, true))
      ensures r.Ok? ==>
        Sound() && metrics == old(metrics).(redundant := PlusAll(old(metrics).redundant, r.value.1, Logical(cat)))
      ensures r.Err? ==> Genuine(r.error)
    {
      hide Total, Where, Sum;
      var absent: seq<nat> := [];
      var redundant: seq<nat> := [];
      ghost var b := Accounts();
      NothingSorted(b, pages, Logical(cat));
      for i := 0 to |pages|
        invariant absent == Where(b, pages[..i], false) && redundant == Where(b, pages[..i], true)
        invariant Sound()
        invariant metrics == old(metrics).(redundant := PlusAll(old(metrics).redundant, redundant, Logical(cat)))
      {
        WhereStep(b, pages, i);
        if pages[i] in residents {
          SumAppend(redundant, pages[i], Logical(cat));
          redundant := redundant + [pages[i]];
          var count :- BumpTally(metrics.redundant, cat(pages[i]).logical, "prefetch_redundant",
                                 "prefetch_redundant_bytes");
          metrics := metrics.(redundant := count);
        } else {
          absent := absent + [pages[i]];
        }
      }
      assert pages[..|pages|] == pages;
      WhereAgrees(b, Accounts(), pages);
      r := Ok((absent, redundant));
    }

    method DropPrefetches(pages: seq<nat>) returns (r: Outcome<()>)
      requires Sound()
      modifies this`metrics
      ensures r.Ok? ==>
        Sound() && metrics == old(metrics).(dropped := PlusAll(old(metrics).dropped, pages, Logical(cat)))
      ensures r.Err? ==> Genuine(r.error)
    {
      hide Total;
      for i := 0 to |pages|
        invariant Sound()
        invariant metrics == old(metrics).(dropped := PlusAll(old(metrics).dropped, pages[..i], Logical(cat)))
      {
        SumStep(pages, i, Logical(cat));
        var dropped :- BumpTally(metrics.dropped, cat(pages[i]).logical, "prefetch_dropped", "prefetch_dropped_bytes");
        metrics := metrics.(dropped := dropped);
      }
      assert pages[..|pages|] == pages;
      r := Ok(());
    }

    method LoadBytes(pages: seq<nat>) returns (r: Outcome<nat>)
      ensures r.Ok? ==> r.value == Sum(pages, Logical(cat))
      ensures r.Err? ==> Genuine(r.error)
    {
      var total: nat := 0;
      for i := 0 to |pages|
        invariant total == Sum(pages[..i], Logical(cat))
      {
        SumStep(pages, i, Logical(cat));
        var grown :- Bump(total, cat(pages[i]).logical, "prefetch group load");
        total := grown;
      }
      assert pages[..|pages|] == pages;
      r := Ok(total);
    }

    method FillOne(page: nat) returns (r: Outcome<()>)
      requires Sound() && page !in residents
      modifies this`residents, this`residentBytes, this`metrics, this`touch
      ensures r.Ok? ==> Sound() && Accounts() == Prefetched(cat, old(Accounts()), page) && residentBytes <= capacity
      ensures r.Ok? ==> Covers(old(residents), residents) && touch == old(touch) + 1
      ensures r.Ok? ==> residents == old(residents)[page := Entering(cat, policy, page, touch, true)]
      ensures r.Err? ==> Genuine(r.error)
    {
      hide Total;
      var now :- NextTouch();
      var _ :- Insert(page, now, true);
      var admitted :- BumpTally(metrics.admitted, cat(page).logical, "prefetch_admitted", "prefetch_load_bytes");
      metrics := metrics.(admitted := admitted);
      r := Ok(());
    }

    method FillGroup(pages: seq<nat>, victims: seq<nat>) returns (r: Outcome<()>)
      requires Sound() && Distinct(pages) && pages != [] && forall p | p in pages :: p !in residents
      modifies this`residents, this`residentBytes, this`metrics, this`touch
      ensures r.Ok? ==> Sound() && Evictable(cat, old(Accounts()), victims) && residentBytes <= capacity
      ensures r.Ok? ==> Accounts() == PrefetchedAll(cat, EvictedAll(cat, old(Accounts()), victims), pages)
      ensures r.Ok? ==> Covers(Left(old(residents), victims), residents) && touch == old(touch) + |pages|
      ensures r.Ok? ==> residents == Filled(cat, policy, Left(old(residents), victims), pages, old(touch))
      ensures r.Err? ==> Genuine(r.error)
    {
      hide Sound, EvictedAll, Evictable, Prefetched, Left, Entering;
      var _ :- EvictAll(victims);
      EvictedAllFrame(cat, old(Accounts()), victims);
      ghost var cleared := Accounts();
      for i := 0 to |pages|
        invariant Sound() && Accounts() == PrefetchedAll(cat, cleared, pages[..i])
        invariant i > 0 ==> residentBytes <= capacity
        invariant Covers(Left(old(residents), victims), residents) && touch == old(touch) + i
        invariant residents == Filled(cat, policy, Left(old(residents), victims), pages[..i], old(touch))
      {
        NotYet(cat, cleared, pages, i);
        FilledNext(cat, policy, Left(old(residents), victims), pages, old(touch), i);
        assert pages[i] !in Flags(residents);
        var _ :- FillOne(pages[i]);
        assert pages[..i + 1][..i] == pages[..i];
      }
      assert pages[..|pages|] == pages;
      r := Ok(());
    }

    /** Counts the offer and sorts its pages. */
    method Examine(ghost start: Books, pages: seq<nat>) returns (r: Outcome<(seq<nat>, seq<nat>)>)
      requires Sound() && start == Accounts()
      modifies this`metrics
      ensures r.Ok? ==> r.value == (Where(start, pages, false), Where(start, pages, true))
      ensures r.Ok? ==> Sound() && Accounts() == Offered(cat, start, pages)
      ensures r.Err? ==> Genuine(r.error)
    {
      hide Sound, Where;
      var _ :- Offer(pages);
      r := Classify(pages);
      WhereAgrees(start, Accounts(), pages);
    }

    method DropGroup(ghost start: Books, sequence: nat, move: PrefetchKind, pages: seq<nat>, redundant: seq<nat>,
                     absent: seq<nat>)
    returns (r: Outcome<()>)
      requires Sound() && Logged(start) && Accounts() == Offered(cat, start, pages) && Distinct(pages)
      requires redundant == Where(start, pages, true) && absent == Where(start, pages, false) && absent != []
      requires move.DropPages? || move.DropBytes? || move.DropAdmission?
      modifies this`metrics, this`stream, this`decisions
      ensures r.Ok? ==>
        Valid() && decisions == old(decisions) + [Prefetch(sequence, move, pages, redundant, absent, [])]
      ensures r.Ok? ==> metrics.admitted == old(metrics).admitted
      ensures r.Err? ==> Genuine(r.error)
    {
      hide Sound, Where, Sum, LegalRun, Replay, EncodeAll, Grouped, Discreet;
      var _ :- DropPrefetches(absent);
      CommitPrefetch(start, sequence, move, pages, redundant, absent, []);
      r := Ok(());
    }

    method AdmitGroup(ghost start: Books, sequence: nat, pages: seq<nat>, redundant: seq<nat>, absent: seq<nat>,
                      victims: seq<nat>)
    returns (r: Outcome<()>)
      requires Sound() && Logged(start) && Accounts() == Offered(cat, start, pages) && Distinct(pages)
      requires redundant == Where(start, pages, true) && absent == Where(start, pages, false) && absent != []
      modifies this`residents, this`residentBytes, this`metrics, this`touch, this`stream, this`decisions
      ensures r.Ok? ==>
        Valid() && decisions == old(decisions) + [Prefetch(sequence, Admit, pages, redundant, absent, victims)]
      ensures r.Ok? ==> metrics.admitted == PlusAll(old(metrics).admitted, absent, Logical(cat))
      ensures r.Ok? ==> Covers(Left(old(residents), victims), residents) && touch == old(touch) + |absent|
      ensures r.Ok? ==> residents == Filled(cat, policy, Left(old(residents), victims), absent, old(touch))
      ensures r.Err? ==> Genuine(r.error)
    {
      hide Sound, Where, Sum, LegalRun, Replay, EncodeAll, Grouped, Discreet, EvictedAll, Evictable, PrefetchedAll,
           Left, Covers, Filled;
      ghost var c := Accounts();
      WhereDistinct(start, pages, false);
      AbsentNow(start, pages, residents);
      var _ :- FillGroup(absent, victims);
      EvictableMetrics(cat, start, c.m, victims);
      EvictedAllFrame(cat, c, victims);
      PrefetchedAllFrame(cat, EvictedAll(cat, c, victims), absent);
      CommitPrefetch(start, sequence, Admit, pages, redundant, absent, victims);
      r := Ok(());
    }

    /** One decision was told, as the budget and the policy's next answer decide, and the budget charged. */
    ghost predicate GroupDecided(log: seq<Record>, asked: nat, budget: Budget, left: Budget)
      reads this`decisions, this`calls
    {
      && |decisions| == |log| + 1
      && var d := decisions[|log|];
         && Decides(cat, budget.pages, budget.bytes, policy.answer(asked), d) && Charged(cat, budget, left, d)
         && calls == asked + if AsksPolicy(d) then 1 else 0
    }

    /** The residents and the clock are those the decision leads to. */
    ghost predicate GroupSettled(before: map<nat, Entry>, clock: nat, log: seq<Record>)
      reads this`decisions, this`residents, this`touch
    {
      && |decisions| == |log| + 1
      && var d := decisions[|log|];
         residents == AfterGroup(cat, policy, before, d, clock) && touch == clock + PagesIn(d)
    }

    /** Asks the policy about a group that fits both budgets. */
    method Consult(ghost start: Books, sequence: nat, pages: seq<nat>, redundant: seq<nat>, absent: seq<nat>, load: nat,
                   budget: Budget)
    returns (r: Outcome<Budget>)
      requires Sound() && Logged(start) && Accounts() == Offered(cat, start, pages) && Distinct(pages)
      requires redundant == Where(start, pages, true) && absent == Where(start, pages, false) && absent != []
      requires |absent| <= budget.pages && load == Sum(absent, Logical(cat)) <= budget.bytes
      modifies this
      ensures r.Ok? ==> Valid() && GroupTold(old(decisions), decisions, sequence, pages)
      ensures r.Ok? ==> Spent(old(metrics), metrics, budget, r.value)
      ensures r.Ok? ==> GroupDecided(old(decisions), old(calls), budget, r.value)
      ensures r.Ok? ==> GroupSettled(old(residents), old(touch), old(decisions))
      ensures r.Ok? ==> Kept(old(residents), residents, decisions[|old(decisions)|..])
      ensures r.Err? ==> Genuine(r.error)
    {
      hide Sound, Where, Sum, LegalRun, Replay, EncodeAll, Grouped, Discreet, Post, Filled;
      var plan := Ask();
      if plan.Fail? { return Err(PolicyFailed); }
      if plan.Decline? {
        var _ :- DropGroup(start, sequence, DropAdmission, pages, redundant, absent);
        return Ok(budget);
      }
      var _ :- AdmitGroup(start, sequence, pages, redundant, absent, plan.victims);
      KeptOne(old(residents), residents, old(decisions),
              Prefetch(sequence, Admit, pages, redundant, absent, plan.victims));
      // The load was within the budget, so neither subtraction underflows.
      var left := CheckedSub(budget.bytes, load, BudgetUnderflow);
      assert left.Ok?;
      r := Ok(Budget(budget.pages - |absent|, left.value));
    }

    /** One expert's pages: one decision, taken by the budgets first and the policy last, and a
        budget charged exactly with what was admitted. */
    method PrefetchGroup(sequence: nat, pages: seq<nat>, budget: Budget) returns (r: Outcome<Budget>)
      requires Valid() && Distinct(pages)
      modifies this
      ensures r.Ok? ==> Valid() && GroupTold(old(decisions), decisions, sequence, pages)
      ensures r.Ok? ==> Spent(old(metrics), metrics, budget, r.value)
      ensures r.Ok? ==> GroupDecided(old(decisions), old(calls), budget, r.value)
      ensures r.Ok? ==> GroupSettled(old(residents), old(touch), old(decisions))
      ensures r.Ok? ==> Kept(old(residents), residents, decisions[|old(decisions)|..])
      ensures r.Err? ==> Genuine(r.error)
    {
      hide Sound, Where, Sum, LegalRun, Replay, EncodeAll, Grouped, Discreet, Post;
      ghost var start := Accounts();
      var sorted :- Examine(start, pages);
      var absent, redundant := sorted.0, sorted.1;
      if absent == [] {
        TellRedundant(start, sequence, pages, redundant);
        return Ok(budget);
      }
      if |absent| > budget.pages {
        var _ :- DropGroup(start, sequence, DropPages, pages, redundant, absent);
        return Ok(budget);
      }
      var load :- LoadBytes(absent);
      if load > budget.bytes {
        var _ :- DropGroup(start, sequence, DropBytes, pages, redundant, absent);
        return Ok(budget);
      }
      r := Consult(start, sequence, pages, redundant, absent, load, budget);
    }

    method TellRedundant(ghost start: Books, sequence: nat, pages: seq<nat>, redundant: seq<nat>)
      requires Sound() && Logged(start) && Accounts() == Offered(cat, start, pages) && Distinct(pages)
      requires redundant == Where(start, pages, true) && [] == Where(start, pages, false)
      modifies this`stream, this`decisions
      ensures Valid() && decisions == old(decisions) + [Prefetch(sequence, Redundant, pages, redundant, [], [])]
    {
      hide Sound, Where, LegalRun, Replay, EncodeAll, Grouped, Discreet;
      CommitPrefetch(start, sequence, Redundant, pages, redundant, [], []);
    }

    // -------------------------------------------------------------- signals and whole runs

    method PrefetchAll(sequence: nat, layer: nat, selected: seq<CacheModel.Prediction>, offered: Budget)
      returns (r: Outcome<()>)
      requires Valid() && Grouped(experts)
      modifies this
      ensures r.Ok? ==> Valid() && GroupsTold(experts, old(decisions), decisions, sequence, layer, selected)
      ensures r.Ok? ==> WithinBudget(old(metrics), metrics, offered)
      ensures r.Ok? ==>
        var told := decisions[|old(decisions)|..];
        && Rationed(cat, policy, offered, old(calls), told) && calls == old(calls) + Asked(told)
        && (|told| < |selected| ==> PagesAdmitted(told) == offered.pages)
      ensures r.Ok? ==> old(decisions) <= decisions && Kept(old(residents), residents, decisions[|old(decisions)|..])
      ensures r.Err? ==> Genuine(r.error)
    {
      hide Valid, GroupsTold, GroupTold, Spent, WithinBudget, Kept, Rationed, Decides, Charged, AsksPolicy;
      var budget := offered;
      NoGroups(experts, decisions, sequence, layer, selected, metrics, offered);
      KeptAll(residents);
      NothingRationed(cat, policy, offered, calls);
      assert decisions[|decisions|..] == [];
      var i := 0;
      while i < |selected| && budget.pages > 0
        invariant i <= |selected| && Valid() && |decisions| == |old(decisions)| + i
        invariant GroupsTold(experts, old(decisions), decisions, sequence, layer, selected)
        invariant Spent(old(metrics), metrics, offered, budget)
        invariant old(decisions) <= decisions && Kept(old(residents), residents, decisions[|old(decisions)|..])
        invariant Rationing(cat, policy, offered, old(calls), decisions[|old(decisions)|..], budget, calls)
        decreases |selected| - i
      {
        ghost var told, counted, held, asked := decisions, metrics, residents, calls;
        var left :- PrefetchGroup(sequence, experts(layer, selected[i].expert), budget);
        GroupsExtend(experts, old(decisions), told, decisions, sequence, layer, selected, i);
        SpentOnward(old(metrics), counted, metrics, offered, budget, left);
        ToldLonger(told, decisions, sequence, experts(layer, selected[i].expert));
        KeptLonger(old(residents), held, residents, old(decisions), told, decisions);
        assert decisions[|old(decisions)|..] == told[|old(decisions)|..] + [decisions[|told|]];
        RationedOnce(cat, policy, offered, old(calls), told[|old(decisions)|..], budget, asked, decisions[|told|], left,
                     calls);
        budget := left;
        i := i + 1;
      }
      SpentWithin(old(metrics), metrics, offered, budget);
      r := Ok(());
    }

    /** One router signal: filtered and ranked predictions, then one decision per group until the
        page budget is gone. The pages and bytes it loads stay within the configured limits. */
    method HandleSignal(sequence: nat, layer: nat, predictions: seq<CacheModel.Prediction>) returns (r: Outcome<()>)
      requires Valid()
      modifies this
      ensures r.Ok? ==> Valid() && SignalTold(policy, experts, old(decisions), decisions, sequence, layer, predictions)
      ensures r.Ok? && !Prefetches(policy) ==>
        var outcome := SignalOutcome(policy, sequence, predictions);
        && decisions == old(decisions) + [outcome.0] && residents == old(residents) && touch == old(touch)
        && calls == old(calls) + (if outcome.1 then 1 else 0)
      ensures r.Ok? && policy.router.Some? ==>
        WithinBudget(old(metrics), metrics, Budget(policy.router.value.maxPages, policy.router.value.maxBytes))
      ensures r.Ok? && Prefetches(policy) ==>
        var config, told := policy.router.value, decisions[|old(decisions)|..];
        var selected := CacheModel.Selected(predictions, config.minimumScore, config.maxExperts);
        selected != [] ==>
          && Rationed(cat, policy, Budget(config.maxPages, config.maxBytes), old(calls) + 1, told)
          && (|told| < |selected| ==> PagesAdmitted(told) == config.maxPages)
      ensures r.Ok? ==> old(decisions) <= decisions && Kept(old(residents), residents, decisions[|old(decisions)|..])
      ensures r.Err? ==> Genuine(r.error)
      ensures r.Err? && !Prefetches(policy) && policy.answer(old(calls)) != Fail ==> r.error.CounterOverflow?
    {
      hide Sound, LegalRun, Replay, EncodeAll, Rationed;
      ghost var start := Accounts();
      if policy.router.None? {
        CommitEvent(start, sequence, SignalIgnored, None, []);
        return Ok(());
      }
      var config := policy.router.value;
      var selected := CacheModel.Selected(predictions, config.minimumScore, config.maxExperts);
      if selected == [] {
        CommitEvent(start, sequence, SignalEmpty, None, []);
        return Ok(());
      }
      var recorded := Ask();
      if recorded.Fail? { return Err(PolicyFailed); }
      if !policy.prefetch {
        CommitEvent(start, sequence, SignalAdmissionOnly, None, []);
        return Ok(());
      }
      r := PrefetchAll(sequence, layer, selected, Budget(config.maxPages, config.maxBytes));
    }

    ghost function Now(): Standing
      reads this
    {
      Standing(residents, touch, calls, decisions)
    }

    method Handle(e: TraceEvent) returns (r: Outcome<()>)
      requires Valid()
      modifies this
      ensures r.Ok? ==> Valid()
      ensures r.Ok? ==>
        DemandsTold(decisions) == DemandsTold(old(decisions)) + if e.Demand? then [(e.sequence, e.page)] else []
      ensures r.Ok? && !Prefetches(policy) ==> Now() == Onward(cat, policy, old(Now()), e)
      ensures r.Ok? && !Prefetches(policy) && OnlyEvents(old(decisions)) ==> OnlyEvents(decisions)
      ensures r.Ok? && Native(experts, [e]) && AllSized(old(decisions)) ==> AllSized(decisions)
      ensures r.Err? ==> Genuine(r.error)
      ensures r.Err? && !Prefetches(policy) && Poised(cat, capacity, policy, old(Now()), e) ==> r.error.CounterOverflow?
    {
      hide Valid, SignalTold, SignalOutcome, DemandOutcome, AllSized, OnlyEvents, Native, DemandsTold, Workable;
      ghost var before := decisions;
      ghost var native := Native(experts, [e]);
      if native { NativeEvent(experts, [e], 0); }
      match e
      case Demand(sequence, _, _, page) =>
        r := HandleDemand(sequence, page);
        if r.Ok? { DemandAppends(before, decisions, sequence, page); }
      case Signal(sequence, _, _, layer, predictions) =>
        r := HandleSignal(sequence, layer, predictions);
        if r.Ok? {
          SignalAppends(policy, experts, before, decisions, sequence, layer, predictions);
          if native && AllSized(before) {
            SignalSized(policy, experts, before, decisions, sequence, layer, predictions);
          }
        }
    }

    method HandleAll(events: seq<TraceEvent>) returns (r: Outcome<()>)
      requires Valid() && Now() == Standing(map[], 0, 0, [])
      modifies this
      ensures r.Ok? ==> Valid() && DemandsTold(decisions) == DemandsIn(events)
      ensures r.Ok? && !Prefetches(policy) ==> Now() == Standings(cat, policy, events) && OnlyEvents(decisions)
      ensures r.Ok? && Native(experts, events) ==> AllSized(decisions)
      ensures r.Err? ==> Genuine(r.error)
      ensures r.Err? && !Prefetches(policy) && Steady(cat, capacity, policy, events) ==> r.error.CounterOverflow?
    {
      hide Valid, Onward, Poised, AllSized, OnlyEvents, Native;
      NoDecisions();
      ghost var native := Native(experts, events);
      for i := 0 to |events|
        invariant Valid() && DemandsTold(decisions) == DemandsIn(events[..i])
        invariant !Prefetches(policy) ==> Now() == Standings(cat, policy, events[..i]) && OnlyEvents(decisions)
        invariant native ==> AllSized(decisions)
      {
        assert events[..i + 1][..i] == events[..i];
        if native { NativePart(experts, events, i); }
        var _ :- Handle(events[i]);
      }
      assert events[..|events|] == events;
      r := Ok(());
    }

    /** Counts every prefetch still unused at the end as wasted. No counter can overflow here. */
    method WriteOff()
      requires Sound() && Held(cat, Accounts())
      modifies this`metrics
      ensures metrics == old(metrics).(wasted := Tally(old(metrics).wasted.count + Pending(cat, Flags(residents)).count,
                                                       old(metrics).wasted.bytes
                                                         + Pending(cat, Flags(residents)).bytes))
    {
      hide Total;
      var left: set<nat> := set p | p in residents && residents[p].unused;
      assert left == Unused(Flags(residents));
      while left != {}
        invariant forall p | p in left :: p in residents && residents[p].unused
        invariant metrics == old(metrics).(wasted := metrics.wasted)
        invariant metrics.wasted.count + |left| == old(metrics).wasted.count + Pending(cat, Flags(residents)).count
        invariant metrics.wasted.bytes + Total(left, Logical(cat))
          == old(metrics).wasted.bytes + Pending(cat, Flags(residents)).bytes
        decreases |left|
      {
        var page :| page in left;
        TotalRemove(left, Logical(cat), page);
        var counted := AccountWasted(residents[page]);
        assert counted.Ok?;
        left := left - {page};
      }
      TotalNone<nat>(Logical(cat));
    }

    method Run(events: seq<TraceEvent>) returns (r: Outcome<Metrics>)
      requires Valid() && Now() == Standing(map[], 0, 0, [])
      modifies this
      ensures r.Ok? ==> LegalRun(cat, capacity, decisions) && stream == EncodeAll(decisions)
      ensures r.Ok? ==> DemandsTold(decisions) == DemandsIn(events)
      ensures r.Ok? && !Prefetches(policy) ==> OnlyEvents(decisions)
      ensures r.Ok? && Native(experts, events) ==> AllSized(decisions)
      ensures r.Ok? && !Prefetches(policy) ==> decisions == Standings(cat, policy, events).log
      ensures r.Ok? ==> r.value == Reported(cat, Replay(cat, decisions), policy) && r.value.totalLoad <= MAX_U64
      ensures r.Err? ==> Genuine(r.error)
      ensures r.Err? && Reliable(cat, capacity, policy, events) ==> r.error.CounterOverflow?
    {
      hide Native, Sized, Replay, EncodeAll, Balanced, Reported, Steady;
      var _ :- HandleAll(events);
      ReplayConserves(cat, capacity, decisions);
      r := Close();
    }

    /** Ends a replay: write-offs, final residency, metadata and the identities. */
    method Close() returns (r: Outcome<Metrics>)
      requires Sound() && Balanced(cat, capacity, Accounts())
      modifies this`metrics, this`calls
      ensures r.Ok? ==> r.value == Reported(cat, old(Accounts()), policy) && r.value.totalLoad <= MAX_U64
      ensures r.Err? ==> Genuine(r.error)
      ensures r.Err? && policy.answer(old(calls)) != Fail ==> r.error.CounterOverflow?
    {
      hide Total, Pending;
      WriteOff();
      metrics := metrics.(finalBytes := residentBytes);
      var finished := Ask();
      if finished.Fail? { return Err(PolicyFailed); }
      metrics := metrics.(metadata := policy.metadata, metadataLimit := policy.metadataLimit);
      r := Identities();
    }

    method Identities() returns (r: Outcome<Metrics>)
      requires Flow(metrics) && Bounded(metrics) && Parts(metrics.admitted, metrics.useful, metrics.wasted, Tally(0, 0))
      ensures
        r == if metrics.demandLoad + metrics.admitted.bytes > MAX_U64
             then Err(CounterOverflow("total_physical_load_bytes"))
             else Ok(metrics.(totalLoad := metrics.demandLoad + metrics.admitted.bytes))
    {
      hide Finish;
      FinishOnlyOverflows(metrics);
      r := Finish(metrics);
    }
  }

  /** What a completed replay reports. */
  datatype Report = Report(metrics: Metrics, stream: seq<Byte>)

  /** A finished run: a legal log, the stream that encodes it, the demands of the trace in order, no
      prefetch unless the policy asks for it, the report the log accounts for, and records as wide
      as the trace's own numbers. */
  ghost predicate Completed(cat: Catalogue, capacity: nat, policy: Policy, experts: Experts, events: seq<TraceEvent>,
                            log: seq<Record>, report: Report)
  {
    && LegalRun(cat, capacity, log) && report.stream == EncodeAll(log)
    && DemandsTold(log) == DemandsIn(events)
    && (!Prefetches(policy) ==> OnlyEvents(log) && log == Standings(cat, policy, events).log)
    && report.metrics == Reported(cat, Replay(cat, log), policy) && report.metrics.totalLoad <= MAX_U64
    && (Native(experts, events) ==> AllSized(log))
  }

  /** A replay against any policy: it reports exactly what its decision log accounts for, and fails
      only on a counter that outgrows 64 bits or a policy that fails or plans victims badly, and on
      nothing but a counter when the policy's answers are workable. No accounting identity can fail. */
  method Simulate(cat: Catalogue, capacity: nat, policy: Policy, experts: Experts, events: seq<TraceEvent>)
    returns (r: Outcome<Report>, ghost log: seq<Record>)
    requires Discreet(policy) && Grouped(experts)
    ensures r.Ok? ==> Completed(cat, capacity, policy, experts, events, log, r.value)
    ensures r.Err? ==> Genuine(r.error)
    ensures r.Err? && Reliable(cat, capacity, policy, events) ==> r.error.CounterOverflow?
  {
    hide LegalRun, Replay, EncodeAll, Native, Sized, Reported, Standings, Reliable;
    var kernel := new Kernel(cat, capacity, policy, experts);
    var metrics := kernel.Run(events);
    log := kernel.decisions;
    r := if metrics.Ok? then Ok(Report(metrics.value, kernel.stream)) else Err(metrics.error);
  }
}
