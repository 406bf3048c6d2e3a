/** What a decision log says about a replay. Each record moves residents and counters in a fixed
    way, so the log determines the final accounts, and every legal log conserves them. */
module Accounting {
  import opened Common
  import opened DecisionLog
  import opened Totals

  datatype Page = Page(logical: nat, charge: nat)

  /** The geometry of every page of the trace. */
  type Catalogue = nat -> Page

  /** An event counter and the byte counter beside it. */
  datatype Tally = Tally(count: nat, bytes: nat)

  datatype Metrics = Metrics(
    demand: Tally, ordinaryHits: Tally, usefulHits: Tally, misses: Tally, demandLoad: nat,
    offered: Tally, admitted: Tally, useful: Tally, wasted: Tally, redundant: Tally, dropped: Tally,
    admissions: nat, bypasses: nat, evictions: Tally, finalBytes: nat, peakBytes: nat,
    metadata: nat, metadataLimit: nat, totalLoad: nat)

  function Untouched(none: Tally): Metrics {
    Metrics(none, none, none, none, 0, none, none, none, none, none, none, 0, 0, none, 0, 0, 0, 0, 0)
  }

  /** Residents with their unused-prefetch flags, the byte ledger, and the counters. */
  datatype Books = Books(unused: map<nat, bool>, resident: int, m: Metrics)

  function Opening(): Books { Books(map[], 0, Untouched(Tally(0, 0))) }

  function Plus(t: Tally, bytes: nat): Tally { Tally(t.count + 1, t.bytes + bytes) }

  /** The whole is made of three parts, in events and in bytes. */
  predicate Parts(whole: Tally, a: Tally, b: Tally, c: Tally) {
    whole.count == a.count + b.count + c.count && whole.bytes == a.bytes + b.bytes + c.bytes
  }

  function Sum(pages: seq<nat>, w: nat -> nat): nat {
    if pages == [] then 0 else Sum(pages[..|pages| - 1], w) + w(pages[|pages| - 1])
  }

  function PlusAll(t: Tally, pages: seq<nat>, w: nat -> nat): Tally {
    Tally(t.count + |pages|, t.bytes + Sum(pages, w))
  }

  function Logical(cat: Catalogue): nat -> nat { p => cat(p).logical }

  function Charge(cat: Catalogue): nat -> nat { p => cat(p).charge }

  function Max(a: nat, b: int): nat { if a < b then b else a }

  // ---------------------------------------------------------------- moving pages

  function Dropped(unused: map<nat, bool>, page: nat): map<nat, bool> {
    map p | p in unused && p != page :: unused[p]
  }

  /** One eviction: an unused prefetch is wasted, the charge leaves the ledger. */
  function Evicted(cat: Catalogue, b: Books, page: nat): Books {
    if page !in b.unused then b
    else
      var m := if b.unused[page] then b.m.(wasted := Plus(b.m.wasted, cat(page).logical)) else b.m;
      Books(Dropped(b.unused, page), b.resident - cat(page).charge,
            m.(evictions := Plus(m.evictions, cat(page).charge)))
  }

  function EvictedAll(cat: Catalogue, b: Books, victims: seq<nat>): Books {
    if victims == [] then b else Evicted(cat, EvictedAll(cat, b, victims[..|victims| - 1]), victims[|victims| - 1])
  }

  /** Every victim is still resident when its turn comes. */
  predicate Evictable(cat: Catalogue, b: Books, victims: seq<nat>) {
    victims != [] ==>
      var prior := victims[..|victims| - 1];
      Evictable(cat, b, prior) && victims[|victims| - 1] in EvictedAll(cat, b, prior).unused
  }

  function Inserted(cat: Catalogue, b: Books, page: nat, flag: bool): Books {
    var resident := b.resident + cat(page).charge;
    Books(b.unused[page := flag], resident,
          b.m.(peakBytes := Max(b.m.peakBytes, resident), admissions := b.m.admissions + 1))
  }

  function Prefetched(cat: Catalogue, b: Books, page: nat): Books {
    var c := Inserted(cat, b, page, true);
    c.(m := c.m.(admitted := Plus(c.m.admitted, cat(page).logical)))
  }

  function PrefetchedAll(cat: Catalogue, b: Books, pages: seq<nat>): Books {
    if pages == [] then b else Prefetched(cat, PrefetchedAll(cat, b, pages[..|pages| - 1]), pages[|pages| - 1])
  }

  // ---------------------------------------------------------------- records

  function Where(b: Books, pages: seq<nat>, resident: bool): (r: seq<nat>)
    ensures forall p | p in r :: p in pages && (p in b.unused <==> resident)
  {
    if pages == [] then []
    else
      var last := pages[|pages| - 1];
      var prior := Where(b, pages[..|pages| - 1], resident);
      if (last in b.unused) == resident then prior + [last] else prior
  }

  function Demanded(cat: Catalogue, m: Metrics, page: nat): Metrics {
    m.(demand := Plus(m.demand, cat(page).logical))
  }

  function Missed(cat: Catalogue, m: Metrics, page: nat): Metrics {
    var d := Demanded(cat, m, page);
    d.(misses := Plus(d.misses, cat(page).logical), demandLoad := d.demandLoad + cat(page).logical)
  }

  function HitBy(cat: Catalogue, b: Books, page: nat, useful: bool): Books {
    var d := Demanded(cat, b.m, page);
    if useful then
      var size := cat(page).logical;
      Books(b.unused[page := false], b.resident,
            d.(usefulHits := Plus(d.usefulHits, size), useful := Plus(d.useful, size)))
    else b.(m := d.(ordinaryHits := Plus(d.ordinaryHits, cat(page).logical)))
  }

  function Offered(cat: Catalogue, b: Books, pages: seq<nat>): Books {
    var w := Logical(cat);
    b.(m := b.m.(offered := PlusAll(b.m.offered, pages, w),
                 redundant := PlusAll(b.m.redundant, Where(b, pages, true), w)))
  }

  /** The accounts after a record. */
  function Post(cat: Catalogue, b: Books, r: Record): Books {
    match r
    case Event(_, kind, Some(page), victims) =>
      (match kind
       case UsefulHit => HitBy(cat, b, page, true)
       case Hit => HitBy(cat, b, page, false)
       case MissBypass =>
         var m := Missed(cat, b.m, page);
         b.(m := m.(bypasses := m.bypasses + 1))
       case MissAdmit => Inserted(cat, EvictedAll(cat, b.(m := Missed(cat, b.m, page)), victims), page, false)
       case _ => b)
    case Event(_, _, None, _) => b
    case Prefetch(_, move, offered, _, moved, victims) =>
      var c := Offered(cat, b, offered);
      (match move
       case Redundant => c
       case Admit => PrefetchedAll(cat, EvictedAll(cat, c, victims), moved)
       case _ => c.(m := c.m.(dropped := PlusAll(c.m.dropped, moved, Logical(cat)))))
  }

  /** The records a kernel can write in these accounts, whatever its policy answers. */
  predicate Legal(cat: Catalogue, capacity: nat, b: Books, r: Record) {
    match r
    case Event(_, kind, page, victims) =>
      (match kind
       case UsefulHit => page.Some? && page.value in b.unused && b.unused[page.value] && victims == []
       case Hit => page.Some? && page.value in b.unused && !b.unused[page.value] && victims == []
       case MissBypass => page.Some? && page.value !in b.unused && victims == []
       case MissAdmit =>
         page.Some? && page.value !in b.unused && Evictable(cat, b, victims) && Post(cat, b, r).resident <= capacity
       case _ => page.None? && victims == [])
    case Prefetch(_, move, offered, redundant, moved, victims) =>
      var absent := Where(b, offered, false);
      && Distinct(offered) && redundant == Where(b, offered, true)
      && match move
         case Redundant => absent == [] && moved == [] && victims == []
         case Admit =>
           absent != [] && moved == absent && Evictable(cat, b, victims) && Post(cat, b, r).resident <= capacity
         case _ => absent != [] && moved == absent && victims == []
  }

  /** The accounts a log leads to. */
  function Replay(cat: Catalogue, log: seq<Record>): Books {
    if log == [] then Opening() else Post(cat, Replay(cat, log[..|log| - 1]), log[|log| - 1])
  }

  predicate LegalRun(cat: Catalogue, capacity: nat, log: seq<Record>) {
    log != [] ==>
      && LegalRun(cat, capacity, log[..|log| - 1])
      && Legal(cat, capacity, Replay(cat, log[..|log| - 1]), log[|log| - 1])
  }

  // ---------------------------------------------------------------- conservation

  function Unused(unused: map<nat, bool>): set<nat> { set p | p in unused && unused[p] }

  /** Prefetched pages that are resident and were never demanded. */
  ghost function Pending(cat: Catalogue, unused: map<nat, bool>): Tally {
    Tally(|Unused(unused)|, Total(Unused(unused), Logical(cat)))
  }

  /** Pages enter by a demand miss that was not bypassed, or by an admitted prefetch. */
  predicate Entered(admissions: nat, demanded: int, prefetched: nat) { admissions == demanded + prefetched }

  /** Identities between counters alone. */
  predicate Flow(m: Metrics) {
    && Parts(m.demand, m.ordinaryHits, m.usefulHits, m.misses)
    && m.demandLoad == m.misses.bytes
    && m.usefulHits == m.useful
    && Parts(m.offered, m.admitted, m.redundant, m.dropped)
    && m.bypasses <= m.misses.count
    && Entered(m.admissions, m.misses.count - m.bypasses, m.admitted.count)
  }

  /** What ties the counters to the resident pages. */
  ghost predicate Held(cat: Catalogue, b: Books) {
    && Parts(b.m.admitted, b.m.useful, b.m.wasted, Pending(cat, b.unused))
    && b.m.admissions == b.m.evictions.count + |b.unused.Keys|
    && b.resident == Total(b.unused.Keys, Charge(cat))
    && b.resident <= b.m.peakBytes
  }

  lemma PendingWithout(cat: Catalogue, unused: map<nat, bool>, page: nat)
    requires page in unused
    ensures
      var rest := Pending(cat, Dropped(unused, page));
      Pending(cat, unused) == if unused[page] then Plus(rest, cat(page).logical) else rest
  {
    hide Total;
    assert Unused(Dropped(unused, page)) == Unused(unused) - {page};
    if unused[page] {
      TotalRemove(Unused(unused), Logical(cat), page);
    } else {
      assert Unused(Dropped(unused, page)) == Unused(unused);
    }
  }

  lemma EvictedHeld(cat: Catalogue, b: Books, page: nat)
    requires Held(cat, b) && page in b.unused
    ensures Held(cat, Evicted(cat, b, page))
  {
    hide Total, Pending;
    var c := Evicted(cat, b, page);
    PendingWithout(cat, b.unused, page);
    assert c.unused.Keys == b.unused.Keys - {page};
    TotalRemove(b.unused.Keys, Charge(cat), page);
  }

  lemma {:induction false} EvictedAllHeld(cat: Catalogue, b: Books, victims: seq<nat>)
    requires Held(cat, b) && Evictable(cat, b, victims)
    ensures Held(cat, EvictedAll(cat, b, victims))
  {
    if victims != [] {
      EvictedAllHeld(cat, b, victims[..|victims| - 1]);
      EvictedHeld(cat, EvictedAll(cat, b, victims[..|victims| - 1]), victims[|victims| - 1]);
    }
  }

  /** Evictions touch two counters, remove pages and never raise the ledger. */
  lemma {:induction false} EvictedAllFrame(cat: Catalogue, b: Books, victims: seq<nat>)
    ensures
      var c := EvictedAll(cat, b, victims);
      && c.m == b.m.(wasted := c.m.wasted, evictions := c.m.evictions)
      && c.unused.Keys <= b.unused.Keys && c.resident <= b.resident
  {
    if victims != [] { EvictedAllFrame(cat, b, victims[..|victims| - 1]); }
  }

  /** What becomes of the pages does not depend on the counters. */
  lemma {:induction false} EvictedAllMetrics(cat: Catalogue, b: Books, m: Metrics, victims: seq<nat>)
    ensures EvictedAll(cat, b.(m := m), victims).unused == EvictedAll(cat, b, victims).unused
    ensures EvictedAll(cat, b.(m := m), victims).resident == EvictedAll(cat, b, victims).resident
  {
    if victims != [] { EvictedAllMetrics(cat, b, m, victims[..|victims| - 1]); }
  }

  lemma {:induction false} EvictableMetrics(cat: Catalogue, b: Books, m: Metrics, victims: seq<nat>)
    ensures Evictable(cat, b.(m := m), victims) <==> Evictable(cat, b, victims)
  {
    if victims != [] {
      EvictableMetrics(cat, b, m, victims[..|victims| - 1]);
      EvictedAllMetrics(cat, b, m, victims[..|victims| - 1]);
    }
  }

  lemma PendingInsert(cat: Catalogue, unused: map<nat, bool>, page: nat)
    requires page !in unused
    ensures Pending(cat, unused[page := false]) == Pending(cat, unused)
    ensures Pending(cat, unused[page := true]) == Plus(Pending(cat, unused), cat(page).logical)
  {
    hide Total;
    assert Unused(unused[page := false]) == Unused(unused);
    assert Unused(unused[page := true]) == Unused(unused) + {page};
    TotalAdd(Unused(unused), Logical(cat), page);
  }

  lemma InsertedHeld(cat: Catalogue, b: Books, page: nat)
    requires Held(cat, b) && page !in b.unused
    ensures Held(cat, Inserted(cat, b, page, false)) && Held(cat, Prefetched(cat, b, page))
  {
    hide Total, Pending;
    assert b.unused[page := false].Keys == b.unused.Keys + {page} == b.unused[page := true].Keys;
    TotalAdd(b.unused.Keys, Charge(cat), page);
    PendingInsert(cat, b.unused, page);
  }

  lemma {:induction false} PrefetchedAllHeld(cat: Catalogue, b: Books, pages: seq<nat>)
    requires Held(cat, b) && Distinct(pages) && forall p | p in pages :: p !in b.unused
    ensures Held(cat, PrefetchedAll(cat, b, pages))
    ensures forall p | p in PrefetchedAll(cat, b, pages).unused :: p in b.unused || p in pages
  {
    if pages != [] {
      var prior := pages[..|pages| - 1];
      PrefetchedAllHeld(cat, b, prior);
      InsertedHeld(cat, PrefetchedAll(cat, b, prior), pages[|pages| - 1]);
    }
  }

  lemma {:induction false} PrefetchedAllFrame(cat: Catalogue, b: Books, pages: seq<nat>)
    ensures
      var c := PrefetchedAll(cat, b, pages);
      && c.m == b.m.(peakBytes := c.m.peakBytes, admissions := b.m.admissions + |pages|,
                     admitted := PlusAll(b.m.admitted, pages, Logical(cat)))
      && b.resident <= c.resident
      && (pages != [] ==> c.m.peakBytes == Max(b.m.peakBytes, c.resident))
      && (pages == [] ==> c == b)
  {
    if pages != [] { PrefetchedAllFrame(cat, b, pages[..|pages| - 1]); }
  }

  /** Every offered page is either resident or absent, and counted once. */
  lemma {:induction false} OfferSplits(b: Books, pages: seq<nat>, w: nat -> nat)
    ensures |pages| == |Where(b, pages, true)| + |Where(b, pages, false)|
    ensures Sum(pages, w) == Sum(Where(b, pages, true), w) + Sum(Where(b, pages, false), w)
  {
    if pages != [] {
      var last := pages[|pages| - 1];
      var prior := pages[..|pages| - 1];
      OfferSplits(b, prior, w);
      var grown := Where(b, prior, last in b.unused);
      assert (grown + [last])[..|grown|] == grown;
    }
  }

  lemma {:induction false} WhereDistinct(b: Books, pages: seq<nat>, resident: bool)
    requires Distinct(pages)
    ensures Distinct(Where(b, pages, resident))
  {
    if pages != [] {
      var last := pages[|pages| - 1];
      WhereDistinct(b, pages[..|pages| - 1], resident);
      assert last !in pages[..|pages| - 1];
    }
  }

  /** The accounts balance. */
  ghost predicate Balanced(cat: Catalogue, capacity: nat, b: Books) {
    Held(cat, b) && Flow(b.m) && b.m.peakBytes <= capacity
  }

  lemma EventConserves(cat: Catalogue, capacity: nat, b: Books, r: Record)
    requires r.Event? && Balanced(cat, capacity, b) && Legal(cat, capacity, b, r)
    ensures Balanced(cat, capacity, Post(cat, b, r))
  {
    hide Total;
    match r.kind
    case UsefulHit => HitHeld(cat, b, r.page.value);
    case MissAdmit => AdmitConserves(cat, capacity, b, r.page.value, r.victims);
    case _ =>
  }

  lemma AdmitConserves(cat: Catalogue, capacity: nat, b: Books, page: nat, victims: seq<nat>)
    requires Balanced(cat, capacity, b) && page !in b.unused && Evictable(cat, b, victims)
    requires Inserted(cat, EvictedAll(cat, b.(m := Missed(cat, b.m, page)), victims), page, false).resident <= capacity
    ensures Balanced(cat, capacity,
                     Inserted(cat, EvictedAll(cat, b.(m := Missed(cat, b.m, page)), victims), page, false))
  {
    hide Total, EvictedAll, Evictable;
    var c := b.(m := Missed(cat, b.m, page));
    EvictableMetrics(cat, b, c.m, victims);
    EvictedAllHeld(cat, c, victims);
    EvictedAllFrame(cat, c, victims);
    InsertedHeld(cat, EvictedAll(cat, c, victims), page);
  }

  /** The first demand of a prefetched page moves it from pending to useful. */
  lemma HitHeld(cat: Catalogue, b: Books, page: nat)
    requires Held(cat, b) && page in b.unused && b.unused[page]
    ensures Held(cat, HitBy(cat, b, page, true))
  {
    var c := HitBy(cat, b, page, true);
    hide Total;
    assert c.unused.Keys == b.unused.Keys;
    assert Unused(c.unused) == Unused(b.unused) - {page};
    TotalRemove(Unused(b.unused), Logical(cat), page);
  }

  lemma PrefetchConserves(cat: Catalogue, capacity: nat, b: Books, r: Record)
    requires r.Prefetch? && Balanced(cat, capacity, b) && Legal(cat, capacity, b, r)
    ensures Balanced(cat, capacity, Post(cat, b, r))
  {
    hide Total, EvictedAll, Evictable, PrefetchedAll, Where, Sum;
    var c := Offered(cat, b, r.offered);
    OfferSplits(b, r.offered, Logical(cat));
    match r.move
    case Redundant => NothingMoves(cat);
    case Admit =>
      WhereDistinct(b, r.offered, false);
      GroupConserves(cat, capacity, b, c, r);
    case _ =>
  }

  lemma NothingMoves(cat: Catalogue)
    ensures Sum([], Logical(cat)) == 0
  {}

  lemma GroupConserves(cat: Catalogue, capacity: nat, b: Books, c: Books, r: Record)
    requires r.Prefetch? && r.move.Admit? && Balanced(cat, capacity, b) && c == b.(m := c.m)
    requires r.moved != [] && Distinct(r.moved) && forall p | p in r.moved :: p !in b.unused
    requires c.m == b.m.(offered := c.m.offered, redundant := c.m.redundant)
    requires Parts(c.m.offered, PlusAll(b.m.admitted, r.moved, Logical(cat)), c.m.redundant, b.m.dropped)
    requires Evictable(cat, b, r.victims)
    requires PrefetchedAll(cat, EvictedAll(cat, c, r.victims), r.moved).resident <= capacity
    ensures Balanced(cat, capacity, PrefetchedAll(cat, EvictedAll(cat, c, r.victims), r.moved))
  {
    hide Total, EvictedAll, Evictable, PrefetchedAll, Sum;
    EvictableMetrics(cat, b, c.m, r.victims);
    EvictedAllHeld(cat, c, r.victims);
    EvictedAllFrame(cat, c, r.victims);
    PrefetchedAllHeld(cat, EvictedAll(cat, c, r.victims), r.moved);
    PrefetchedAllFrame(cat, EvictedAll(cat, c, r.victims), r.moved);
  }

  /** Over every legal log: no demand, offer, admission or prefetched byte is lost or counted
      twice, the ledger is the total charge of the residents, and it never passed capacity. */
  lemma {:induction false} ReplayConserves(cat: Catalogue, capacity: nat, log: seq<Record>)
    requires LegalRun(cat, capacity, log)
    ensures Balanced(cat, capacity, Replay(cat, log))
  {
    if log == [] {
      NothingYet(cat, capacity, Replay(cat, log));
    } else {
      hide Post, Legal, Balanced;
      var prior, r := log[..|log| - 1], log[|log| - 1];
      ReplayConserves(cat, capacity, prior);
      if r.Event? {
        EventConserves(cat, capacity, Replay(cat, prior), r);
      } else {
        PrefetchConserves(cat, capacity, Replay(cat, prior), r);
      }
    }
  }

  lemma NothingYet(cat: Catalogue, capacity: nat, b: Books)
    requires b == Opening()
    ensures Balanced(cat, capacity, b)
  {
    NothingFlows(b.m, Tally(0, 0));
    NothingHeld(cat, b);
  }

  lemma NothingFlows(m: Metrics, none: Tally)
    requires m == Untouched(none) && none.count == 0 && none.bytes == 0
    ensures Flow(m)
  {
    assert Entered(0, 0, 0);
  }

  lemma NothingHeld(cat: Catalogue, b: Books)
    requires b == Opening()
    ensures Held(cat, b)
  {
    hide Pending, Total, Untouched;
    NothingPending(cat);
    TotalNone<nat>(Charge(cat));
    assert b.unused == map[] && b.unused.Keys == {};
    NoneHeld(cat, b, Tally(0, 0));
  }

  lemma NoneHeld(cat: Catalogue, b: Books, none: Tally)
    requires none.count == 0 && none.bytes == 0 && b.m == Untouched(none) && b.unused == map[] && b.resident == 0
    requires Pending(cat, b.unused) == none && Total(b.unused.Keys, Charge(cat)) == 0
    ensures Held(cat, b)
  {
    hide Pending, Total, Parts;
    NoneCounted(b.m, none);
  }

  lemma NoneCounted(m: Metrics, none: Tally)
    requires none.count == 0 && none.bytes == 0 && m == Untouched(none)
    ensures Parts(m.admitted, m.useful, m.wasted, none) && m.admissions == 0 && m.evictions == none && m.peakBytes == 0
  {}

  lemma NothingPending(cat: Catalogue)
    ensures Pending(cat, map[]) == Tally(0, 0)
  {
    assert Unused(map[]) == {};
    TotalNone<nat>(Logical(cat));
  }

  // ---------------------------------------------------------------- charges

  /** The charge a decision brings in. */
  function EnteringCharge(cat: Catalogue, r: Record): nat {
    match r
    case Event(_, kind, Some(page), _) => if kind.MissAdmit? then cat(page).charge else 0
    case Event(_, _, None, _) => 0
    case Prefetch(_, move, _, _, moved, _) => if move.Admit? then Sum(moved, Charge(cat)) else 0
  }

  function EnteringCharges(cat: Catalogue, log: seq<Record>): nat {
    if log == [] then 0 else EnteringCharges(cat, log[..|log| - 1]) + EnteringCharge(cat, log[|log| - 1])
  }

  function Carried(b: Books): int { b.resident + b.m.evictions.bytes }

  lemma {:induction false} EvictionCarries(cat: Catalogue, b: Books, victims: seq<nat>)
    ensures Carried(EvictedAll(cat, b, victims)) == Carried(b)
  {
    if victims != [] { EvictionCarries(cat, b, victims[..|victims| - 1]); }
  }

  lemma {:induction false} PrefetchCarries(cat: Catalogue, b: Books, pages: seq<nat>)
    ensures Carried(PrefetchedAll(cat, b, pages)) == Carried(b) + Sum(pages, Charge(cat))
  {
    if pages != [] { PrefetchCarries(cat, b, pages[..|pages| - 1]); }
  }

  lemma PostCarries(cat: Catalogue, b: Books, r: Record)
    ensures Carried(Post(cat, b, r)) == Carried(b) + EnteringCharge(cat, r)
  {
    hide EvictedAll, PrefetchedAll, Sum;
    match r
    case Event(_, kind, page, victims) =>
      if page.Some? { EvictionCarries(cat, b.(m := Missed(cat, b.m, page.value)), victims); }
    case Prefetch(_, move, offered, _, moved, victims) =>
      var c := Offered(cat, b, offered);
      EvictionCarries(cat, c, victims);
      PrefetchCarries(cat, EvictedAll(cat, c, victims), moved);
  }

  /** Every byte of charge that entered is either still resident or was counted as evicted. */
  lemma {:induction false} ChargesConserved(cat: Catalogue, log: seq<Record>)
    ensures Replay(cat, log).resident + Replay(cat, log).m.evictions.bytes == EnteringCharges(cat, log)
  {
    if log != [] {
      hide Post, EnteringCharge;
      ChargesConserved(cat, log[..|log| - 1]);
      PostCarries(cat, Replay(cat, log[..|log| - 1]), log[|log| - 1]);
    }
  }

  // ---------------------------------------------------------------- uniform geometry

  ghost predicate Uniform(cat: Catalogue, size: nat) { forall p :: cat(p) == Page(size, size) }

  predicate Scaled(t: Tally, size: nat) { t.bytes == t.count * size }

  /** Every byte counter is its event counter times the page size. */
  predicate Flat(m: Metrics, size: nat) {
    && Scaled(m.demand, size) && Scaled(m.ordinaryHits, size) && Scaled(m.usefulHits, size) && Scaled(m.misses, size)
    && Scaled(m.offered, size) && Scaled(m.admitted, size) && Scaled(m.useful, size) && Scaled(m.wasted, size)
    && Scaled(m.redundant, size) && Scaled(m.dropped, size) && Scaled(m.evictions, size)
  }

  lemma PlusScaled(t: Tally, size: nat)
    requires Scaled(t, size)
    ensures Scaled(Plus(t, size), size)
  {
    Distribute(t.count, 1, size);
  }

  lemma Distribute(a: nat, b: nat, size: nat)
    ensures (a + b) * size == a * size + b * size
  {}

  lemma {:induction false} SumScaled(cat: Catalogue, pages: seq<nat>, size: nat)
    requires Uniform(cat, size)
    ensures Sum(pages, Logical(cat)) == |pages| * size
  {
    if pages != [] {
      SumScaled(cat, pages[..|pages| - 1], size);
      Distribute(|pages| - 1, 1, size);
    }
  }

  lemma PlusAllScaled(cat: Catalogue, t: Tally, pages: seq<nat>, size: nat)
    requires Uniform(cat, size) && Scaled(t, size)
    ensures Scaled(PlusAll(t, pages, Logical(cat)), size)
  {
    SumScaled(cat, pages, size);
    Distribute(t.count, |pages|, size);
  }

  lemma {:induction false} EvictedAllFlat(cat: Catalogue, b: Books, victims: seq<nat>, size: nat)
    requires Uniform(cat, size) && Flat(b.m, size)
    ensures Flat(EvictedAll(cat, b, victims).m, size)
  {
    if victims != [] {
      var prior := EvictedAll(cat, b, victims[..|victims| - 1]);
      EvictedAllFlat(cat, b, victims[..|victims| - 1], size);
      PlusScaled(prior.m.evictions, size);
      PlusScaled(prior.m.wasted, size);
    }
  }

  lemma PostFlat(cat: Catalogue, b: Books, r: Record, size: nat)
    requires Uniform(cat, size) && Flat(b.m, size)
    ensures Flat(Post(cat, b, r).m, size)
  {
    PlusScaled(b.m.demand, size);
    PlusScaled(b.m.ordinaryHits, size);
    PlusScaled(b.m.usefulHits, size);
    PlusScaled(b.m.useful, size);
    PlusScaled(b.m.misses, size);
    match r
    case Event(_, kind, page, victims) =>
      if page.Some? && kind.MissAdmit? { EvictedAllFlat(cat, b.(m := Missed(cat, b.m, page.value)), victims, size); }
    case Prefetch(_, move, offered, _, moved, victims) => OfferFlat(cat, b, r, size);
  }

  lemma OfferFlat(cat: Catalogue, b: Books, r: Record, size: nat)
    requires r.Prefetch? && Uniform(cat, size) && Flat(b.m, size)
    ensures Flat(Post(cat, b, r).m, size)
  {
    var c := Offered(cat, b, r.offered);
    PlusAllScaled(cat, b.m.offered, r.offered, size);
    PlusAllScaled(cat, b.m.redundant, Where(b, r.offered, true), size);
    PlusAllScaled(cat, c.m.dropped, r.moved, size);
    if r.move.Admit? {
      EvictedAllFlat(cat, c, r.victims, size);
      var d := EvictedAll(cat, c, r.victims);
      PrefetchedAllFrame(cat, d, r.moved);
      PlusAllScaled(cat, d.m.admitted, r.moved, size);
    }
  }

  /** With one page size every byte counter is a multiple of its event counter, and what is
      resident is what was admitted and not evicted. */
  lemma UniformReplay(cat: Catalogue, capacity: nat, log: seq<Record>, size: nat)
    requires LegalRun(cat, capacity, log) && Uniform(cat, size)
    ensures
      var b := Replay(cat, log);
      && Flat(b.m, size) && b.m.evictions.count <= b.m.admissions
      && b.resident == (b.m.admissions - b.m.evictions.count) * size
  {
    hide Replay, LegalRun, Flat, Flow, Total;
    ReplayFlat(cat, log, size);
    ReplayConserves(cat, capacity, log);
    var b := Replay(cat, log);
    TotalUniform(b.unused.Keys, Charge(cat), size);
  }

  lemma {:induction false} ReplayFlat(cat: Catalogue, log: seq<Record>, size: nat)
    requires Uniform(cat, size)
    ensures Flat(Replay(cat, log).m, size)
  {
    if log != [] {
      ReplayFlat(cat, log[..|log| - 1], size);
      PostFlat(cat, Replay(cat, log[..|log| - 1]), log[|log| - 1], size);
    }
  }

  predicate Multiple(n: nat, size: nat)
    requires size > 0
  {
    n % size == 0
  }

  /** The peak is always some ledger value, hence page-aligned. */
  lemma {:induction false} PeakAligned(cat: Catalogue, capacity: nat, log: seq<Record>, size: nat)
    requires LegalRun(cat, capacity, log) && Uniform(cat, size) && size > 0
    ensures Multiple(Replay(cat, log).m.peakBytes, size)
  {
    if log != [] {
      var prior, r := log[..|log| - 1], log[|log| - 1];
      hide Post, Legal;
      PeakAligned(cat, capacity, prior, size);
      PeakMoves(cat, Replay(cat, prior), r);
      LedgerAligned(cat, capacity, log, size);
    }
  }

  lemma LedgerAligned(cat: Catalogue, capacity: nat, log: seq<Record>, size: nat)
    requires LegalRun(cat, capacity, log) && Uniform(cat, size) && size > 0
    ensures Replay(cat, log).resident >= 0 && Multiple(Replay(cat, log).resident, size)
  {
    hide Replay, LegalRun, Flat;
    UniformReplay(cat, capacity, log, size);
    var b := Replay(cat, log);
    Aligned(b.m.admissions - b.m.evictions.count, size, b.resident);
  }

  lemma Aligned(n: nat, size: nat, product: int)
    requires size > 0 && product == n * size
    ensures product >= 0 && Multiple(product, size)
  {
    var q, m := product / size, product % size;
    assert product == q * size + m;
    if q < n { Below(q, n, size); }
    if n < q { Below(n, q, size); }
  }

  lemma Below(a: nat, b: nat, size: nat)
    requires a < b
    ensures a * size + size <= b * size
  {
    Distribute(a + 1, b - a - 1, size);
    Distribute(a, 1, size);
  }

  /** A record leaves the peak alone or raises it to the ledger it leaves behind. */
  lemma PeakMoves(cat: Catalogue, b: Books, r: Record)
    ensures
      var c := Post(cat, b, r);
      c.m.peakBytes == b.m.peakBytes || c.m.peakBytes == c.resident
  {
    match r
    case Event(_, kind, page, victims) =>
      if page.Some? && kind.MissAdmit? { EvictedAllFrame(cat, b.(m := Missed(cat, b.m, page.value)), victims); }
    case Prefetch(_, move, offered, _, moved, victims) =>
      var c := Offered(cat, b, offered);
      EvictedAllFrame(cat, c, victims);
      PrefetchedAllFrame(cat, EvictedAll(cat, c, victims), moved);
  }
}
