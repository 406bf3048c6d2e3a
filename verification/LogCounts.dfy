/** The accounts of a legal decision log, read off its records: every counter is a tally of the pages the
    records name, the residents are the pages that entered and did not leave since, and the peak is
    the highest ledger. */
module LogCounts {
  import opened Accounting
  import opened DecisionLog

  // ---------------------------------------------------------------- what a record names

  predicate IsMiss(d: Record) { d.Event? && (d.kind.MissBypass? || d.kind.MissAdmit?) }

  function PageOf(d: Record): seq<nat> { if d.Event? && d.page.Some? then [d.page.value] else [] }

  function Hits(d: Record): seq<nat> { if d.Event? && d.kind.Hit? then PageOf(d) else [] }

  function FirstUses(d: Record): seq<nat> { if d.Event? && d.kind.UsefulHit? then PageOf(d) else [] }

  function Misses(d: Record): seq<nat> { if IsMiss(d) then PageOf(d) else [] }

  function Bypasses(d: Record): seq<nat> { if d.Event? && d.kind.MissBypass? then PageOf(d) else [] }

  function Demands(d: Record): seq<nat> {
    if d.Event? && (d.kind.Hit? || d.kind.UsefulHit? || IsMiss(d)) then PageOf(d) else []
  }

  function Offers(d: Record): seq<nat> { if d.Prefetch? then d.offered else [] }

  function Repeats(d: Record): seq<nat> { if d.Prefetch? then d.redundant else [] }

  function Admits(d: Record): seq<nat> { if d.Prefetch? && d.move.Admit? then d.moved else [] }

  function Drops(d: Record): seq<nat> {
    if d.Prefetch? && (d.move.DropPages? || d.move.DropBytes? || d.move.DropAdmission?) then d.moved else []
  }

  /** Pages that a record makes resident: the missed page of an admission, or an admitted group. */
  function Entering(d: Record): seq<nat> { if d.Event? && d.kind.MissAdmit? then PageOf(d) else Admits(d) }

  function Leaving(d: Record): seq<nat> { d.victims }

  /** The pages that the records name, counted and weighed. */
  function Tallied(log: seq<Record>, named: Record -> seq<nat>, w: nat -> nat): Tally {
    if log == [] then Tally(0, 0)
    else PlusAll(Tallied(log[..|log| - 1], named, w), named(log[|log| - 1]), w)
  }

  // ---------------------------------------------------------------- counters

  /** One record's part in every counter. */
  ghost predicate Counts(cat: Catalogue, before: Metrics, after: Metrics, d: Record) {
    var size := Logical(cat);
    && after.demand == PlusAll(before.demand, Demands(d), size)
    && after.ordinaryHits == PlusAll(before.ordinaryHits, Hits(d), size)
    && after.usefulHits == PlusAll(before.usefulHits, FirstUses(d), size)
    && after.misses == PlusAll(before.misses, Misses(d), size)
    && after.offered == PlusAll(before.offered, Offers(d), size)
    && after.redundant == PlusAll(before.redundant, Repeats(d), size)
    && after.admitted == PlusAll(before.admitted, Admits(d), size)
    && after.dropped == PlusAll(before.dropped, Drops(d), size)
    && after.evictions == PlusAll(before.evictions, Leaving(d), Charge(cat))
    && after.admissions == before.admissions + |Entering(d)|
    && after.bypasses == before.bypasses + |Bypasses(d)|
  }

  lemma PlusOne(t: Tally, page: nat, w: nat -> nat)
    ensures PlusAll(t, [page], w) == Plus(t, w(page)) && PlusAll(t, [], w) == t
  {
    assert [page][..|[page]| - 1] == [];
    assert Sum([page], w) == w(page);
  }

  lemma {:induction false} EvictionsAdd(cat: Catalogue, b: Books, victims: seq<nat>)
    requires Evictable(cat, b, victims)
    ensures EvictedAll(cat, b, victims).m.evictions == PlusAll(b.m.evictions, victims, Charge(cat))
  {
    if victims != [] { EvictionsAdd(cat, b, victims[..|victims| - 1]); }
  }

  lemma EventCounts(cat: Catalogue, capacity: nat, b: Books, d: Record)
    requires d.Event? && Legal(cat, capacity, b, d)
    ensures Counts(cat, b.m, Post(cat, b, d).m, d)
  {
    hide EvictedAll, Evictable, Sum;
    var size := Logical(cat);
    if d.page.Some? {
      var p := d.page.value;
      forall t ensures PlusAll(t, [p], size) == Plus(t, size(p)) && PlusAll(t, [], size) == t {
        PlusOne(t, p, size);
      }
      forall t ensures PlusAll(t, [], Charge(cat)) == t {
        PlusOne(t, p, Charge(cat));
      }
      if d.kind.MissAdmit? {
        var c := b.(m := Missed(cat, b.m, p));
        EvictedAllFrame(cat, c, d.victims);
        EvictableMetrics(cat, b, Missed(cat, b.m, p), d.victims);
        EvictionsAdd(cat, c, d.victims);
      }
    } else {
      NothingAdded(cat);
    }
  }

  lemma NothingAdded(cat: Catalogue)
    ensures forall t :: PlusAll(t, [], Logical(cat)) == t && PlusAll(t, [], Charge(cat)) == t
  {}

  lemma PrefetchCounts(cat: Catalogue, capacity: nat, b: Books, d: Record)
    requires d.Prefetch? && Legal(cat, capacity, b, d)
    ensures Counts(cat, b.m, Post(cat, b, d).m, d)
  {
    hide EvictedAll, Evictable, Sum, PrefetchedAll, Where;
    NothingAdded(cat);
    var c := Offered(cat, b, d.offered);
    if d.move.Admit? {
      EvictedAllFrame(cat, c, d.victims);
      EvictableMetrics(cat, b, c.m, d.victims);
      EvictionsAdd(cat, c, d.victims);
      PrefetchedAllFrame(cat, EvictedAll(cat, c, d.victims), d.moved);
    }
  }

  /** Every counter of a legal log is the tally of what its records name. */
  ghost predicate Tallies(cat: Catalogue, m: Metrics, log: seq<Record>) {
    var size := Logical(cat);
    && m.demand == Tallied(log, Demands, size) && m.ordinaryHits == Tallied(log, Hits, size)
    && m.usefulHits == Tallied(log, FirstUses, size) && m.misses == Tallied(log, Misses, size)
    && m.offered == Tallied(log, Offers, size) && m.redundant == Tallied(log, Repeats, size)
    && m.admitted == Tallied(log, Admits, size) && m.dropped == Tallied(log, Drops, size)
    && m.evictions == Tallied(log, Leaving, Charge(cat)) && m.admissions == Tallied(log, Entering, size).count
    && m.bypasses == Tallied(log, Bypasses, size).count
  }

  lemma {:induction false} CountersTell(cat: Catalogue, capacity: nat, log: seq<Record>)
    requires LegalRun(cat, capacity, log)
    ensures Tallies(cat, Replay(cat, log).m, log)
  {
    if log != [] {
      hide Post, Legal, PlusAll, Demands, Hits, FirstUses, Misses, Offers, Repeats, Admits, Drops, Entering, Bypasses;
      var prior, d := log[..|log| - 1], log[|log| - 1];
      CountersTell(cat, capacity, prior);
      if d.Event? {
        EventCounts(cat, capacity, Replay(cat, prior), d);
      } else {
        PrefetchCounts(cat, capacity, Replay(cat, prior), d);
      }
      CountsAdd(Tallied(prior, Entering, Logical(cat)), Entering(d), Logical(cat));
      CountsAdd(Tallied(prior, Bypasses, Logical(cat)), Bypasses(d), Logical(cat));
    }
  }

  lemma CountsAdd(t: Tally, pages: seq<nat>, w: nat -> nat)
    ensures PlusAll(t, pages, w).count == t.count + |pages|
  {}

  // ---------------------------------------------------------------- residents

  /** The page entered with record `i` and has not left since. */
  ghost predicate EnteredAt(log: seq<Record>, page: nat, i: nat) {
    i < |log| && page in Entering(log[i]) && forall j | i < j < |log| :: page !in Leaving(log[j])
  }

  ghost predicate StillThere(log: seq<Record>, page: nat) { exists i :: EnteredAt(log, page, i) }

  lemma {:induction false} EvictedUnused(cat: Catalogue, b: Books, victims: seq<nat>, page: nat)
    ensures page in EvictedAll(cat, b, victims).unused <==> page in b.unused && page !in victims
  {
    if victims != [] { EvictedUnused(cat, b, victims[..|victims| - 1], page); }
  }

  lemma {:induction false} PrefetchedUnused(cat: Catalogue, b: Books, pages: seq<nat>, page: nat)
    ensures page in PrefetchedAll(cat, b, pages).unused <==> page in b.unused || page in pages
  {
    if pages != [] { PrefetchedUnused(cat, b, pages[..|pages| - 1], page); }
  }

  lemma PostResidents(cat: Catalogue, capacity: nat, b: Books, d: Record, page: nat)
    requires Legal(cat, capacity, b, d)
    ensures page in Post(cat, b, d).unused <==> page in Entering(d) || (page in b.unused && page !in Leaving(d))
  {
    hide EvictedAll, Evictable, PrefetchedAll, Sum, Where;
    match d
    case Event(_, kind, p, victims) =>
      if kind.MissAdmit? { EvictedUnused(cat, b.(m := Missed(cat, b.m, p.value)), victims, page); }
    case Prefetch(_, move, offered, _, moved, victims) =>
      if move.Admit? {
        var c := Offered(cat, b, offered);
        EvictedUnused(cat, c, victims, page);
        PrefetchedUnused(cat, EvictedAll(cat, c, victims), moved, page);
      }
  }

  /** A page is resident exactly when it entered and no record since names it as a victim. */
  lemma {:induction false} ResidentsTold(cat: Catalogue, capacity: nat, log: seq<Record>, page: nat)
    requires LegalRun(cat, capacity, log)
    ensures page in Replay(cat, log).unused <==> StillThere(log, page)
  {
    if log != [] {
      hide Post, Legal, Entering, Leaving;
      var n := |log| - 1;
      var prior := log[..n];
      ResidentsTold(cat, capacity, prior, page);
      PostResidents(cat, capacity, Replay(cat, prior), log[n], page);
      if page in Entering(log[n]) {
        assert EnteredAt(log, page, n);
      } else {
        if i: nat :| EnteredAt(prior, page, i) && page !in Leaving(log[n]) { assert EnteredAt(log, page, i); }
        if i: nat :| EnteredAt(log, page, i) { assert EnteredAt(prior, page, i); }
      }
    }
  }

  // ---------------------------------------------------------------- the peak

  /** The ledger after the first `n` records. */
  function LedgerAfter(cat: Catalogue, log: seq<Record>, n: nat): int
    requires n <= |log|
  {
    Replay(cat, log[..n]).resident
  }

  lemma PostPeak(cat: Catalogue, capacity: nat, b: Books, d: Record)
    requires Legal(cat, capacity, b, d) && b.resident <= b.m.peakBytes
    ensures Post(cat, b, d).m.peakBytes == Max(b.m.peakBytes, Post(cat, b, d).resident)
  {
    hide EvictedAll, Evictable, PrefetchedAll, Sum, Where;
    match d
    case Event(_, kind, p, victims) =>
      if kind.MissAdmit? { EvictedAllFrame(cat, b.(m := Missed(cat, b.m, p.value)), victims); }
    case Prefetch(_, move, offered, _, moved, victims) =>
      if move.Admit? {
        var c := Offered(cat, b, offered);
        EvictedAllFrame(cat, c, victims);
        PrefetchedAllFrame(cat, EvictedAll(cat, c, victims), moved);
      }
  }

  /** The peak is reached by the ledger of some prefix and passed by none. */
  lemma {:induction false} PeakIsHighest(cat: Catalogue, capacity: nat, log: seq<Record>)
    requires LegalRun(cat, capacity, log)
    ensures forall n | 0 <= n <= |log| :: LedgerAfter(cat, log, n) <= Replay(cat, log).m.peakBytes
    ensures exists n :: 0 <= n <= |log| && LedgerAfter(cat, log, n) == Replay(cat, log).m.peakBytes
  {
    if log == [] {
      assert LedgerAfter(cat, log, 0) == 0;
    } else {
      hide Post, Legal, LedgerAfter, Max;
      var k := |log| - 1;
      var prior := log[..k];
      PeakIsHighest(cat, capacity, prior);
      LedgerNow(cat, prior);
      LedgerNow(cat, log);
      PostPeak(cat, capacity, Replay(cat, prior), log[k]);
      HigherOf(Replay(cat, prior).m.peakBytes, Replay(cat, log).resident);
      forall n | 0 <= n <= k ensures LedgerAfter(cat, log, n) == LedgerAfter(cat, prior, n) {
        LedgerBefore(cat, log, k, n);
      }
      var m :| 0 <= m <= k && LedgerAfter(cat, prior, m) == Replay(cat, prior).m.peakBytes;
      assert LedgerAfter(cat, log, m) == Replay(cat, prior).m.peakBytes;
      assert LedgerAfter(cat, log, |log|) == Replay(cat, log).resident;
    }
  }

  lemma HigherOf(a: nat, b: int)
    ensures a <= Max(a, b) && b <= Max(a, b) && (Max(a, b) == a || Max(a, b) == b)
  {}

  lemma LedgerNow(cat: Catalogue, log: seq<Record>)
    ensures LedgerAfter(cat, log, |log|) == Replay(cat, log).resident
  {
    assert log[..|log|] == log;
  }

  lemma LedgerBefore(cat: Catalogue, log: seq<Record>, k: nat, n: nat)
    requires n <= k <= |log|
    ensures LedgerAfter(cat, log, n) == LedgerAfter(cat, log[..k], n)
  {
    assert log[..k][..n] == log[..n];
  }
}
