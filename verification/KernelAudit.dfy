/** What an outside auditor can rely on in a kernel report: the identities the experiment verifier
    recomputes, and that the digested stream fixes the whole report. */
module KernelAudit {
  import opened Common
  import opened Accounting
  import opened DecisionLog
  import opened Totals
  import opened Kernel
  import LogCounts

  /** The identities that hold for every catalogue. */
  predicate CountsAgree(m: Metrics, capacity: nat) {
    && Parts(m.demand, m.ordinaryHits, m.usefulHits, m.misses)
    && m.totalLoad == m.demandLoad + m.admitted.bytes
    && m.admitted.count == m.useful.count + m.wasted.count && m.admitted.bytes == m.useful.bytes + m.wasted.bytes
    && Parts(m.offered, m.admitted, m.redundant, m.dropped)
    && m.usefulHits == m.useful && m.demandLoad == m.misses.bytes
    && m.bypasses <= m.misses.count && Entered(m.admissions, m.misses.count - m.bypasses, m.admitted.count)
    && m.evictions.count <= m.admissions
    && m.finalBytes <= m.peakBytes <= capacity
  }

  /** The further identities for a catalogue of equal pages. */
  predicate BytesAgree(m: Metrics, size: nat)
    requires size > 0
  {
    && Flat(m, size) && m.evictions.count <= m.admissions
    && m.finalBytes == (m.admissions - m.evictions.count) * size
    && m.peakBytes % size == 0
  }

  /** Every report of a completed replay passes the general identities. */
  lemma ReportAgrees(cat: Catalogue, capacity: nat, log: seq<Record>, policy: Policy)
    requires LegalRun(cat, capacity, log)
    ensures CountsAgree(Reported(cat, Replay(cat, log), policy), capacity)
  {
    hide Replay, LegalRun, Total, Pending;
    ReplayConserves(cat, capacity, log);
  }

  /** Every counter of a report is the tally of the pages its decisions name. */
  lemma ReportTallies(cat: Catalogue, capacity: nat, log: seq<Record>, policy: Policy)
    requires LegalRun(cat, capacity, log)
    ensures
      var m := Reported(cat, Replay(cat, log), policy);
      && LogCounts.Tallies(cat, m, log) && m.useful == m.usefulHits && m.demandLoad == m.misses.bytes
      && m.finalBytes == LogCounts.LedgerAfter(cat, log, |log|)
  {
    hide Replay, LegalRun, Total, Pending, LogCounts.Tallied;
    LogCounts.CountersTell(cat, capacity, log);
    LogCounts.LedgerNow(cat, log);
    ReplayConserves(cat, capacity, log);
  }

  /** With equal pages every byte counter is its event counter times the page size, and the final
      residency is what was admitted and not evicted. */
  lemma UniformReportAgrees(cat: Catalogue, capacity: nat, log: seq<Record>, policy: Policy, size: nat)
    requires LegalRun(cat, capacity, log) && Uniform(cat, size) && size > 0
    ensures BytesAgree(Reported(cat, Replay(cat, log), policy), size)
  {
    hide Replay, LegalRun, Total, Pending;
    var b := Replay(cat, log);
    UniformReplay(cat, capacity, log, size);
    PeakAligned(cat, capacity, log, size);
    ReplayConserves(cat, capacity, log);
    PendingScaled(cat, b.unused, size);
    AddScaled(b.m.wasted, Pending(cat, b.unused), size);
  }

  lemma PendingScaled(cat: Catalogue, unused: map<nat, bool>, size: nat)
    requires Uniform(cat, size)
    ensures Scaled(Pending(cat, unused), size)
  {
    TotalUniform(Unused(unused), Logical(cat), size);
  }

  lemma AddScaled(a: Tally, b: Tally, size: nat)
    requires Scaled(a, size) && Scaled(b, size)
    ensures Scaled(Tally(a.count + b.count, a.bytes + b.bytes), size)
  {
    Distribute(a.count, b.count, size);
  }

  /** Without prefetch decisions no prefetch counter moves. */
  lemma {:induction false} NoPrefetchActivity(cat: Catalogue, capacity: nat, log: seq<Record>, policy: Policy)
    requires LegalRun(cat, capacity, log) && forall d | d in log :: d.Event?
    ensures
      var m := Reported(cat, Replay(cat, log), policy);
      && m.offered == Tally(0, 0) && m.admitted == Tally(0, 0) && m.useful == Tally(0, 0)
      && m.wasted == Tally(0, 0) && m.redundant == Tally(0, 0) && m.dropped == Tally(0, 0)
  {
    hide Replay, LegalRun, Total, Pending;
    NothingOffered(cat, log);
    ReportAgrees(cat, capacity, log, policy);
  }

  lemma {:induction false} NothingOffered(cat: Catalogue, log: seq<Record>)
    requires forall d | d in log :: d.Event?
    ensures Replay(cat, log).m.offered == Tally(0, 0)
  {
    if log != [] {
      var prior, r := log[..|log| - 1], log[|log| - 1];
      NothingOffered(cat, prior);
      assert r in log;
      EventOffersNothing(cat, Replay(cat, prior), r);
    }
  }

  lemma EventOffersNothing(cat: Catalogue, b: Books, r: Record)
    requires r.Event?
    ensures Post(cat, b, r).m.offered == b.m.offered
  {
    if r.page.Some? { EvictedAllFrame(cat, b.(m := Missed(cat, b.m, r.page.value)), r.victims); }
  }

  function DemandBytes(cat: Catalogue, demands: seq<(nat, nat)>): nat {
    if demands == [] then 0 else DemandBytes(cat, demands[..|demands| - 1]) + cat(demands[|demands| - 1].1).logical
  }

  /** The demand counters are the number and the bytes of the demands the log tells of. */
  lemma {:induction false} DemandsCounted(cat: Catalogue, capacity: nat, log: seq<Record>)
    requires LegalRun(cat, capacity, log)
    ensures Replay(cat, log).m.demand == Tally(|DemandsTold(log)|, DemandBytes(cat, DemandsTold(log)))
  {
    if log != [] {
      hide Post, Legal;
      var prior, r := log[..|log| - 1], log[|log| - 1];
      DemandsCounted(cat, capacity, prior);
      DemandStep(cat, capacity, Replay(cat, prior), r);
      var told := DemandsTold(prior);
      if r.Event? && r.page.Some? {
        assert (told + [(r.sequence, r.page.value)])[..|told|] == told;
      }
    }
  }

  lemma DemandStep(cat: Catalogue, capacity: nat, b: Books, r: Record)
    requires Legal(cat, capacity, b, r)
    ensures
      Post(cat, b, r).m.demand
      == if r.Event? && r.page.Some? then Plus(b.m.demand, cat(r.page.value).logical) else b.m.demand
  {
    hide EvictedAll, PrefetchedAll, Evictable, Where, Sum;
    if r.Event? {
      if r.page.Some? { EvictedAllFrame(cat, b.(m := Missed(cat, b.m, r.page.value)), r.victims); }
    } else {
      var c := Offered(cat, b, r.offered);
      EvictedAllFrame(cat, c, r.victims);
      PrefetchedAllFrame(cat, EvictedAll(cat, c, r.victims), r.moved);
    }
  }

  /** A completed replay's demand counters are those of the trace it replayed. */
  lemma TraceDemandsReported(cat: Catalogue, capacity: nat, log: seq<Record>, policy: Policy, events: seq<TraceEvent>)
    requires LegalRun(cat, capacity, log) && DemandsTold(log) == DemandsIn(events)
    ensures Reported(cat, Replay(cat, log), policy).demand
      == Tally(|DemandsIn(events)|, DemandBytes(cat, DemandsIn(events)))
  {
    hide Replay, LegalRun;
    DemandsCounted(cat, capacity, log);
  }

  // ---------------------------------------------------------------- the digested stream

  /** Distinct numbers below a bound are no more than the bound. */
  lemma {:induction false} DistinctBelow(s: seq<nat>, n: nat)
    requires Distinct(s) && forall p | p in s :: p < n
    ensures |s| <= n
    decreases n
  {
    if s != [] {
      assert s[0] in s;
      if n - 1 in s {
        var i :| 0 <= i < |s| && s[i] == n - 1;
        var rest := s[..i] + s[i + 1..];
        forall p | p in rest ensures p < n - 1 {
          assert p in s;
        }
        DistinctBelow(rest, n - 1);
      } else {
        DistinctBelow(s, n - 1);
      }
    }
  }

  lemma DistinctIds(pages: seq<nat>)
    requires Distinct(pages) && forall p | p in pages :: p <= MAX_U32
    ensures Ids(pages)
  {
    DistinctBelow(pages, MAX_U32 + 1);
    Widths();
  }

  lemma Widths()
    ensures Power(4) == MAX_U32 + 1 && Power(8) == MAX_U64 + 1
  {
    assert Power(1) == 256 && Power(2) == 0x1_0000 && Power(3) == 0x100_0000 && Power(4) == 0x1_0000_0000;
    assert Power(5) == 256 * Power(4) && Power(6) == 256 * Power(5) && Power(7) == 256 * Power(6);
  }

  /** Victims are distinct residents, and exactly they leave. */
  lemma {:induction false} VictimsLeave(cat: Catalogue, b: Books, victims: seq<nat>)
    requires Evictable(cat, b, victims)
    ensures Distinct(victims) && forall p | p in victims :: p in b.unused
    ensures EvictedAll(cat, b, victims).unused.Keys == b.unused.Keys - set p | p in victims
  {
    if victims != [] {
      var prior, last := victims[..|victims| - 1], victims[|victims| - 1];
      VictimsLeave(cat, b, prior);
      assert victims == prior + [last];
      assert (set p | p in victims) == (set p | p in prior) + {last};
    }
  }

  lemma {:induction false} FillsEnter(cat: Catalogue, b: Books, pages: seq<nat>)
    ensures PrefetchedAll(cat, b, pages).unused.Keys == b.unused.Keys + set p | p in pages
  {
    if pages != [] {
      var prior, last := pages[..|pages| - 1], pages[|pages| - 1];
      FillsEnter(cat, b, prior);
      assert pages == prior + [last];
      assert (set p | p in pages) == (set p | p in prior) + {last};
    }
  }

  /** Only pages a record names can become resident. */
  lemma ResidentsNamed(cat: Catalogue, capacity: nat, b: Books, r: Record, p: nat)
    requires Legal(cat, capacity, b, r) && p in Post(cat, b, r).unused && p !in b.unused
    ensures if r.Event? then r.page == Some(p) else p in r.offered
  {
    if r.Event? {
      if r.page.Some? { EvictedAllFrame(cat, b.(m := Missed(cat, b.m, r.page.value)), r.victims); }
    } else {
      var c := Offered(cat, b, r.offered);
      EvictedAllFrame(cat, c, r.victims);
      FillsEnter(cat, EvictedAll(cat, c, r.victims), r.moved);
    }
  }

  lemma RecordFits(cat: Catalogue, capacity: nat, b: Books, r: Record)
    requires Legal(cat, capacity, b, r) && Sized(r) && forall p | p in b.unused :: p <= MAX_U32
    ensures Representable(r)
  {
    hide Ids, Power, Post, Evictable, Where;
    Widths();
    DistinctIds([]);
    if r.victims != [] {
      VictimsLeave(cat, b, r.victims);
      DistinctIds(r.victims);
    }
    if r.Prefetch? {
      DistinctIds(r.offered);
      WhereDistinct(b, r.offered, true);
      DistinctIds(r.redundant);
      WhereDistinct(b, r.offered, false);
      DistinctIds(r.moved);
    }
  }

  /** Every record of a legal log over the trace's own integer types can be encoded. */
  lemma {:induction false} RunFits(cat: Catalogue, capacity: nat, log: seq<Record>)
    requires LegalRun(cat, capacity, log) && forall r | r in log :: Sized(r)
    ensures (forall r | r in log :: Representable(r)) && forall p | p in Replay(cat, log).unused :: p <= MAX_U32
  {
    if log != [] {
      hide Post, Legal, Representable;
      var prior, r := log[..|log| - 1], log[|log| - 1];
      assert r in log && log == prior + [r];
      RunFits(cat, capacity, prior);
      var b := Replay(cat, prior);
      RecordFits(cat, capacity, b, r);
      forall p | p in Post(cat, b, r).unused ensures p <= MAX_U32 {
        if p !in b.unused { ResidentsNamed(cat, capacity, b, r, p); }
      }
    }
  }

  /** Two completed replays over one catalogue whose digested streams are equal took the same
      decisions, replayed the same demands and report the same counters, whatever policies,
      capacities, groups and traces they ran under; only the metadata figures are a policy's own. */
  lemma StreamFixesReport(cat: Catalogue, capacity: nat, p: Policy, experts: Experts, events: seq<TraceEvent>,
                          log: seq<Record>, report: Report, capacity': nat, q: Policy, experts': Experts,
                          events': seq<TraceEvent>, log': seq<Record>, report': Report)
    requires Completed(cat, capacity, p, experts, events, log, report) && Native(experts, events)
    requires Completed(cat, capacity', q, experts', events', log', report') && Native(experts', events')
    requires report.stream == report'.stream
    ensures log == log' && DemandsIn(events) == DemandsIn(events')
    ensures report'.metrics == report.metrics.(metadata := q.metadata, metadataLimit := q.metadataLimit)
  {
    hide LegalRun, Replay, EncodeAll, Native, Sized, Representable, Settled;
    RunFits(cat, capacity, log);
    RunFits(cat, capacity', log');
    StreamDetermines(log, log');
  }

  /** The decisions of a completed replay, and with them the demands of its trace in order, can be
      read back from the stream. */
  lemma StreamTellsDemands(cat: Catalogue, capacity: nat, policy: Policy, experts: Experts, events: seq<TraceEvent>,
                           log: seq<Record>, report: Report)
    requires Completed(cat, capacity, policy, experts, events, log, report) && Native(experts, events)
    ensures Decode(report.stream) == Some(log) && DemandsTold(Decode(report.stream).value) == DemandsIn(events)
  {
    hide LegalRun, Replay, EncodeAll, Native, Sized, Representable;
    RunFits(cat, capacity, log);
    DecodeEncode(log);
  }
}
