/** One event of the kernel's policies against the independent reference: the byte sketch and the
    nested signals track its sketch and scores, a hit leaves its entries, and a miss is answered with
    exactly its victims. */
module PolicyRefinement {
  import opened Common
  import opened Totals
  import A = Accounting
  import ByteSketch
  import K = Kernel
  import KernelAudit
  import M = CacheModel
  import P = OnlinePolicy
  import RouterSignals
  import S = CacheSimulator
  import Sorting
  import TinyLfu

  function SegmentOf(code: nat): M.Segment {
    if code == P.LRU then M.Lru else if code == P.PROBATION then M.Probation else M.Protected
  }

  function View(residents: P.Residents): M.Residents {
    map p | p in residents :: M.Resident(residents[p].lastTouch, SegmentOf(residents[p].segment))
  }

  /** Entries of catalogue pages, of their charge, in one of the three segments, demanded. */
  predicate Proper(pages: seq<M.Page>, residents: P.Residents) {
    forall p | p in residents ::
      && p < |pages| && residents[p].charge == pages[p].charge
      && residents[p].segment <= P.PROTECTED && !residents[p].unused
  }

  // ---------------------------------------------------------------- hits

  lemma ProtectedView(pages: seq<M.Page>, residents: P.Residents)
    requires Proper(pages, residents)
    ensures P.Protected(residents) == M.ProtectedPages(View(residents))
    ensures P.ProtectedBytes(residents) == M.Bytes(pages, M.ProtectedPages(View(residents)))
  {
    hide Total;
    assert P.Protected(residents) == M.ProtectedPages(View(residents));
    TotalAgree(P.Protected(residents), P.EntryCharge(residents), M.Charge(pages));
  }

  lemma OldestView(pages: seq<M.Page>, residents: P.Residents, oldest: nat)
    requires Proper(pages, residents) && P.IsOldest(residents, oldest)
    ensures
      var v := View(residents);
      && oldest in M.ProtectedPages(v)
      && (forall q | q in M.ProtectedPages(v) && q != oldest :: M.Older(v, oldest, q))
      && M.NotOlder(v, oldest) == M.ProtectedPages(v)
  {
    ProtectedView(pages, residents);
    var v := View(residents);
    forall q | q in M.ProtectedPages(v) && q != oldest ensures M.Older(v, oldest, q) && !M.Older(v, q, oldest) {
      assert P.Older(residents)(oldest, q);
    }
    assert !M.Older(v, oldest, oldest);
  }

  /** Demoting the oldest first leaves the others to be demoted. */
  lemma DemotedOn(pages: seq<M.Page>, v: M.Residents, oldest: nat, target: nat, touch: nat)
    requires oldest in M.ProtectedPages(v) && M.Bytes(pages, M.ProtectedPages(v)) > target
    requires forall q | q in M.ProtectedPages(v) && q != oldest :: M.Older(v, oldest, q)
    requires M.NotOlder(v, oldest) == M.ProtectedPages(v)
    ensures
      var next := v[oldest := M.Resident(touch, M.Probation)];
      M.Demoted(pages, next, target) == M.Demoted(pages, v, target) - {oldest} && oldest in M.Demoted(pages, v, target)
  {
    hide M.Bytes;
    var next := v[oldest := M.Resident(touch, M.Probation)];
    assert M.ProtectedPages(next) == M.ProtectedPages(v) - {oldest};
    forall p | p in M.ProtectedPages(next) ensures M.NotOlder(next, p) == M.NotOlder(v, p) {
      assert M.Older(v, oldest, p);
    }
  }

  lemma DemoteView(residents: P.Residents, oldest: nat, touch: nat)
    requires oldest in residents
    ensures View(P.Demote(residents, oldest, touch)) == View(residents)[oldest := M.Resident(touch, M.Probation)]
  {}

  lemma DemoteProper(pages: seq<M.Page>, residents: P.Residents, oldest: nat, touch: nat)
    requires Proper(pages, residents) && oldest in residents
    ensures Proper(pages, P.Demote(residents, oldest, touch))
  {}

  lemma RelabelledOn(v: M.Residents, oldest: nat, demoted: set<nat>, touch: nat)
    requires oldest in v && oldest in demoted
    ensures M.Relabelled(v[oldest := M.Resident(touch, M.Probation)], demoted - {oldest}, touch)
      == M.Relabelled(v, demoted, touch)
  {}

  /** The loop of demotions gives the entries the reference demotes at once. */
  lemma {:induction false} RebalancedView(pages: seq<M.Page>, residents: P.Residents, target: nat, touch: nat)
    requires Proper(pages, residents)
    ensures View(P.Rebalanced(residents, target, touch)) == M.Rebalanced(pages, View(residents), target, touch)
    ensures Proper(pages, P.Rebalanced(residents, target, touch))
    decreases |P.Protected(residents)|
  {
    hide View, Proper, M.Bytes, P.ProtectedBytes, P.Protected, P.Demote, P.IsOldest, M.ProtectedPages, M.NotOlder,
         M.Demoted, M.Relabelled;
    ProtectedView(pages, residents);
    var v := View(residents);
    if P.ProtectedBytes(residents) <= target {
      NoneDemoted(pages, v, target, touch);
    } else {
      P.SomeProtected(residents, target);
      var oldest := P.Oldest(residents);
      P.FewerProtected(residents, oldest, touch);
      OldestView(pages, residents, oldest);
      DemoteView(residents, oldest, touch);
      DemoteProper(pages, residents, oldest, touch);
      DemotedOn(pages, v, oldest, target, touch);
      ViewHas(residents, oldest);
      RelabelledOn(v, oldest, M.Demoted(pages, v, target), touch);
      RebalancedView(pages, P.Demote(residents, oldest, touch), target, touch);
    }
  }

  lemma ViewHas(residents: P.Residents, p: nat)
    ensures p in View(residents) <==> p in residents
  {}

  lemma NoneDemoted(pages: seq<M.Page>, v: M.Residents, target: nat, touch: nat)
    requires M.Bytes(pages, M.ProtectedPages(v)) <= target
    ensures M.Rebalanced(pages, v, target, touch) == v
  {
    forall p | p in M.ProtectedPages(v) ensures M.Bytes(pages, M.NotOlder(v, p)) <= target {
      TotalMonotone(M.NotOlder(v, p), M.ProtectedPages(v), M.Charge(pages));
    }
    assert M.Demoted(pages, v, target) == {};
  }

  /** A hit leaves the entries of the reference. */
  lemma AfterHitView(cfg: M.Config, pages: seq<M.Page>, target: Option<nat>, residents: P.Residents, page: nat,
                     touch: nat)
    requires Proper(pages, residents) && page in residents
    requires target == if cfg.Segmented() then Some(cfg.Target()) else None
    ensures page < |pages| && Proper(pages, P.AfterHit(target, residents, page, touch))
    ensures View(P.AfterHit(target, residents, page, touch)) == M.AfterHit(cfg, pages, View(residents), page, touch)
  {
    hide P.Rebalanced, M.Rebalanced;
    var entry := residents[page].(lastTouch := touch);
    if P.Promotes(target, entry) {
      var promoted := residents[page := entry.(segment := P.PROTECTED)];
      assert View(promoted) == View(residents)[page := M.Resident(touch, M.Protected)];
      RebalancedView(pages, promoted, target.value, touch);
    }
  }

  // ---------------------------------------------------------------- the policy's state

  predicate SmallScores(active: RouterSignals.Active) {
    forall request, key, expert |
      request in active && key in active[request] && expert in active[request][key] ::
      active[request][key][expert] <= P.PPM
  }

  /** The policy's own state against the sketch and scores of the reference. */
  ghost predicate Tracks(cfg: M.Config, ps: P.State, s: M.State) {
    match ps
    case Nothing => false
    case Recency => cfg.policy.LruPolicy?
    case Segmented(target) => cfg.policy.SlruPolicy? && target == cfg.Target()
    case Frequency(c, sketch) =>
      && cfg.policy.TinyLfuPolicy? && c == cfg.sketch && ByteSketch.WellFormed(c, sketch)
      && ByteSketch.View(c, sketch) == s.sketch
    case Routed(target, router, prefetch, l) =>
      && cfg.policy.RouterAdmitPolicy? && target == cfg.Target() && !prefetch
      && router.minimum == cfg.minimumScorePpm && router.maxExperts == cfg.maxExperts
      && RouterSignals.Full(l.active) && RouterSignals.Mirrors(l.active, s.scores) && SmallScores(l.active)
  }

  /** The kernel's entries and ledger in the state where the reference plans. */
  ghost predicate Meets(cfg: M.Config, pages: seq<M.Page>, ps: P.State, residents: P.Residents, m: M.State) {
    && Tracks(cfg, ps, m) && Proper(pages, residents) && View(residents) == m.residents
    && cfg.capacity <= MAX_U64 && M.Ledger(cfg, pages, m) && M.SegmentDiscipline(cfg, pages, m.residents)
    && TinyLfu.WellFormed(cfg.sketch, m.sketch)
  }

  // ---------------------------------------------------------------- victims

  lemma SameActiveScore(cfg: M.Config, pages: seq<M.Page>, ps: P.State, m: M.State, r: M.Request, p: nat)
    requires Tracks(cfg, ps, m) && p < |pages|
    ensures P.ActiveScore(ps, pages, r.id, r.step, p) == M.ActiveScore(cfg, m.scores, pages, r.id, r.step, p)
  {
    hide RouterSignals.ActiveScore, RouterSignals.Mirrors, RouterSignals.Full, SmallScores, ByteSketch.WellFormed;
    if ps.Routed? { RouterSignals.SameScore(cfg, ps.ledger.active, m.scores, pages, r.id, r.step, p); }
  }

  /** Both orders of eviction are the same. */
  lemma SameOrder(cfg: M.Config, pages: seq<M.Page>, ps: P.State, residents: P.Residents, m: M.State, r: M.Request,
                  p: nat, q: nat)
    requires Meets(cfg, pages, ps, residents, m) && p in residents && q in residents
    ensures P.InCatalogue(pages, residents)
    ensures P.Sooner(ps, pages, residents, r)(p, q) <==> S.Sooner(cfg, pages, m, r, p, q)
  {
    hide P.ActiveScore, M.ActiveScore, M.Bytes, RouterSignals.Mirrors, RouterSignals.Full, SmallScores,
         ByteSketch.WellFormed, TinyLfu.WellFormed, ByteSketch.View;
    assert p in m.residents && q in m.residents;
    SameActiveScore(cfg, pages, ps, m, r, p);
    SameActiveScore(cfg, pages, ps, m, r, q);
  }

  /** What a list up to enough bytes looks like: a prefix, and not enough before its last entry. */
  lemma {:induction false} TakePrefix(order: seq<nat>, w: nat -> nat, needed: nat) returns (n: nat)
    requires needed > 0
    ensures n <= |order| && P.TakeUntil(order, w, needed) == order[..n]
    ensures forall k | 0 <= k < n :: A.Sum(order[..k], w) < needed
    ensures A.Sum(order[..n], w) >= needed || n == |order|
    decreases |order|
  {
    if order == [] {
      n := 0;
    } else if w(order[0]) >= needed {
      n := 1;
      assert order[..1] == [order[0]] && order[..1][..0] == [];
    } else {
      var m := TakePrefix(order[1..], w, needed - w(order[0]));
      n := m + 1;
      assert order[..n] == [order[0]] + order[1..][..m];
      forall k | 0 <= k < n ensures A.Sum(order[..k], w) < needed {
        if k > 0 { SumFront(order, k, w); }
      }
      SumFront(order, n, w);
    }
  }

  lemma {:induction false} SumFront(order: seq<nat>, k: nat, w: nat -> nat)
    requires 0 < k <= |order|
    ensures A.Sum(order[..k], w) == w(order[0]) + A.Sum(order[1..][..k - 1], w)
  {
    if k == 1 {
      assert order[..1][..0] == [] && order[1..][..0] == [];
    } else {
      SumFront(order, k - 1, w);
      assert order[..k][..k - 1] == order[..k - 1];
      assert order[1..][..k - 1][..k - 2] == order[1..][..k - 2];
    }
  }

  lemma {:induction false} SumIsTotal(list: seq<nat>, w: nat -> nat)
    requires Distinct(list)
    ensures A.Sum(list, w) == Total(S.Elements(list), w) && |S.Elements(list)| == |list|
  {
    if list == [] {
      assert S.Elements(list) == {};
    } else {
      var n := |list| - 1;
      SumIsTotal(list[..n], w);
      S.ElementsStep(list, n, w);
      assert list[..n + 1] == list;
    }
  }

  lemma SumIsBytes(pages: seq<M.Page>, residents: P.Residents, list: seq<nat>)
    requires Proper(pages, residents) && Distinct(list) && forall p | p in list :: p in residents
    ensures A.Sum(list, P.EntryCharge(residents)) == M.Bytes(pages, S.Elements(list))
  {
    hide Total;
    SumIsTotal(list, P.EntryCharge(residents));
    TotalAgree(S.Elements(list), P.EntryCharge(residents), M.Charge(pages));
  }

  /** The kernel's sorted entries are sorted for the reference. */
  lemma OrderIsSorted(cfg: M.Config, pages: seq<M.Page>, ps: P.State, residents: P.Residents, m: M.State, r: M.Request,
                      order: seq<nat>)
    requires Meets(cfg, pages, ps, residents, m) && P.InCatalogue(pages, residents)
    requires Sorting.Lists(P.Sooner(ps, pages, residents, r), residents.Keys, order)
    ensures S.SortedFor(cfg, pages, m, r, order) && S.Elements(order) == m.residents.Keys && Distinct(order)
  {
    hide P.Sooner, S.Sooner, Meets, P.InCatalogue;
    MeetsView(cfg, pages, ps, residents, m);
    assert S.Elements(order) == Sorting.Members(order);
    assert forall i | 0 <= i < |order| :: order[i] in Sorting.Members(order);
    forall i, j | 0 <= i < j < |order| ensures S.Sooner(cfg, pages, m, r, order[i], order[j]) && order[i] != order[j] {
      SameOrder(cfg, pages, ps, residents, m, r, order[i], order[j]);
      NotBeforeItself(ps, pages, residents, r, order[i]);
    }
  }

  lemma MeetsView(cfg: M.Config, pages: seq<M.Page>, ps: P.State, residents: P.Residents, m: M.State)
    requires Meets(cfg, pages, ps, residents, m)
    ensures m.residents.Keys == residents.Keys && Proper(pages, residents) && M.InCatalogue(pages, m.residents)
    ensures P.InCatalogue(pages, residents) && m.bytes == M.Bytes(pages, m.residents.Keys) <= cfg.capacity <= MAX_U64
  {
    hide M.Bytes, Tracks;
    assert View(residents).Keys == residents.Keys;
  }

  lemma NotBeforeItself(ps: P.State, pages: seq<M.Page>, residents: P.Residents, r: M.Request, p: nat)
    requires P.InCatalogue(pages, residents)
    ensures !P.Sooner(ps, pages, residents, r)(p, p)
  {}

  /** The entries gathered are the victims of the reference, and they are enough. */
  lemma PlannedVictims(cfg: M.Config, pages: seq<M.Page>, ps: P.State, residents: P.Residents, m: M.State, r: M.Request,
                       needed: nat)
    requires Meets(cfg, pages, ps, residents, m) && P.InCatalogue(pages, residents)
    requires r.page < |pages| && pages[r.page].charge <= cfg.capacity
    requires needed > 0 && cfg.capacity + needed == m.bytes + pages[r.page].charge
    ensures
      var victims := P.Planned(ps, pages, residents, r, needed);
      && Distinct(victims) && S.Elements(victims) == M.Victims(cfg, pages, m, r)
      && (forall p | p in victims :: p in residents)
      && needed <= A.Sum(victims, P.EntryCharge(residents)) == M.Bytes(pages, S.Elements(victims)) <= m.bytes
  {
    hide P.Sooner, Meets, M.Bytes, P.EntryCharge, S.SortedFor, M.Victims, Sorting.Orders, A.Sum;
    MeetsView(cfg, pages, ps, residents, m);
    P.SoonerOrders(ps, pages, residents, r, residents.Keys);
    var order := Sorting.Sorted(P.Sooner(ps, pages, residents, r), residents.Keys);
    OrderIsSorted(cfg, pages, ps, residents, m, r, order);
    var w := P.EntryCharge(residents);
    var n := TakePrefix(order, w, needed);
    PrefixPlan(cfg, pages, residents, m, r, order, n, needed);
  }

  lemma PrefixPlan(cfg: M.Config, pages: seq<M.Page>, residents: P.Residents, m: M.State, r: M.Request, order: seq<nat>,
                   n: nat, needed: nat)
    requires Proper(pages, residents) && M.InCatalogue(pages, m.residents) && m.residents.Keys == residents.Keys
    requires m.bytes == M.Bytes(pages, m.residents.Keys) && r.page < |pages| && pages[r.page].charge <= cfg.capacity
    requires needed > 0 && cfg.capacity + needed == m.bytes + pages[r.page].charge
    requires S.SortedFor(cfg, pages, m, r, order) && S.Elements(order) == m.residents.Keys && Distinct(order)
    requires n <= |order| && forall k | 0 <= k < n :: A.Sum(order[..k], P.EntryCharge(residents)) < needed
    requires A.Sum(order[..n], P.EntryCharge(residents)) >= needed || n == |order|
    ensures
      var victims := order[..n];
      && Distinct(victims) && S.Elements(victims) == M.Victims(cfg, pages, m, r)
      && (forall p | p in victims :: p in residents)
      && needed <= A.Sum(victims, P.EntryCharge(residents)) == M.Bytes(pages, S.Elements(victims)) <= m.bytes
  {
    hide M.Bytes, P.EntryCharge, S.SortedFor, M.Victims, A.Sum;
    forall k | 0 <= k <= |order|
      ensures Distinct(order[..k])
      ensures A.Sum(order[..k], P.EntryCharge(residents)) == M.Bytes(pages, S.Elements(order[..k]))
      ensures S.Elements(order[..k]) <= m.residents.Keys
    {
      S.PrefixDistinct(order, k);
      Within(order, k, residents);
      SumIsBytes(pages, residents, order[..k]);
    }
    forall k | 0 <= k < n ensures order[k] in M.Victims(cfg, pages, m, r) {
      S.VictimByPrefix(cfg, pages, m, r, order, k);
    }
    if n == |order| { assert order[..n] == order; }
    S.PrefixIsPlan(cfg, pages, m, r, order, n);
    BytesWithin(pages, S.Elements(order[..n]), m.residents.Keys);
    Within(order, n, residents);
  }

  lemma Within(order: seq<nat>, k: nat, residents: P.Residents)
    requires k <= |order| && S.Elements(order) == residents.Keys
    ensures S.Elements(order[..k]) <= residents.Keys && forall p | p in order[..k] :: p in residents
  {
    assert forall p | p in order[..k] :: p in order && p in S.Elements(order);
  }

  lemma BytesWithin(pages: seq<M.Page>, part: set<nat>, all: set<nat>)
    requires part <= all
    ensures M.Bytes(pages, part) <= M.Bytes(pages, all)
  {
    TotalMonotone(part, all, M.Charge(pages));
  }

  // ---------------------------------------------------------------- admission

  lemma {:induction false} SumBound(list: seq<nat>, w: nat -> nat, bound: nat)
    requires forall p | p in list :: w(p) <= bound
    ensures A.Sum(list, w) <= bound * |list|
  {
    if list != [] {
      var n := |list| - 1;
      assert list[n] in list;
      SumBound(list[..n], w, bound);
      assert bound * |list| == bound * n + bound;
    }
  }

  lemma Product(a: nat, b: nat, x: nat, y: nat)
    requires a <= x && b <= y
    ensures a * b <= x * y
  {
    assert a * b <= x * b <= x * y;
  }

  /** Values up to a million over at most 4,096 victims stay far below 128 bits. */
  lemma NoOverflow(gain: nat, freed: nat, loss: nat, charge: nat)
    requires gain <= P.PPM && freed <= MAX_U64 && loss <= P.PPM * 4_096 && charge <= MAX_U64
    ensures P.Denser(gain, freed, loss, charge) == Some(M.Denser(gain, freed, loss, charge))
  {
    Product(gain, freed, P.PPM, MAX_U64);
    Product(loss, charge, P.PPM * 4_096, MAX_U64);
    assert P.PPM * MAX_U64 <= P.MAX_U128 && P.PPM * 4_096 * MAX_U64 <= P.MAX_U128;
  }

  lemma FewVictims(pages: seq<M.Page>, residents: P.Residents, victims: seq<nat>)
    requires Proper(pages, residents) && Distinct(victims) && forall p | p in victims :: p in residents
    ensures |victims| <= |pages|
  {
    KernelAudit.DistinctBelow(victims, |pages|);
  }

  lemma SameEstimates(cfg: M.Config, ps: P.State, m: M.State, p: nat)
    requires Tracks(cfg, ps, m) && ps.Frequency? && TinyLfu.WellFormed(cfg.sketch, m.sketch)
    ensures P.Valid(ps) && P.EstimateOf(ps)(p) == M.Estimates(cfg, m)(p) <= 16
  {
    hide ByteSketch.Estimate, ByteSketch.View;
    ByteSketch.SameEstimate(ps.config, ps.sketch, p);
  }

  lemma SmallScore(cfg: M.Config, pages: seq<M.Page>, ps: P.State, m: M.State, r: M.Request, p: nat)
    requires Tracks(cfg, ps, m) && p < |pages|
    ensures P.ActiveScore(ps, pages, r.id, r.step, p) <= P.PPM
  {
    hide RouterSignals.Mirrors, RouterSignals.Full, ByteSketch.WellFormed;
  }

  lemma FrequencyAdmits(cfg: M.Config, pages: seq<M.Page>, ps: P.State, residents: P.Residents, m: M.State,
                        r: M.Request, victims: seq<nat>)
    requires Tracks(cfg, ps, m) && ps.Frequency? && TinyLfu.WellFormed(cfg.sketch, m.sketch) && Proper(pages, residents)
    requires Distinct(victims) && victims != [] && (forall p | p in victims :: p in residents) && |pages| <= 4_096
    requires M.Bytes(pages, S.Elements(victims)) <= MAX_U64 && r.page < |pages| && pages[r.page].charge <= MAX_U64
    ensures P.Valid(ps)
    ensures P.Admits(ps, pages, residents, r, victims) == Some(M.Admits(cfg, pages, m, r, S.Elements(victims)))
  {
    hide Tracks, M.Bytes, Proper, P.EstimateOf, M.Estimates, A.Sum, P.Denser, M.Denser, Total, P.EntryCharge,
         TinyLfu.WellFormed, ByteSketch.WellFormed, P.Valid;
    SameEstimates(cfg, ps, m, r.page);
    FewVictims(pages, residents, victims);
    SumIsBytes(pages, residents, victims);
    SumIsTotal(victims, P.EstimateOf(ps));
    forall p ensures P.EstimateOf(ps)(p) == M.Estimates(cfg, m)(p) <= 16 { SameEstimates(cfg, ps, m, p); }
    TotalAgree(S.Elements(victims), P.EstimateOf(ps), M.Estimates(cfg, m));
    SumBound(victims, P.EstimateOf(ps), 16);
    NoOverflow(P.EstimateOf(ps)(r.page), A.Sum(victims, P.EntryCharge(residents)), A.Sum(victims, P.EstimateOf(ps)),
               pages[r.page].charge);
    EstimateIs(cfg, m, r.page);
    KindIs(cfg, ps, m);
    assert victims[0] in S.Elements(victims);
  }

  lemma EstimateIs(cfg: M.Config, m: M.State, p: nat)
    requires TinyLfu.WellFormed(cfg.sketch, m.sketch)
    ensures M.Estimates(cfg, m)(p) == TinyLfu.Estimate(cfg.sketch, m.sketch, p)
  {}

  lemma KindIs(cfg: M.Config, ps: P.State, m: M.State)
    requires Tracks(cfg, ps, m)
    ensures (ps.Frequency? <==> cfg.policy.TinyLfuPolicy?) && (ps.Routed? <==> cfg.policy.RouterAdmitPolicy?)
    ensures (ps.Segmented? || ps.Routed? <==> cfg.Segmented()) && !ps.Nothing?
    ensures P.ProtectedTarget(ps) == if cfg.Segmented() then Some(cfg.Target()) else None
  {}

  lemma RoutedAdmits(cfg: M.Config, pages: seq<M.Page>, ps: P.State, residents: P.Residents, m: M.State, r: M.Request,
                     victims: seq<nat>)
    requires Tracks(cfg, ps, m) && ps.Routed? && TinyLfu.WellFormed(cfg.sketch, m.sketch) && Proper(pages, residents)
    requires Distinct(victims) && victims != [] && (forall p | p in victims :: p in residents) && |pages| <= 4_096
    requires M.Bytes(pages, S.Elements(victims)) <= MAX_U64 && r.page < |pages| && pages[r.page].charge <= MAX_U64
    ensures P.Admits(ps, pages, residents, r, victims) == Some(M.Admits(cfg, pages, m, r, S.Elements(victims)))
  {
    hide Tracks, M.Bytes, Proper, P.ScoreOf, M.ScoresOf, A.Sum, P.Denser, M.Denser, Total, P.EntryCharge,
         TinyLfu.WellFormed, P.ActiveScore, M.ActiveScore;
    FewVictims(pages, residents, victims);
    SumIsBytes(pages, residents, victims);
    SumIsTotal(victims, P.ScoreOf(ps, pages, r));
    forall p ensures P.ScoreOf(ps, pages, r)(p) == M.ScoresOf(cfg, pages, m, r)(p) <= P.PPM {
      SameScores(cfg, pages, ps, m, r, p);
    }
    TotalAgree(S.Elements(victims), P.ScoreOf(ps, pages, r), M.ScoresOf(cfg, pages, m, r));
    SumBound(victims, P.ScoreOf(ps, pages, r), P.PPM);
    Product(P.PPM, |victims|, P.PPM, 4_096);
    SameActiveScore(cfg, pages, ps, m, r, r.page);
    SmallScore(cfg, pages, ps, m, r, r.page);
    NoOverflow(P.ActiveScore(ps, pages, r.id, r.step, r.page), A.Sum(victims, P.EntryCharge(residents)),
               A.Sum(victims, P.ScoreOf(ps, pages, r)), pages[r.page].charge);
    EmptyTogether(cfg, ps, m);
    KindIs(cfg, ps, m);
    assert victims[0] in S.Elements(victims);
  }

  lemma SameScores(cfg: M.Config, pages: seq<M.Page>, ps: P.State, m: M.State, r: M.Request, p: nat)
    requires Tracks(cfg, ps, m)
    ensures P.ScoreOf(ps, pages, r)(p) == M.ScoresOf(cfg, pages, m, r)(p) <= P.PPM
  {
    hide Tracks, P.ActiveScore, M.ActiveScore;
    if p < |pages| {
      SameActiveScore(cfg, pages, ps, m, r, p);
      SmallScore(cfg, pages, ps, m, r, p);
    }
  }

  lemma EmptyTogether(cfg: M.Config, ps: P.State, m: M.State)
    requires Tracks(cfg, ps, m) && ps.Routed?
    ensures ps.ledger.active == map[] <==> m.scores == map[]
  {
    RouterSignals.EmptyTogether(ps.ledger.active, m.scores);
  }

  lemma SameAdmits(cfg: M.Config, pages: seq<M.Page>, ps: P.State, residents: P.Residents, m: M.State, r: M.Request,
                   victims: seq<nat>)
    requires Tracks(cfg, ps, m) && TinyLfu.WellFormed(cfg.sketch, m.sketch) && Proper(pages, residents)
    requires Distinct(victims) && victims != [] && (forall p | p in victims :: p in residents) && |pages| <= 4_096
    requires M.Bytes(pages, S.Elements(victims)) <= MAX_U64 && r.page < |pages| && pages[r.page].charge <= MAX_U64
    ensures P.Valid(ps)
    ensures P.Admits(ps, pages, residents, r, victims) == Some(M.Admits(cfg, pages, m, r, S.Elements(victims)))
  {
    hide Tracks, M.Bytes, Proper, TinyLfu.WellFormed, ByteSketch.WellFormed, A.Sum;
    KindIs(cfg, ps, m);
    if ps.Frequency? {
      FrequencyAdmits(cfg, pages, ps, residents, m, r, victims);
    } else if ps.Routed? {
      RoutedAdmits(cfg, pages, ps, residents, m, r, victims);
    }
  }

  // ---------------------------------------------------------------- the answer to a miss

  /** The answer the reference calls for: decline what does not fit or is not worth its victims, else
      evict exactly its victims. */
  ghost predicate PlanIs(cfg: M.Config, pages: seq<M.Page>, m: M.State, r: M.Request, answer: K.Answer)
    requires M.InCatalogue(pages, m.residents) && r.page < |pages| && TinyLfu.WellFormed(cfg.sketch, m.sketch)
  {
    var victims := M.Victims(cfg, pages, m, r);
    if pages[r.page].charge > cfg.capacity || !M.Admits(cfg, pages, m, r, victims) then answer == K.Decline
    else answer.Evict? && Distinct(answer.victims) && S.Elements(answer.victims) == victims
  }

  /** With room for the page there is no victim, and nothing to weigh. */
  lemma RoomEnough(cfg: M.Config, pages: seq<M.Page>, m: M.State, r: M.Request)
    requires M.InCatalogue(pages, m.residents) && r.page < |pages| && TinyLfu.WellFormed(cfg.sketch, m.sketch)
    requires m.bytes + pages[r.page].charge <= cfg.capacity
    ensures M.Victims(cfg, pages, m, r) == {} && M.Admits(cfg, pages, m, r, {})
  {}

  lemma DemandPlanIs(cfg: M.Config, pages: seq<M.Page>, ps: P.State, residents: P.Residents, m: M.State, r: M.Request)
    requires Meets(cfg, pages, ps, residents, m) && r.page < |pages| <= 4_096
    requires forall i | 0 <= i < |pages| :: pages[i].charge <= MAX_U64
    ensures P.Valid(ps) && P.InCatalogue(pages, residents) && m.bytes <= cfg.capacity
    ensures M.InCatalogue(pages, m.residents) && TinyLfu.WellFormed(cfg.sketch, m.sketch)
    ensures PlanIs(cfg, pages, m, r, P.DemandPlan(ps, pages, residents, m.bytes, cfg.capacity, r))
  {
    hide Meets, Tracks, M.Bytes, Proper, TinyLfu.WellFormed, ByteSketch.WellFormed, P.Valid, P.Planned, M.Victims,
         M.Admits, P.Admits, A.Sum, P.EntryCharge, P.InCatalogue, M.InCatalogue;
    MeetsView(cfg, pages, ps, residents, m);
    MeetsParts(cfg, pages, ps, residents, m);
    var charge := pages[r.page].charge;
    if charge <= cfg.capacity {
      if charge <= cfg.capacity - m.bytes {
        RoomEnough(cfg, pages, m, r);
        NoElements();
      } else {
        var needed := charge - (cfg.capacity - m.bytes);
        PlannedVictims(cfg, pages, ps, residents, m, r, needed);
        var victims := P.Planned(ps, pages, residents, r, needed);
        SomeVictim(victims, P.EntryCharge(residents), needed);
        SameAdmits(cfg, pages, ps, residents, m, r, victims);
      }
    }
  }

  lemma NoElements()
    ensures S.Elements([]) == {}
  {}

  lemma SomeVictim(victims: seq<nat>, w: nat -> nat, needed: nat)
    requires A.Sum(victims, w) >= needed > 0
    ensures victims != []
  {}

  lemma MeetsParts(cfg: M.Config, pages: seq<M.Page>, ps: P.State, residents: P.Residents, m: M.State)
    requires Meets(cfg, pages, ps, residents, m)
    ensures Tracks(cfg, ps, m) && TinyLfu.WellFormed(cfg.sketch, m.sketch) && P.Valid(ps) && !ps.Nothing?
  {}
}
