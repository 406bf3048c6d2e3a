/** The imperative replay of `oracle/cache_policy.py`, proved against `CacheModel`.
    The source's internal consistency checks appear as assertions: they cannot fail. The only
    failures left are rejected arguments and the overflow of the load-byte counter. */
module CacheSimulator {
  import opened Common
  import opened Totals
  import opened CacheModel
  import TinyLfu

  function Elements(s: seq<nat>): set<nat> { set p | p in s }

  lemma ElementsStep(s: seq<nat>, i: nat, w: nat -> nat)
    requires Distinct(s) && i < |s|
    ensures Elements(s[..i + 1]) == Elements(s[..i]) + {s[i]} && s[i] !in Elements(s[..i])
    ensures |Elements(s[..i + 1])| == |Elements(s[..i])| + 1
    ensures Total(Elements(s[..i + 1]), w) == Total(Elements(s[..i]), w) + w(s[i])
  {
    assert s[..i + 1] == s[..i] + [s[i]];
    assert Elements(s[..i + 1]) == Elements(s[..i]) + {s[i]};
    TotalAdd(Elements(s[..i]), w, s[i]);
  }

  // ---------------------------------------------------------------- rebalancing

  method FindOldest(residents: Residents, among: set<nat>) returns (oldest: nat)
    requires among <= residents.Keys && among != {}
    ensures oldest in among
    ensures forall q | q in among && q != oldest :: Older(residents, oldest, q)
  {
    oldest :| oldest in among;
    var rest := among - {oldest};
    while rest != {}
      invariant rest <= among && oldest in among && oldest !in rest
      invariant forall q | q in among && q !in rest && q != oldest :: Older(residents, oldest, q)
      decreases rest
    {
      var p :| p in rest;
      ghost var was := oldest;
      if Older(residents, p, oldest) { oldest := p; }
      rest := rest - {p};
      forall q | q in among && q !in rest && q != oldest ensures Older(residents, oldest, q) {
        assert q == p || q == was || Older(residents, was, q);
      }
    }
  }

  // ---------------------------------------------------------------- victim planning

  /** Resident `p` is evicted before resident `q`. */
  predicate Sooner(cfg: Config, pages: seq<Page>, s: State, r: Request, p: nat, q: nat) {
    && p in s.residents && q in s.residents && p < |pages| && q < |pages|
    && Less(VictimKey(cfg, pages, s, r, p), VictimKey(cfg, pages, s, r, q))
  }

  lemma SoonerIsTotal(cfg: Config, pages: seq<Page>, s: State, r: Request, p: nat, q: nat)
    requires InCatalogue(pages, s.residents) && p in s.residents && q in s.residents && p != q
    ensures Sooner(cfg, pages, s, r, p, q) <==> !Sooner(cfg, pages, s, r, q, p)
  {}

  lemma SoonerChains(cfg: Config, pages: seq<Page>, s: State, r: Request, o: nat, p: nat, q: nat)
    requires Sooner(cfg, pages, s, r, o, p) && Sooner(cfg, pages, s, r, p, q)
    ensures Sooner(cfg, pages, s, r, o, q)
  {}

  ghost predicate SortedFor(cfg: Config, pages: seq<Page>, s: State, r: Request, order: seq<nat>) {
    && (forall i | 0 <= i < |order| :: order[i] in s.residents)
    && forall i, j | 0 <= i < j < |order| :: Sooner(cfg, pages, s, r, order[i], order[j])
  }

  /** Where `p` belongs in the eviction order. */
  method Position(cfg: Config, pages: seq<Page>, s: State, r: Request, order: seq<nat>, p: nat) returns (at: nat)
    requires InCatalogue(pages, s.residents) && SortedFor(cfg, pages, s, r, order)
    requires p in s.residents && p !in order
    ensures at <= |order|
    ensures forall i | 0 <= i < at :: Sooner(cfg, pages, s, r, order[i], p)
    ensures forall i | at <= i < |order| :: Sooner(cfg, pages, s, r, p, order[i])
  {
    hide Sooner;
    at := 0;
    while at < |order| && Sooner(cfg, pages, s, r, order[at], p)
      invariant 0 <= at <= |order|
      invariant forall i | 0 <= i < at :: Sooner(cfg, pages, s, r, order[i], p)
    {
      at := at + 1;
    }
    forall i | at <= i < |order| ensures Sooner(cfg, pages, s, r, p, order[i]) {
      SoonerIsTotal(cfg, pages, s, r, p, order[at]);
      if i > at { SoonerChains(cfg, pages, s, r, p, order[at], order[i]); }
    }
  }

  method SortResidents(cfg: Config, pages: seq<Page>, s: State, r: Request) returns (order: seq<nat>)
    requires InCatalogue(pages, s.residents)
    ensures Elements(order) == s.residents.Keys && Distinct(order) && SortedFor(cfg, pages, s, r, order)
  {
    hide Sooner;
    order := [];
    var rest := s.residents.Keys;
    while rest != {}
      invariant Elements(order) == s.residents.Keys - rest && rest <= s.residents.Keys
      invariant SortedFor(cfg, pages, s, r, order)
      decreases rest
    {
      var p :| p in rest;
      assert p !in Elements(order);
      var at := Position(cfg, pages, s, r, order, p);
      InsertKeepsOrder(cfg, pages, s, r, order, p, at);
      order := order[..at] + [p] + order[at..];
      rest := rest - {p};
    }
    SortedIsDistinct(cfg, pages, s, r, order);
  }

  lemma SortedIsDistinct(cfg: Config, pages: seq<Page>, s: State, r: Request, order: seq<nat>)
    requires SortedFor(cfg, pages, s, r, order)
    ensures Distinct(order)
  {}

  lemma InsertKeepsOrder(cfg: Config, pages: seq<Page>, s: State, r: Request, order: seq<nat>, p: nat, at: nat)
    requires SortedFor(cfg, pages, s, r, order) && p in s.residents && at <= |order|
    requires forall i | 0 <= i < at :: Sooner(cfg, pages, s, r, order[i], p)
    requires forall i | at <= i < |order| :: Sooner(cfg, pages, s, r, p, order[i])
    ensures
      var wider := order[..at] + [p] + order[at..];
      SortedFor(cfg, pages, s, r, wider) && Elements(wider) == Elements(order) + {p}
  {
    hide Sooner;
    var wider := order[..at] + [p] + order[at..];
    assert order == order[..at] + order[at..];
    assert Elements(wider) == Elements(order) + {p};
    assert forall i | 0 <= i < |wider| :: wider[i] == if i < at then order[i] else if i == at then p else order[i - 1];
  }

  lemma AheadIsPrefix(cfg: Config, pages: seq<Page>, s: State, r: Request, order: seq<nat>, i: nat)
    requires InCatalogue(pages, s.residents)
    requires Elements(order) == s.residents.Keys && SortedFor(cfg, pages, s, r, order) && i < |order|
    ensures order[i] in s.residents
    ensures AheadOf(cfg, pages, s, r, order[i]) == Elements(order[..i])
  {
    var ahead := AheadOf(cfg, pages, s, r, order[i]);
    forall q | q in ahead ensures q in Elements(order[..i]) {
      assert q in Elements(order);
      var k :| 0 <= k < |order| && order[k] == q;
      NotAfter(cfg, pages, s, r, order, k, i);
      assert order[..i][k] == q;
    }
    forall q | q in Elements(order[..i]) ensures q in ahead {
      var k :| 0 <= k < i && order[k] == q;
      assert Sooner(cfg, pages, s, r, order[k], order[i]);
    }
  }

  lemma NotAfter(cfg: Config, pages: seq<Page>, s: State, r: Request, order: seq<nat>, k: nat, i: nat)
    requires SortedFor(cfg, pages, s, r, order) && k < |order| && i < |order|
    requires Sooner(cfg, pages, s, r, order[k], order[i])
    ensures k < i
  {}

  /** A sorted resident is a victim exactly while the bytes before it are not enough. */
  lemma VictimByPrefix(cfg: Config, pages: seq<Page>, s: State, r: Request, order: seq<nat>, i: nat)
    requires InCatalogue(pages, s.residents) && r.page < |pages|
    requires Elements(order) == s.residents.Keys && SortedFor(cfg, pages, s, r, order) && i < |order|
    ensures order[i] in Victims(cfg, pages, s, r) <==>
      cfg.capacity + Bytes(pages, Elements(order[..i])) < s.bytes + pages[r.page].charge
  {
    hide Sooner, AheadOf, Total;
    AheadIsPrefix(cfg, pages, s, r, order, i);
  }

  lemma PrefixDistinct(order: seq<nat>, i: nat)
    requires Distinct(order) && i <= |order|
    ensures Distinct(order[..i])
  {}

  lemma NothingReleased(pages: seq<Page>)
    ensures Bytes(pages, {}) == 0
  {}

  lemma ReleaseStep(pages: seq<Page>, order: seq<nat>, i: nat)
    requires Distinct(order) && i < |order|
    ensures Bytes(pages, Elements(order[..i + 1])) == Bytes(pages, Elements(order[..i])) + Charge(pages)(order[i])
  {
    hide Total;
    ElementsStep(order, i, Charge(pages));
  }

  /** Scans the eviction order until the needed bytes are released. */
  method ScanOrder(cfg: Config, pages: seq<Page>, s: State, r: Request, order: seq<nat>) returns (i: nat)
    requires Ledger(cfg, pages, s) && r.page < |pages| && pages[r.page].charge <= cfg.capacity
    requires cfg.capacity - s.bytes < pages[r.page].charge
    requires Elements(order) == s.residents.Keys && Distinct(order) && SortedFor(cfg, pages, s, r, order)
    ensures i <= |order| && Elements(order[..i]) == Victims(cfg, pages, s, r)
  {
    hide SortedFor, Victims, Bytes;
    var needed := pages[r.page].charge - (cfg.capacity - s.bytes);
    var released := 0;
    i := 0;
    NothingReleased(pages);
    assert Elements(order[..0]) == {};
    while i < |order| && released < needed
      invariant 0 <= i <= |order|
      invariant released == Bytes(pages, Elements(order[..i]))
      invariant forall k | 0 <= k < i :: order[k] in Victims(cfg, pages, s, r)
    {
      VictimByPrefix(cfg, pages, s, r, order, i);
      ReleaseStep(pages, order, i);
      released := released + Charge(pages)(order[i]);
      i := i + 1;
    }
    assert i == |order| ==> order[..i] == order;
    assert released >= needed;
    PrefixIsPlan(cfg, pages, s, r, order, i);
  }

  /** The shortest prefix of the eviction order that frees the needed bytes. */
  method PlanVictims(cfg: Config, pages: seq<Page>, s: State, r: Request) returns (victims: seq<nat>)
    requires Ledger(cfg, pages, s) && r.page < |pages| && pages[r.page].charge <= cfg.capacity
    ensures Distinct(victims) && Elements(victims) == Victims(cfg, pages, s, r)
  {
    if pages[r.page].charge <= cfg.capacity - s.bytes {
      assert Victims(cfg, pages, s, r) == {};
      return [];
    }
    var order := SortResidents(cfg, pages, s, r);
    var i := ScanOrder(cfg, pages, s, r, order);
    PrefixDistinct(order, i);
    victims := order[..i];
  }

  lemma PrefixIsPlan(cfg: Config, pages: seq<Page>, s: State, r: Request, order: seq<nat>, i: nat)
    requires InCatalogue(pages, s.residents) && r.page < |pages|
    requires Elements(order) == s.residents.Keys && SortedFor(cfg, pages, s, r, order) && i <= |order|
    requires forall k | 0 <= k < i :: order[k] in Victims(cfg, pages, s, r)
    requires cfg.capacity + Bytes(pages, Elements(order[..i])) >= s.bytes + pages[r.page].charge
    ensures Elements(order[..i]) == Victims(cfg, pages, s, r)
  {
    forall p | p in Victims(cfg, pages, s, r) ensures p in Elements(order[..i]) {
      assert p in Elements(order);
      var k :| 0 <= k < |order| && order[k] == p;
      VictimByPrefix(cfg, pages, s, r, order, k);
      if k >= i {
        assert Elements(order[..i]) <= Elements(order[..k]);
        TotalMonotone(Elements(order[..i]), Elements(order[..k]), Charge(pages));
      }
      assert order[..i][k] == p;
    }
  }

  method SumOver(s: seq<nat>, w: nat -> nat) returns (total: nat)
    requires Distinct(s)
    ensures total == Total(Elements(s), w)
  {
    total := 0;
    assert Elements(s[..0]) == {};
    for i := 0 to |s|
      invariant total == Total(Elements(s[..i]), w)
    {
      ElementsStep(s, i, w);
      total := total + w(s[i]);
    }
    assert s[..|s|] == s;
  }

  /** The admission test of the two admission policies. */
  method Admissible(cfg: Config, pages: seq<Page>, s: State, r: Request, victims: seq<nat>) returns (admit: bool)
    requires TinyLfu.WellFormed(cfg.sketch, s.sketch) && Distinct(victims) && r.page < |pages|
    ensures admit == Admits(cfg, pages, s, r, Elements(victims))
  {
    if victims == [] {
      return true;
    }
    assert victims[0] in Elements(victims);
    var charge := pages[r.page].charge;
    var freed := SumOver(victims, Charge(pages));
    if cfg.policy.TinyLfuPolicy? {
      var frequency := SumOver(victims, Estimates(cfg, s));
      admit := Denser(TinyLfu.Estimate(cfg.sketch, s.sketch, r.page), freed, frequency, charge);
    } else if cfg.policy.RouterAdmitPolicy? && s.scores != map[] {
      var candidate := ActiveScore(cfg, s.scores, pages, r.id, r.step, r.page);
      var score := SumOver(victims, ScoresOf(cfg, pages, s, r));
      admit := (candidate == 0 && score == 0) || Denser(candidate, freed, score, charge);
    } else {
      admit := true;
    }
  }

  lemma EvictionStep(pages: seq<Page>, residents: Residents, victims: seq<nat>, i: nat)
    requires Distinct(victims) && Elements(victims) <= residents.Keys && InCatalogue(pages, residents) && i < |victims|
    ensures victims[i] in Without(residents, Elements(victims[..i])) && victims[i] < |pages|
    ensures Without(residents, Elements(victims[..i + 1]))
      == Without(Without(residents, Elements(victims[..i])), {victims[i]})
    ensures |Elements(victims[..i + 1])| == |Elements(victims[..i])| + 1
    ensures Bytes(pages, Elements(victims[..i])) + pages[victims[i]].charge
         == Bytes(pages, Elements(victims[..i + 1])) <= Bytes(pages, Elements(victims))
  {
    ElementsStep(victims, i, Charge(pages));
    assert victims[i] in Elements(victims);
    assert Elements(victims[..i + 1]) <= Elements(victims);
    TotalMonotone(Elements(victims[..i + 1]), Elements(victims), Charge(pages));
  }

  class Simulator {
    const cfg: Config
    const pages: seq<Page>
    const sketch: TinyLfu.TinyLfuSketch
    var residents: Residents
    var scores: Scores
    var bytes: nat
    var touch: nat
    var metrics: Metrics

    function State(): State
      reads this, sketch
    {
      CacheModel.State(residents, scores, bytes, touch, sketch.State(), metrics)
    }

    ghost predicate Valid()
      reads this, sketch
    {
      sketch.config == cfg.sketch && Inv(cfg, pages, State())
    }

    constructor (cfg: Config, pages: seq<Page>)
      requires cfg.Valid()
      ensures this.cfg == cfg && this.pages == pages && fresh(sketch)
      ensures Valid() && State() == Start(cfg)
    {
      this.cfg := cfg;
      this.pages := pages;
      sketch := new TinyLfu.TinyLfuSketch(cfg.sketch);
      residents := map[];
      scores := map[];
      bytes := 0;
      touch := 0;
      metrics := Metrics(0, 0, 0, 0, 0, 0, 0, 0);
      new;
      StartInv(cfg, pages);
    }

    method HandleSignal(e: Event)
      requires Valid() && e.Signal?
      modifies this
      ensures Valid() && State() == Step(cfg, pages, old(State()), e)
    {
      scores := AfterSignal(cfg, scores, e);
    }

    // -------------------------------------------------------------- rebalancing

    method SumCharges(s: set<nat>) returns (total: nat)
      requires forall p | p in s :: p < |pages|
      ensures total == Bytes(pages, s)
    {
      total := 0;
      var rest := s;
      while rest != {}
        invariant rest <= s && total + Bytes(pages, rest) == Bytes(pages, s)
        decreases rest
      {
        var p :| p in rest;
        TotalRemove(rest, Charge(pages), p);
        total := total + pages[p].charge;
        rest := rest - {p};
      }
    }

    /** Demotes the oldest protected page until the protected bytes fit the target. */
    method RebalanceProtected(demotionTouch: nat)
      requires InCatalogue(pages, residents)
      modifies this`residents
      ensures residents == Rebalanced(pages, old(residents), cfg.Target(), demotionTouch)
    {
      ghost var before := residents;
      ghost var demoted: set<nat> := {};
      var protectedBytes := SumCharges(ProtectedPages(residents));
      while protectedBytes > cfg.Target()
        invariant InCatalogue(pages, residents)
        invariant demoted <= Demoted(pages, before, cfg.Target())
        invariant residents == Relabelled(before, demoted, demotionTouch)
        invariant ProtectedPages(residents) == ProtectedPages(before) - demoted
        invariant forall d, q | d in demoted && q in ProtectedPages(before) - demoted :: Older(before, d, q)
        invariant protectedBytes == Bytes(pages, ProtectedPages(residents))
        decreases ProtectedPages(before) - demoted
      {
        assert ProtectedPages(residents) != {};
        var victim := FindOldest(residents, ProtectedPages(residents));
        OldestIsDemoted(before, demoted, residents, victim);
        demoted := demoted + {victim};
        residents := residents[victim := Resident(demotionTouch, Probation)];
        assert residents == Relabelled(before, demoted, demotionTouch);
        protectedBytes := SumCharges(ProtectedPages(residents));
      }
      RestIsKept(before, demoted);
    }

    lemma OldestIsDemoted(before: Residents, demoted: set<nat>, now: Residents, victim: nat)
      requires InCatalogue(pages, before) && demoted <= ProtectedPages(before)
      requires now.Keys == before.Keys && ProtectedPages(now) == ProtectedPages(before) - demoted
      requires forall p | p in ProtectedPages(now) :: now[p] == before[p]
      requires forall d, q | d in demoted && q in ProtectedPages(before) - demoted :: Older(before, d, q)
      requires victim in ProtectedPages(now)
      requires forall q | q in ProtectedPages(now) && q != victim :: Older(now, victim, q)
      requires Bytes(pages, ProtectedPages(now)) > cfg.Target()
      ensures victim in Demoted(pages, before, cfg.Target())
      ensures forall q | q in ProtectedPages(before) - demoted && q != victim :: Older(before, victim, q)
    {
      forall q | q in ProtectedPages(before) - demoted && q != victim ensures Older(before, victim, q) {
        assert q in ProtectedPages(now);
      }
      assert NotOlder(before, victim) == ProtectedPages(now);
    }

    lemma RestIsKept(before: Residents, demoted: set<nat>)
      requires InCatalogue(pages, before) && demoted <= Demoted(pages, before, cfg.Target())
      requires forall d, q | d in demoted && q in ProtectedPages(before) - demoted :: Older(before, d, q)
      requires Bytes(pages, ProtectedPages(before) - demoted) <= cfg.Target()
      ensures demoted == Demoted(pages, before, cfg.Target())
    {
      forall p | p in ProtectedPages(before) - demoted
        ensures p !in Demoted(pages, before, cfg.Target())
      {
        assert NotOlder(before, p) <= ProtectedPages(before) - demoted;
        TotalMonotone(NotOlder(before, p), ProtectedPages(before) - demoted, Charge(pages));
      }
    }

    // -------------------------------------------------------------- admission

    method Evict(victims: seq<nat>)
      requires Distinct(victims) && Elements(victims) <= residents.Keys && InCatalogue(pages, residents)
      requires Bytes(pages, Elements(victims)) <= bytes
      modifies this`residents, this`bytes, this`metrics
      ensures residents == Without(old(residents), Elements(victims))
      ensures bytes == old(bytes) - Bytes(pages, Elements(victims))
      ensures metrics == old(metrics).(evictions := old(metrics).evictions + |Elements(victims)|)
    {
      assert Elements(victims[..0]) == {};
      for i := 0 to |victims|
        invariant residents == Without(old(residents), Elements(victims[..i]))
        invariant bytes == old(bytes) - Bytes(pages, Elements(victims[..i]))
        invariant metrics == old(metrics).(evictions := old(metrics).evictions + |Elements(victims[..i])|)
      {
        EvictionStep(pages, old(residents), victims, i);
        assert pages[victims[i]].charge <= bytes;
        residents := Without(residents, {victims[i]});
        bytes := bytes - pages[victims[i]].charge;
        metrics := metrics.(evictions := metrics.evictions + 1);
      }
      assert victims[..|victims|] == victims;
    }

    method Replace(r: Request, victims: seq<nat>)
      requires Distinct(victims) && Elements(victims) <= residents.Keys && InCatalogue(pages, residents)
      requires Bytes(pages, Elements(victims)) <= bytes && r.page < |pages| && r.page !in residents
      requires bytes - Bytes(pages, Elements(victims)) + pages[r.page].charge <= cfg.capacity
      modifies this`residents, this`bytes, this`metrics
      ensures State() == Admitted(cfg, pages, old(State()), r, Elements(victims))
    {
      Evict(victims);
      assert r.page !in residents && bytes + pages[r.page].charge <= cfg.capacity;
      bytes := bytes + pages[r.page].charge;
      residents := residents[r.page := Resident(touch, if cfg.Segmented() then Probation else Lru)];
      metrics := metrics.(admissions := metrics.admissions + 1, peakBytes := Max(metrics.peakBytes, bytes));
    }

    // -------------------------------------------------------------- one demand

    method ServeHit(r: Request)
      requires r.page in residents && InCatalogue(pages, residents)
      modifies this
      ensures State() == Served(cfg, pages, old(State()), r)
    {
      metrics := metrics.(hits := metrics.hits + 1);
      if Promotes(cfg, pages, residents, r.page) {
        residents := residents[r.page := Resident(touch, Protected)];
        RebalanceProtected(touch);
      } else {
        residents := residents[r.page := residents[r.page].(lastTouch := touch)];
      }
    }

    method Enter(r: Request)
      requires sketch.config == cfg.sketch && TinyLfu.WellFormed(cfg.sketch, sketch.State())
      modifies this, sketch
      ensures State() == Entered(cfg, old(State()), r)
    {
      scores := Unexpired(cfg, scores, r.id, r.step);
      if cfg.policy.TinyLfuPolicy? {
        sketch.Observe(r.page);
      }
      metrics := metrics.(accesses := metrics.accesses + 1);
      touch := touch + 1;
    }

    /** Admits a missed page over the planned victims, or bypasses it. */
    method Fill(r: Request)
      requires Ledger(cfg, pages, State()) && TinyLfu.WellFormed(cfg.sketch, sketch.State())
      requires r.page < |pages| && r.page !in residents && pages[r.page].charge <= cfg.capacity
      modifies this`residents, this`bytes, this`metrics
      ensures
        var victims := Victims(cfg, pages, old(State()), r);
        && Bytes(pages, victims) <= old(bytes)
        && State() == if Admits(cfg, pages, old(State()), r, victims)
                      then Admitted(cfg, pages, old(State()), r, victims) else Bypassed(old(State()))
    {
      ghost var m := State();
      var victims := PlanVictims(cfg, pages, State(), r);
      var admit := Admissible(cfg, pages, State(), r, victims);
      TotalMonotone(Elements(victims), residents.Keys, Charge(pages));
      VictimsMakeRoom(cfg, pages, m, r);
      if admit {
        Replace(r, victims);
      } else {
        metrics := metrics.(bypasses := metrics.bypasses + 1);
      }
    }

    /** Serves one demand; `ok` is false exactly when the load-byte counter would overflow. */
    method HandleDemand(r: Request) returns (ok: bool)
      requires Valid() && r.page < |pages| && metrics.accesses < MAX_U64 && metrics.loadBytes <= MAX_U64
      modifies this, sketch
      ensures ok <==> AfterDemand(cfg, pages, old(State()), r).metrics.loadBytes <= MAX_U64
      ensures ok ==> Valid() && State() == AfterDemand(cfg, pages, old(State()), r)
    {
      ghost var before := State();
      StepKeepsInv(cfg, pages, before, Demand(r.id, r.step, r.page));
      Enter(r);
      if r.page in residents {
        ServeHit(r);
        return true;
      }
      if metrics.loadBytes + pages[r.page].logical > MAX_U64 {
        return false;
      }
      metrics := metrics.(misses := metrics.misses + 1, loadBytes := metrics.loadBytes + pages[r.page].logical);
      ghost var m := State();
      assert m == Missed(pages, Entered(cfg, before, r), r);
      ok := true;
      if pages[r.page].charge > cfg.capacity {
        metrics := metrics.(bypasses := metrics.bypasses + 1);
      } else {
        Fill(r);
      }
    }
  }

  datatype Outcome = Replayed(metrics: Metrics, finalBytes: nat) | BadArgument | LoadCounterOverflow

  /** The argument ranges are accepted and every counter a bounded trace can reach fits 64 bits. */
  predicate Accepted(cfg: Config) {
    && cfg.capacity <= MAX_U64 && cfg.protectedFractionPpm <= PPM && cfg.minimumScorePpm <= PPM
    && 0 < cfg.maxExperts <= MAX_U32
    && (cfg.policy.TinyLfuPolicy? ==> cfg.sketch.InRange())
  }

  lemma StepLoadsMore(cfg: Config, pages: seq<Page>, s: State, e: Event)
    requires Inv(cfg, pages, s) && Known(pages, e)
    ensures s.metrics.loadBytes <= Step(cfg, pages, s, e).metrics.loadBytes
    ensures Step(cfg, pages, s, e).metrics.accesses <= s.metrics.accesses + 1
  {}

  lemma {:induction false} LoadBytesGrow(cfg: Config, pages: seq<Page>, events: seq<Event>, n: nat)
    requires cfg.Valid() && AllKnown(pages, events) && n <= |events|
    ensures Run(cfg, pages, events[..n]).metrics.loadBytes <= Run(cfg, pages, events).metrics.loadBytes
    decreases |events| - n
  {
    if n == |events| {
      assert events[..n] == events;
    } else {
      assert events[..n + 1][..n] == events[..n];
      StepLoadsMore(cfg, pages, Run(cfg, pages, events[..n]), events[n]);
      LoadBytesGrow(cfg, pages, events, n + 1);
    }
  }

  lemma {:induction false} AccessesBounded(cfg: Config, pages: seq<Page>, events: seq<Event>)
    requires cfg.Valid() && AllKnown(pages, events)
    ensures Run(cfg, pages, events).metrics.accesses <= |events|
  {
    if events != [] {
      var prior := events[..|events| - 1];
      AccessesBounded(cfg, pages, prior);
      StepLoadsMore(cfg, pages, Run(cfg, pages, prior), events[|events| - 1]);
    }
  }

  /** The sketch is only built for the TinyLFU policy; any valid one serves the others. */
  function Usable(cfg: Config): Config {
    if cfg.policy.TinyLfuPolicy? then cfg else cfg.(sketch := TinyLfu.SketchConfig(1, 64, 1, (p, row) => 0))
  }

  /** Replays a parsed trace. It reports the metrics of `Run` unless the argument ranges are
      rejected or the bytes loaded by misses exceed 64 bits, and it fails in no other way. */
  method Simulate(cfg: Config, pages: seq<Page>, events: seq<Event>) returns (out: Outcome)
    requires |events| <= MAX_EVENTS && AllKnown(pages, events)
    requires cfg.sketch.InRange() ==> cfg.sketch.Valid()
    ensures out == BadArgument <==> !Accepted(cfg)
    ensures Accepted(cfg) ==>
      && Usable(cfg).Valid()
      && var end := Run(Usable(cfg), pages, events);
      out == if end.metrics.loadBytes <= MAX_U64 then Replayed(end.metrics, end.bytes) else LoadCounterOverflow
  {
    if !Accepted(cfg) {
      return BadArgument;
    }
    out := Replay(Usable(cfg), pages, events);
  }

  lemma NothingRun(cfg: Config, pages: seq<Page>)
    requires cfg.Valid()
    ensures Run(cfg, pages, []) == Start(cfg)
  {}

  lemma RunStep(cfg: Config, pages: seq<Page>, events: seq<Event>, i: nat)
    requires cfg.Valid() && AllKnown(pages, events) && i < |events|
    ensures Run(cfg, pages, events[..i + 1]) == Step(cfg, pages, Run(cfg, pages, events[..i]), events[i])
  {
    hide Step, Inv;
    assert events[..i + 1][..i] == events[..i];
  }

  method Replay(cfg: Config, pages: seq<Page>, events: seq<Event>) returns (out: Outcome)
    requires cfg.Valid() && |events| <= MAX_EVENTS && AllKnown(pages, events)
    ensures
      var end := Run(cfg, pages, events);
      out == if end.metrics.loadBytes <= MAX_U64 then Replayed(end.metrics, end.bytes) else LoadCounterOverflow
  {
    var sim := new Simulator(cfg, pages);
    hide Run, AfterDemand, Inv;
    NothingRun(cfg, pages);
    for i := 0 to |events|
      invariant fresh(sim) && fresh(sim.sketch) && sim.cfg == cfg && sim.pages == pages
      invariant sim.Valid() && sim.State() == Run(cfg, pages, events[..i])
      invariant sim.metrics.loadBytes <= MAX_U64
    {
      RunStep(cfg, pages, events, i);
      AccessesBounded(cfg, pages, events[..i]);
      var e := events[i];
      match e {
        case Signal(_, _, _, _) => sim.HandleSignal(e);
        case Demand(request, step, page) =>
          var ok := sim.HandleDemand(Request(request, step, page));
          if !ok {
            LoadBytesGrow(cfg, pages, events, i + 1);
            return LoadCounterOverflow;
          }
      }
    }
    assert events[..|events|] == events;
    assert sim.metrics.hits + sim.metrics.misses == sim.metrics.accesses;
    out := Replayed(sim.metrics, sim.bytes);
  }
}
