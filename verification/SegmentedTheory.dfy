/** Segmented LRU and router admission over whole runs: the protected segment, scan
    resistance, and how the policies refine one another. */
module SegmentedTheory {
  import opened Totals
  import opened CacheModel

  // ---------------------------------------------------------------- promotion

  /** The youngest protected page, within the target on its own, survives rebalancing. */
  lemma YoungestStays(pages: seq<Page>, residents: Residents, p: nat, target: nat)
    requires p in ProtectedPages(residents) && p < |pages| && pages[p].charge <= target
    requires forall q | q in ProtectedPages(residents) && q != p :: residents[q].lastTouch < residents[p].lastTouch
    ensures p !in Demoted(pages, residents, target)
  {
    assert NotOlder(residents, p) == {} + {p};
    TotalAdd({}, Charge(pages), p);
  }

  /** A promoting hit leaves the page protected, demotes only protected pages, and ends with
      the protected bytes within the target. */
  lemma HitNeverDemotesItself(cfg: Config, pages: seq<Page>, residents: Residents, p: nat, touch: nat)
    requires p < |pages| && p in residents && Promotes(cfg, pages, residents, p)
    requires forall q | q in residents :: residents[q].lastTouch < touch
    ensures
      var t := AfterHit(cfg, pages, residents, p, touch);
      && t.Keys == residents.Keys && t[p] == Resident(touch, Protected)
      && (forall q | q in residents && q != p && residents[q].segment != Protected :: t[q] == residents[q])
      && Bytes(pages, ProtectedPages(t)) <= cfg.Target()
  {
    var raised := residents[p := Resident(touch, Protected)];
    YoungestStays(pages, raised, p, cfg.Target());
    RebalancedWithinTarget(pages, raised, cfg.Target(), touch);
  }

  // ---------------------------------------------------------------- scan resistance

  /** The protected entries with their touch stamps. */
  ghost function ProtectedPart(residents: Residents): Residents {
    map p | p in residents && residents[p].segment == Protected :: residents[p]
  }

  /** A probationary page is always evicted before a protected one. */
  lemma ProbationGoesFirst(cfg: Config, pages: seq<Page>, s: State, r: Request, p: nat)
    requires cfg.Segmented() && InCatalogue(pages, s.residents) && SegmentDiscipline(cfg, pages, s.residents)
    requires p in ProtectedPages(s.residents)
    ensures s.residents.Keys - ProtectedPages(s.residents) <= AheadOf(cfg, pages, s, r, p)
  {}

  lemma ScanSparesProtected(cfg: Config, pages: seq<Page>, s: State, r: Request)
    requires cfg.Segmented() && Ledger(cfg, pages, s) && SegmentDiscipline(cfg, pages, s.residents)
    requires r.page < |pages| && pages[r.page].charge + cfg.Target() <= cfg.capacity
    ensures Victims(cfg, pages, s, r) !! ProtectedPages(s.residents)
  {
    var kept := ProtectedPages(s.residents);
    var rest := s.residents.Keys - kept;
    TotalSplit(s.residents.Keys, kept, Charge(pages));
    forall p | p in kept ensures p !in Victims(cfg, pages, s, r) {
      ProbationGoesFirst(cfg, pages, s, r, p);
      TotalMonotone(rest, AheadOf(cfg, pages, s, r, p), Charge(pages));
    }
  }

  ghost predicate Scans(cfg: Config, pages: seq<Page>, s: State, e: Event)
    requires Known(pages, e)
  {
    e.Demand? ==> e.page !in s.residents && pages[e.page].charge + cfg.Target() <= cfg.capacity
  }

  lemma ScanStep(cfg: Config, pages: seq<Page>, s: State, e: Event, t: State)
    requires cfg.Segmented() && Inv(cfg, pages, s) && Known(pages, e) && Scans(cfg, pages, s, e)
    requires t == Step(cfg, pages, s, e)
    ensures ProtectedPart(t.residents) == ProtectedPart(s.residents)
  {
    if e.Demand? { MissKeepsProtected(cfg, pages, s, e); }
  }

  lemma MissKeepsProtected(cfg: Config, pages: seq<Page>, s: State, e: Event)
    requires cfg.Segmented() && Inv(cfg, pages, s) && e.Demand? && e.page < |pages| && e.page !in s.residents
    requires pages[e.page].charge + cfg.Target() <= cfg.capacity
    ensures ProtectedPart(Step(cfg, pages, s, e).residents) == ProtectedPart(s.residents)
  {
    var r := Request(e.request, e.step, e.page);
    var m := Missed(pages, Entered(cfg, s, r), r);
    hide Victims, Bytes, AfterDemand, Admitted;
    MissOutcome(cfg, pages, s, r);
    ScanSparesProtected(cfg, pages, m, r);
    AdmissionSpares(cfg, pages, m, r, Victims(cfg, pages, m, r));
  }

  lemma AdmissionSpares(cfg: Config, pages: seq<Page>, s: State, r: Request, victims: set<nat>)
    requires cfg.Segmented() && r.page < |pages| && Bytes(pages, victims) <= s.bytes && r.page !in s.residents
    requires victims !! ProtectedPages(s.residents)
    ensures ProtectedPart(Admitted(cfg, pages, s, r, victims).residents) == ProtectedPart(s.residents)
  {
    hide Bytes;
  }

  /** Every demand of `scan` misses, on a page that fits beside a full protected segment. */
  ghost predicate IsScan(cfg: Config, pages: seq<Page>, events: seq<Event>, scan: seq<Event>)
    requires cfg.Valid() && AllKnown(pages, events) && AllKnown(pages, scan)
  {
    scan != [] ==>
      var prior := scan[..|scan| - 1];
      var e := scan[|scan| - 1];
      && IsScan(cfg, pages, events, prior)
      && Scans(cfg, pages, Run(cfg, pages, events + prior), e)
  }

  /** However long a scan is, the protected segment comes out of it untouched. */
  lemma {:induction false} ScanResistance(cfg: Config, pages: seq<Page>, events: seq<Event>, scan: seq<Event>)
    requires cfg.Segmented() && cfg.Valid() && AllKnown(pages, events) && AllKnown(pages, scan)
    requires IsScan(cfg, pages, events, scan)
    ensures ProtectedPart(Run(cfg, pages, events + scan).residents) == ProtectedPart(Run(cfg, pages, events).residents)
  {
    hide Scans, ProtectedPart, Inv, Step;
    if scan == [] {
      assert events + scan == events;
    } else {
      var prior := scan[..|scan| - 1];
      var e := scan[|scan| - 1];
      var all := events + scan;
      assert all[..|all| - 1] == events + prior && all[|all| - 1] == e;
      ScanResistance(cfg, pages, events, prior);
      ScanStep(cfg, pages, Run(cfg, pages, events + prior), e, Run(cfg, pages, all));
    }
  }

  // ---------------------------------------------------------------- SLRU refines LRU at target zero

  ghost function OnProbation(residents: Residents): Residents {
    map p | p in residents :: residents[p].(segment := Probation)
  }

  /** The LRU state with every page labelled probationary. */
  ghost function Labelled(s: State): State { s.(residents := OnProbation(s.residents)) }

  ghost predicate ZeroTarget(lru: Config, slru: Config) {
    && lru.Valid() && slru.Valid() && lru.policy.LruPolicy? && slru.policy.SlruPolicy?
    && slru.Target() == 0 && slru.capacity == lru.capacity && slru.sketch == lru.sketch
  }

  lemma LabelledVictims(lru: Config, slru: Config, pages: seq<Page>, s: State, r: Request)
    requires ZeroTarget(lru, slru) && Ledger(lru, pages, s) && r.page < |pages|
    ensures Victims(slru, pages, Labelled(s), r) == Victims(lru, pages, s, r)
  {
    forall p | p in s.residents
      ensures AheadOf(slru, pages, Labelled(s), r, p) == AheadOf(lru, pages, s, r, p)
    {
      assert forall q | q in s.residents :: VictimKey(slru, pages, Labelled(s), r, q) == VictimKey(lru, pages, s, r, q);
    }
  }

  lemma LabelledInv(lru: Config, slru: Config, pages: seq<Page>, s: State)
    requires ZeroTarget(lru, slru) && Inv(lru, pages, s)
    ensures Inv(slru, pages, Labelled(s))
  {
    assert Labelled(s).residents.Keys == s.residents.Keys;
    assert ProtectedPages(Labelled(s).residents) == {};
  }

  lemma LabelledAdmission(lru: Config, slru: Config, pages: seq<Page>, s: State, r: Request, victims: set<nat>)
    requires ZeroTarget(lru, slru) && r.page < |pages| && Bytes(pages, victims) <= s.bytes
    ensures Labelled(Admitted(lru, pages, s, r, victims)) == Admitted(slru, pages, Labelled(s), r, victims)
  {
    assert Labelled(Admitted(lru, pages, s, r, victims)).residents
      == Admitted(slru, pages, Labelled(s), r, victims).residents;
  }

  lemma LabelledHit(lru: Config, slru: Config, pages: seq<Page>, s: State, r: Request)
    requires ZeroTarget(lru, slru) && Inv(lru, pages, s) && Inv(slru, pages, Labelled(s)) && r.page in s.residents
    requires r.page < |pages|
    ensures AfterDemand(slru, pages, Labelled(s), r) == Labelled(AfterDemand(lru, pages, s, r))
  {
    hide Bytes;
    assert AfterDemand(slru, pages, Labelled(s), r).residents == Labelled(AfterDemand(lru, pages, s, r)).residents;
  }

  lemma LabelledStep(lru: Config, slru: Config, pages: seq<Page>, s: State, e: Event)
    requires ZeroTarget(lru, slru) && Inv(lru, pages, s) && Inv(slru, pages, Labelled(s)) && Known(pages, e)
    ensures Step(slru, pages, Labelled(s), e) == Labelled(Step(lru, pages, s, e))
  {
    if e.Demand? {
      var r := Request(e.request, e.step, e.page);
      if r.page in s.residents {
        LabelledHit(lru, slru, pages, s, r);
      } else {
        hide Victims, Bytes, Admitted;
        var m := Missed(pages, Entered(lru, s, r), r);
        assert Missed(pages, Entered(slru, Labelled(s), r), r) == Labelled(m);
        if pages[r.page].charge <= lru.capacity {
          LabelledVictims(lru, slru, pages, m, r);
          VictimsResident(lru, pages, m, r);
          LabelledAdmission(lru, slru, pages, m, r, Victims(lru, pages, m, r));
        }
      }
    }
  }

  /** SLRU with a zero protected target replays every trace exactly as LRU: same residents,
      touch stamps, ledger and metrics. */
  lemma {:induction false} ZeroTargetSlruIsLru(lru: Config, slru: Config, pages: seq<Page>, events: seq<Event>)
    requires ZeroTarget(lru, slru) && AllKnown(pages, events)
    ensures Run(slru, pages, events) == Labelled(Run(lru, pages, events))
  {
    if events == [] {
      assert OnProbation(map[]) == map[];
    } else {
      var prior := events[..|events| - 1];
      ZeroTargetSlruIsLru(lru, slru, pages, prior);
      LabelledInv(lru, slru, pages, Run(lru, pages, prior));
      LabelledStep(lru, slru, pages, Run(lru, pages, prior), events[|events| - 1]);
    }
  }

  // ---------------------------------------------------------------- silent router refines SLRU

  ghost predicate SameButRouter(slru: Config, router: Config) {
    && slru.Valid() && router.Valid() && slru.policy.SlruPolicy? && router.policy.RouterAdmitPolicy?
    && slru.capacity == router.capacity && slru.protectedFractionPpm == router.protectedFractionPpm
    && slru.sketch == router.sketch
  }

  /** No prediction of the trace reaches the minimum score. */
  ghost predicate Silent(router: Config, events: seq<Event>) {
    forall i, j | 0 <= i < |events| && events[i].Signal? && 0 <= j < |events[i].predictions| ::
      events[i].predictions[j].score < router.minimumScorePpm
  }

  lemma {:induction false} NothingRanked(predictions: seq<Prediction>, minimum: nat)
    requires forall j | 0 <= j < |predictions| :: predictions[j].score < minimum
    ensures Ranked(predictions, minimum) == []
  {
    if predictions != [] {
      NothingRanked(predictions[..|predictions| - 1], minimum);
    }
  }

  lemma SilentVictims(slru: Config, router: Config, pages: seq<Page>, s: State, r: Request)
    requires SameButRouter(slru, router) && Ledger(slru, pages, s) && s.scores == map[] && r.page < |pages|
    ensures Victims(router, pages, s, r) == Victims(slru, pages, s, r)
  {
    forall p | p in s.residents
      ensures AheadOf(router, pages, s, r, p) == AheadOf(slru, pages, s, r, p)
    {
      assert forall q | q in s.residents :: VictimKey(router, pages, s, r, q) == VictimKey(slru, pages, s, r, q);
    }
  }

  lemma SilentStep(slru: Config, router: Config, pages: seq<Page>, s: State, e: Event)
    requires SameButRouter(slru, router) && Inv(slru, pages, s) && Inv(router, pages, s) && s.scores == map[]
    requires Known(pages, e)
    requires e.Signal? ==> Ranked(e.predictions, router.minimumScorePpm) == []
    ensures Step(router, pages, s, e) == Step(slru, pages, s, e) && Step(slru, pages, s, e).scores == map[]
  {
    if e.Demand? {
      var r := Request(e.request, e.step, e.page);
      assert Unexpired(router, map[], r.id, r.step) == map[];
      assert Entered(router, s, r) == Entered(slru, s, r);
      if r.page !in s.residents && pages[r.page].charge <= slru.capacity {
        var m := Missed(pages, Entered(slru, s, r), r);
        SilentVictims(slru, router, pages, m, r);
      }
    }
  }

  /** Router admission on a trace whose predictions all fall below the minimum score replays
      exactly as SLRU with the same protected fraction. */
  lemma {:induction false} SilentRouterIsSlru(slru: Config, router: Config, pages: seq<Page>, events: seq<Event>)
    requires SameButRouter(slru, router) && AllKnown(pages, events) && Silent(router, events)
    ensures Run(router, pages, events) == Run(slru, pages, events)
    ensures Run(router, pages, events).scores == map[]
  {
    if events != [] {
      var prior := events[..|events| - 1];
      var e := events[|events| - 1];
      SilentRouterIsSlru(slru, router, pages, prior);
      if e.Signal? { NothingRanked(e.predictions, router.minimumScorePpm); }
      SilentStep(slru, router, pages, Run(slru, pages, prior), e);
    }
  }
}
