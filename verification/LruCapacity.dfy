/** When a larger LRU cache can never do worse: inclusion of residents over every trace,
    with the exact condition on the catalogue, and its effect on hits and loaded bytes. */
module LruCapacity {
  import opened Common
  import opened Totals
  import opened CacheModel
  import opened LruTheory

  ghost predicate LruPair(lo: Config, hi: Config) {
    && lo.Valid() && hi.Valid() && lo.policy.LruPolicy? && hi.policy.LruPolicy?
    && lo.capacity <= hi.capacity
  }

  /** Pages the larger cache admits and the smaller one must bypass. */
  ghost function Straddling(pages: seq<Page>, lo: nat, hi: nat): set<nat> {
    set p: nat | p < |pages| && lo < pages[p].charge <= hi
  }

  ghost predicate FillsSmaller(pages: seq<Page>, lo: nat, group: set<nat>) {
    && group != {}
    && (forall p | p in group :: p < |pages| && pages[p].charge <= lo)
    && Bytes(pages, group) <= lo
  }

  /** No group of pages that fits the smaller cache is pushed out of the larger one by the
      pages only the larger one admits. True in particular when every page fits the smaller. */
  ghost predicate NoPollution(pages: seq<Page>, lo: nat, hi: nat) {
    forall group: set<nat> | FillsSmaller(pages, lo, group) ::
      Bytes(pages, group) + Bytes(pages, Straddling(pages, lo, hi)) <= hi
  }

  /** Two pages are enough for the condition to fail: capacities 1 and 2, charges 1 and 2. */
  lemma TwoPagesPollute(pages: seq<Page>)
    requires |pages| == 2 && pages[0].charge == 1 && pages[1].charge == 2
    ensures !NoPollution(pages, 1, 2)
  {
    assert Straddling(pages, 1, 2) == {1};
    OnePage(pages, 0);
    OnePage(pages, 1);
    assert FillsSmaller(pages, 1, {0});
  }

  lemma OnePage(pages: seq<Page>, p: nat)
    requires p < |pages|
    ensures Bytes(pages, {p}) == pages[p].charge
  {
    TotalRemove({p}, Charge(pages), p);
    assert {p} - {p} == {};
  }

  lemma AllFitMeansNoPollution(pages: seq<Page>, lo: nat, hi: nat)
    requires lo <= hi && forall i | 0 <= i < |pages| :: pages[i].charge <= lo
    ensures NoPollution(pages, lo, hi)
  {
    assert Straddling(pages, lo, hi) == {};
  }

  ghost predicate Included(lo: Config, hi: Config, pages: seq<Page>, events: seq<Event>)
    requires LruPair(lo, hi) && AllKnown(pages, events)
  {
    Run(lo, pages, events).residents.Keys <= Run(hi, pages, events).residents.Keys
  }

  lemma InclusionHolds(lo: Config, hi: Config, pages: seq<Page>, events: seq<Event>)
    requires LruPair(lo, hi) && AllKnown(pages, events) && NoPollution(pages, lo.capacity, hi.capacity)
    ensures Included(lo, hi, pages, events)
  {
    hide Run, Reusable, NoPollution, AllKnown;
    LruIsReuseDistance(lo, pages, events);
    LruIsReuseDistance(hi, pages, events);
    forall p | p in Run(lo, pages, events).residents
      ensures p in Run(hi, pages, events).residents
    {
      StillReusable(pages, lo.capacity, hi.capacity, events, p);
    }
  }

  lemma StillReusable(pages: seq<Page>, lo: nat, hi: nat, events: seq<Event>, p: nat)
    requires lo <= hi && NoPollution(pages, lo, hi) && Reusable(pages, lo, events, p)
    ensures Reusable(pages, hi, events, p)
  {
    hide Total;
    var near := Since(pages, lo, events, p);
    var far := Since(pages, hi, events, p);
    var extra := Straddling(pages, lo, hi);
    assert p in near;
    assert FillsSmaller(pages, lo, near);
    assert far <= near + extra;
    TotalMonotone(far, near + extra, Charge(pages));
    TotalUnion(near, extra, Charge(pages));
  }

  // ---------------------------------------------------------------- the polluting trace

  ghost function Demands(order: seq<nat>): seq<Event> {
    seq(|order|, i requires 0 <= i < |order| => Demand(0, 0, order[i]))
  }

  lemma {:induction false} DemandsPositions(order: seq<nat>, p: nat)
    requires Distinct(order)
    ensures Clock(Demands(order)) == |order|
    ensures forall i | 0 <= i < |order| && order[i] == p :: LastDemand(Demands(order), p) == i + 1
    ensures p !in order ==> LastDemand(Demands(order), p) == 0
  {
    if order != [] {
      var prior := order[..|order| - 1];
      DemandsPositions(prior, p);
      var e := Demand(0, 0, order[|order| - 1]);
      DemandsAppend(order);
      hide Demands, LastDemand, Clock;
      AppendDemand(Demands(prior), e, p);
      assert order == prior + [e.page];
    }
  }

  lemma DemandsAppend(order: seq<nat>)
    requires order != []
    ensures Demands(order) == Demands(order[..|order| - 1]) + [Demand(0, 0, order[|order| - 1])]
  {}

  lemma {:induction false} Enumerate(s: set<nat>) returns (order: seq<nat>)
    ensures |order| == |s| && forall p: nat :: p in order <==> p in s
    ensures Distinct(order)
  {
    if s == {} {
      order := [];
    } else {
      var x :| x in s;
      var rest := Enumerate(s - {x});
      order := rest + [x];
    }
  }

  lemma ConcatDistinct(first: seq<nat>, second: seq<nat>)
    requires Distinct(first) && Distinct(second) && forall p | p in first :: p !in second
    ensures Distinct(first + second)
  {
    var order := first + second;
    forall i, j | 0 <= i < j < |order| ensures order[i] != order[j] {
      if i < |first| <= j {
        assert first[i] in first && second[j - |first|] in second;
      }
    }
  }

  /** A group violating the condition is driven out of the larger cache but not the smaller. */
  lemma PollutingTrace(lo: Config, hi: Config, pages: seq<Page>, group: set<nat>) returns (order: seq<nat>)
    requires LruPair(lo, hi) && FillsSmaller(pages, lo.capacity, group)
    requires Bytes(pages, group) + Bytes(pages, Straddling(pages, lo.capacity, hi.capacity)) > hi.capacity
    ensures order != [] && Distinct(order) && AllKnown(pages, Demands(order))
    ensures order[0] in Run(lo, pages, Demands(order)).residents
    ensures order[0] !in Run(hi, pages, Demands(order)).residents
  {
    var extra := Straddling(pages, lo.capacity, hi.capacity);
    var first := Enumerate(group);
    var second := Enumerate(extra);
    order := first + second;
    var events := Demands(order);
    ConcatDistinct(first, second);
    var p := first[0];
    forall i | 0 <= i < |events| ensures Known(pages, events[i]) {
      assert order[i] in group || order[i] in extra;
    }
    forall q: nat ensures LastDemand(events, q) >= LastDemand(events, p) <==> q in group || q in extra {
      DemandsPositions(order, q);
      DemandsPositions(order, p);
      assert order[0] == p;
      if q in group || q in extra {
        assert q in order;
        var i :| 0 <= i < |order| && order[i] == q;
      }
    }
    assert Since(pages, lo.capacity, events, p) == group;
    assert Since(pages, hi.capacity, events, p) == group + extra;
    TotalUnion(group, extra, Charge(pages));
    DemandsPositions(order, p);
    LruIsReuseDistance(lo, pages, events);
    LruIsReuseDistance(hi, pages, events);
    assert Reusable(pages, lo.capacity, events, p);
    assert !Reusable(pages, hi.capacity, events, p);
  }

  /** The smaller cache is contained in the larger one after every trace if and only if no
      fitting group can be polluted. */
  lemma InclusionExactly(lo: Config, hi: Config, pages: seq<Page>)
    requires LruPair(lo, hi)
    ensures NoPollution(pages, lo.capacity, hi.capacity) <==>
      forall events: seq<Event> | AllKnown(pages, events) :: Included(lo, hi, pages, events)
  {
    if NoPollution(pages, lo.capacity, hi.capacity) {
      forall events: seq<Event> | AllKnown(pages, events) ensures Included(lo, hi, pages, events) {
        InclusionHolds(lo, hi, pages, events);
      }
    } else {
      var group: set<nat> :| FillsSmaller(pages, lo.capacity, group) &&
        Bytes(pages, group) + Bytes(pages, Straddling(pages, lo.capacity, hi.capacity)) > hi.capacity;
      var order := PollutingTrace(lo, hi, pages, group);
      assert !Included(lo, hi, pages, Demands(order));
    }
  }

  /** A step counts a hit exactly when the page is resident, and loads it otherwise. */
  lemma StepCounts(cfg: Config, pages: seq<Page>, s: State, e: Event)
    requires Inv(cfg, pages, s) && Known(pages, e)
    ensures
      var t := Step(cfg, pages, s, e);
      var miss := e.Demand? && e.page !in s.residents;
      && t.metrics.hits == s.metrics.hits + (if e.Demand? && !miss then 1 else 0)
      && t.metrics.loadBytes == s.metrics.loadBytes + (if miss then pages[e.page].logical else 0)
  {}

  /** With more capacity the hits never fall and the loaded bytes never rise, at every point
      of every trace. */
  lemma {:induction false} MoreCapacityNeverHurts(lo: Config, hi: Config, pages: seq<Page>, events: seq<Event>)
    requires LruPair(lo, hi) && AllKnown(pages, events) && NoPollution(pages, lo.capacity, hi.capacity)
    ensures Run(lo, pages, events).metrics.hits <= Run(hi, pages, events).metrics.hits
    ensures Run(lo, pages, events).metrics.loadBytes >= Run(hi, pages, events).metrics.loadBytes
  {
    if events != [] {
      var prior := events[..|events| - 1];
      MoreCapacityNeverHurts(lo, hi, pages, prior);
      InclusionHolds(lo, hi, pages, prior);
      StepCounts(lo, pages, Run(lo, pages, prior), events[|events| - 1]);
      StepCounts(hi, pages, Run(hi, pages, prior), events[|events| - 1]);
    }
  }

  lemma NeverDemanded(cfg: Config, pages: seq<Page>, events: seq<Event>, p: nat)
    requires cfg.Valid() && cfg.policy.LruPolicy? && AllKnown(pages, events) && LastDemand(events, p) == 0
    ensures p !in Run(cfg, pages, events).residents
  {
    LruIsReuseDistance(cfg, pages, events);
  }

  /** The bytes loaded when every demand misses. */
  function Loads(pages: seq<Page>, order: seq<nat>): nat {
    if order == [] then 0
    else
      var last := order[|order| - 1];
      Loads(pages, order[..|order| - 1]) + if last < |pages| then pages[last].logical else 0
  }

  /** First demands always miss. */
  lemma {:induction false} DistinctDemandsMiss(cfg: Config, pages: seq<Page>, order: seq<nat>)
    requires cfg.Valid() && cfg.policy.LruPolicy? && Distinct(order) && AllKnown(pages, Demands(order))
    ensures Run(cfg, pages, Demands(order)).metrics.hits == 0
    ensures Run(cfg, pages, Demands(order)).metrics.loadBytes == Loads(pages, order)
  {
    if order != [] {
      var prior := order[..|order| - 1];
      var e := Demand(0, 0, order[|order| - 1]);
      var events := Demands(order);
      assert events[..|events| - 1] == Demands(prior) && events[|events| - 1] == e;
      forall i | 0 <= i < |prior| ensures Known(pages, Demands(prior)[i]) {
        assert Demands(prior)[i] == events[i];
      }
      DistinctDemandsMiss(cfg, pages, prior);
      DemandsPositions(prior, e.page);
      NeverDemanded(cfg, pages, Demands(prior), e.page);
      StepCounts(cfg, pages, Run(cfg, pages, Demands(prior)), e);
    }
  }

  ghost predicate HitsNeverFall(lo: Config, hi: Config, pages: seq<Page>, events: seq<Event>)
    requires LruPair(lo, hi) && AllKnown(pages, events)
  {
    Run(lo, pages, events).metrics.hits <= Run(hi, pages, events).metrics.hits
  }

  /** The same condition is exact for the hit counter: without it, some trace gives the larger
      cache fewer hits. */
  ghost predicate NeverFewerHits(lo: Config, hi: Config, pages: seq<Page>)
    requires LruPair(lo, hi)
  {
    forall events: seq<Event> | AllKnown(pages, events) :: HitsNeverFall(lo, hi, pages, events)
  }

  lemma HitsNeverFallExactly(lo: Config, hi: Config, pages: seq<Page>)
    requires LruPair(lo, hi)
    ensures NoPollution(pages, lo.capacity, hi.capacity) <==> NeverFewerHits(lo, hi, pages)
  {
    if NoPollution(pages, lo.capacity, hi.capacity) {
      hide NoPollution, Run;
      forall events: seq<Event> | AllKnown(pages, events) ensures HitsNeverFall(lo, hi, pages, events) {
        MoreCapacityNeverHurts(lo, hi, pages, events);
      }
    } else {
      hide HitsNeverFall, Bytes;
      var group: set<nat> :| FillsSmaller(pages, lo.capacity, group) &&
        Bytes(pages, group) + Bytes(pages, Straddling(pages, lo.capacity, hi.capacity)) > hi.capacity;
      var events := PollutionCosts(lo, hi, pages, group);
      assert !HitsNeverFall(lo, hi, pages, events);
    }
  }

  ghost predicate LoadsNeverRise(lo: Config, hi: Config, pages: seq<Page>, events: seq<Event>)
    requires LruPair(lo, hi) && AllKnown(pages, events)
  {
    Run(hi, pages, events).metrics.loadBytes <= Run(lo, pages, events).metrics.loadBytes
  }

  ghost predicate NeverMoreLoads(lo: Config, hi: Config, pages: seq<Page>)
    requires LruPair(lo, hi)
  {
    forall events: seq<Event> | AllKnown(pages, events) :: LoadsNeverRise(lo, hi, pages, events)
  }

  /** And it is exact for the loaded bytes: a catalogue has positive sizes. */
  lemma LoadsNeverRiseExactly(lo: Config, hi: Config, pages: seq<Page>)
    requires LruPair(lo, hi) && forall i | 0 <= i < |pages| :: pages[i].logical > 0
    ensures NoPollution(pages, lo.capacity, hi.capacity) <==> NeverMoreLoads(lo, hi, pages)
  {
    if NoPollution(pages, lo.capacity, hi.capacity) {
      hide NoPollution, Run;
      forall events: seq<Event> | AllKnown(pages, events) ensures LoadsNeverRise(lo, hi, pages, events) {
        MoreCapacityNeverHurts(lo, hi, pages, events);
      }
    } else {
      hide LoadsNeverRise, Bytes;
      var group: set<nat> :| FillsSmaller(pages, lo.capacity, group) &&
        Bytes(pages, group) + Bytes(pages, Straddling(pages, lo.capacity, hi.capacity)) > hi.capacity;
      var events := PollutionCosts(lo, hi, pages, group);
      assert !LoadsNeverRise(lo, hi, pages, events);
    }
  }

  /** Demanding the group, then the pages only the larger cache admits, then the first page again. */
  lemma PollutionCosts(lo: Config, hi: Config, pages: seq<Page>, group: set<nat>) returns (events: seq<Event>)
    requires LruPair(lo, hi) && FillsSmaller(pages, lo.capacity, group)
    requires Bytes(pages, group) + Bytes(pages, Straddling(pages, lo.capacity, hi.capacity)) > hi.capacity
    ensures AllKnown(pages, events) && !HitsNeverFall(lo, hi, pages, events)
    ensures (forall i | 0 <= i < |pages| :: pages[i].logical > 0) ==> !LoadsNeverRise(lo, hi, pages, events)
  {
    hide Run, Step, Bytes, FillsSmaller;
    var order := PollutingTrace(lo, hi, pages, group);
    var e := Demand(0, 0, order[0]);
    assert Known(pages, Demands(order)[0]);
    events := Demands(order) + [e];
    DistinctDemandsMiss(lo, pages, order);
    DistinctDemandsMiss(hi, pages, order);
    OneMoreEvent(lo, pages, Demands(order), e);
    OneMoreEvent(hi, pages, Demands(order), e);
  }

  lemma OneMoreEvent(cfg: Config, pages: seq<Page>, events: seq<Event>, e: Event)
    requires cfg.Valid() && AllKnown(pages, events) && e.Demand? && Known(pages, e)
    ensures AllKnown(pages, events + [e])
    ensures Run(cfg, pages, events + [e]).metrics.hits
      == Run(cfg, pages, events).metrics.hits + if e.page in Run(cfg, pages, events).residents then 1 else 0
    ensures Run(cfg, pages, events + [e]).metrics.loadBytes == Run(cfg, pages, events).metrics.loadBytes
      + if e.page in Run(cfg, pages, events).residents then 0 else pages[e.page].logical
  {
    hide Step;
    assert (events + [e])[..|events|] == events;
    StepCounts(cfg, pages, Run(cfg, pages, events), e);
  }
}
