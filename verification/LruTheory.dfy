/** LRU over variable-size pages, characterised by byte reuse distance over whole runs. */
module LruTheory {
  import opened Totals
  import opened CacheModel

  /** The number of demands in a run. */
  ghost function Clock(events: seq<Event>): nat {
    if events == [] then 0
    else Clock(events[..|events| - 1]) + if events[|events| - 1].Demand? then 1 else 0
  }

  /** The position, among the demands, of the last demand of `p`; zero if there is none. */
  ghost function LastDemand(events: seq<Event>, p: nat): nat {
    if events == [] then 0
    else
      var last := events[|events| - 1];
      if last.Demand? && last.page == p then Clock(events) else LastDemand(events[..|events| - 1], p)
  }

  /** The distinct pages that fit the capacity and were demanded at or after the last demand of `p`. */
  ghost function Since(pages: seq<Page>, capacity: nat, events: seq<Event>, p: nat): set<nat> {
    set q: nat | q < |pages| && pages[q].charge <= capacity && LastDemand(events, q) >= LastDemand(events, p)
  }

  ghost function ReuseBytes(pages: seq<Page>, capacity: nat, events: seq<Event>, p: nat): nat {
    Bytes(pages, Since(pages, capacity, events, p))
  }

  /** The reuse-distance rule: demanded, fits, and everything demanded since fits with it. */
  ghost predicate Reusable(pages: seq<Page>, capacity: nat, events: seq<Event>, p: nat) {
    && p < |pages| && pages[p].charge <= capacity && LastDemand(events, p) > 0
    && ReuseBytes(pages, capacity, events, p) <= capacity
  }

  lemma {:induction false} LastDemandFacts(events: seq<Event>, p: nat, q: nat)
    ensures LastDemand(events, p) <= Clock(events)
    ensures LastDemand(events, p) == LastDemand(events, q) > 0 ==> p == q
  {
    if events != [] {
      var prior := events[..|events| - 1];
      LastDemandFacts(prior, p, q);
      LastDemandFacts(prior, q, p);
    }
  }

  lemma AppendDemand(events: seq<Event>, e: Event, p: nat)
    requires e.Demand?
    ensures Clock(events + [e]) == Clock(events) + 1
    ensures LastDemand(events + [e], p) == if p == e.page then Clock(events) + 1 else LastDemand(events, p)
  {
    assert (events + [e])[..|events + [e]| - 1] == events;
  }

  lemma AppendSignal(events: seq<Event>, e: Event, p: nat)
    requires e.Signal?
    ensures Clock(events + [e]) == Clock(events) && LastDemand(events + [e], p) == LastDemand(events, p)
  {
    assert (events + [e])[..|events + [e]| - 1] == events;
  }

  /** A demand of a fitting page joins the reuse set of every other page; nothing else changes. */
  lemma SinceAfterDemand(pages: seq<Page>, capacity: nat, events: seq<Event>, e: Event, p: nat)
    requires e.Demand? && e.page < |pages| && LastDemand(events, p) > 0 && p != e.page
    ensures Since(pages, capacity, events + [e], p) ==
      Since(pages, capacity, events, p) + if pages[e.page].charge <= capacity then {e.page} else {}
  {
    LastDemandFacts(events, p, p);
    forall q: nat
      ensures LastDemand(events + [e], q) == if q == e.page then Clock(events) + 1 else LastDemand(events, q)
    {
      AppendDemand(events, e, q);
    }
  }

  lemma SinceNested(pages: seq<Page>, capacity: nat, events: seq<Event>, p: nat, q: nat)
    requires LastDemand(events, p) <= LastDemand(events, q)
    ensures Since(pages, capacity, events, q) <= Since(pages, capacity, events, p)
    ensures ReuseBytes(pages, capacity, events, q) <= ReuseBytes(pages, capacity, events, p)
  {
    TotalMonotone(Since(pages, capacity, events, q), Since(pages, capacity, events, p), Charge(pages));
  }

  lemma ReusableAfterOwnDemand(pages: seq<Page>, capacity: nat, events: seq<Event>, e: Event)
    requires e.Demand? && e.page < |pages|
    ensures Reusable(pages, capacity, events + [e], e.page) <==> pages[e.page].charge <= capacity
  {
    forall q: nat ensures LastDemand(events + [e], q) < Clock(events) + 1 || q == e.page {
      AppendDemand(events, e, q);
      LastDemandFacts(events, q, q);
    }
    AppendDemand(events, e, e.page);
    var w := Charge(pages);
    if pages[e.page].charge <= capacity {
      assert Since(pages, capacity, events + [e], e.page) == {} + {e.page};
      TotalAdd({}, w, e.page);
    }
  }

  /** How one demand changes the rule for every other page. */
  lemma ReuseAfterDemand(pages: seq<Page>, capacity: nat, events: seq<Event>, e: Event, p: nat)
    requires e.Demand? && e.page < |pages| && p != e.page && LastDemand(events, p) > 0
    ensures LastDemand(events + [e], p) == LastDemand(events, p)
    ensures ReuseBytes(pages, capacity, events + [e], p) == ReuseBytes(pages, capacity, events, p)
      + if pages[e.page].charge <= capacity && e.page !in Since(pages, capacity, events, p)
        then pages[e.page].charge else 0
  {
    AppendDemand(events, e, p);
    SinceAfterDemand(pages, capacity, events, e, p);
    var s := Since(pages, capacity, events, p);
    if pages[e.page].charge > capacity {
      assert s + {} == s;
    } else if e.page in s {
      assert s + {e.page} == s;
    } else {
      TotalAdd(s, Charge(pages), e.page);
    }
  }

  // ---------------------------------------------------------------- the simulation

  ghost predicate Matches(pages: seq<Page>, capacity: nat, events: seq<Event>, s: State) {
    && s.touch == Clock(events)
    && (forall p: nat :: p in s.residents <==> Reusable(pages, capacity, events, p))
    && forall p | p in s.residents :: s.residents[p].lastTouch == LastDemand(events, p)
  }

  /** An LRU hit advances the clock and re-dates the page; nothing else changes place. */
  lemma HitMoves(cfg: Config, pages: seq<Page>, s: State, e: Event)
    requires cfg.policy.LruPolicy? && Inv(cfg, pages, s) && e.Demand? && e.page in s.residents
    ensures
      var t := Step(cfg, pages, s, e);
      && t.touch == s.touch + 1 && t.residents.Keys == s.residents.Keys && t.residents[e.page].lastTouch == t.touch
      && forall p | p in s.residents && p != e.page :: t.residents[p] == s.residents[p]
  {
    hide Bytes;
  }

  lemma HitMatches(cfg: Config, pages: seq<Page>, events: seq<Event>, s: State, e: Event)
    requires cfg.policy.LruPolicy? && Inv(cfg, pages, s) && Matches(pages, cfg.capacity, events, s)
    requires e.Demand? && e.page in s.residents
    ensures Matches(pages, cfg.capacity, events + [e], Step(cfg, pages, s, e))
  {
    HitMoves(cfg, pages, s, e);
    hide Step, Matches;
    RedatedMatches(pages, cfg.capacity, events, s, e, Step(cfg, pages, s, e));
  }

  lemma RedatedMatches(pages: seq<Page>, capacity: nat, events: seq<Event>, s: State, e: Event, t: State)
    requires Matches(pages, capacity, events, s) && e.Demand? && e.page in s.residents
    requires t.touch == s.touch + 1 && t.residents.Keys == s.residents.Keys && t.residents[e.page].lastTouch == t.touch
    requires forall p | p in s.residents && p != e.page :: t.residents[p] == s.residents[p]
    ensures Matches(pages, capacity, events + [e], t)
  {
    AppendDemand(events, e, e.page);
    ReusableAfterOwnDemand(pages, capacity, events, e);
    hide ReuseBytes;
    forall p: nat
      ensures p in t.residents <==> Reusable(pages, capacity, events + [e], p)
      ensures p in t.residents ==> t.residents[p].lastTouch == LastDemand(events + [e], p)
    {
      if p != e.page { HitLeavesOthers(pages, capacity, events, e, p); }
    }
  }

  lemma HitLeavesOthers(pages: seq<Page>, capacity: nat, events: seq<Event>, e: Event, p: nat)
    requires e.Demand? && p != e.page && Reusable(pages, capacity, events, e.page)
    ensures Reusable(pages, capacity, events + [e], p) <==> Reusable(pages, capacity, events, p)
    ensures LastDemand(events + [e], p) == LastDemand(events, p)
  {
    hide Total;
    AppendDemand(events, e, p);
    if LastDemand(events, p) > 0 {
      ReuseAfterDemand(pages, capacity, events, e, p);
      if e.page !in Since(pages, capacity, events, p) { HitStaysWithin(pages, capacity, events, p, e.page); }
    }
  }

  /** A page demanded after the resident `x` keeps fitting together with `x`. */
  lemma HitStaysWithin(pages: seq<Page>, capacity: nat, events: seq<Event>, p: nat, x: nat)
    requires Reusable(pages, capacity, events, x) && LastDemand(events, x) < LastDemand(events, p)
    ensures ReuseBytes(pages, capacity, events, p) + pages[x].charge <= capacity
  {
    var s := Since(pages, capacity, events, p);
    SinceNested(pages, capacity, events, x, p);
    TotalAdd(s, Charge(pages), x);
    TotalMonotone(s + {x}, Since(pages, capacity, events, x), Charge(pages));
  }

  lemma OversizedMatches(cfg: Config, pages: seq<Page>, events: seq<Event>, s: State, e: Event)
    requires cfg.policy.LruPolicy? && Inv(cfg, pages, s) && Matches(pages, cfg.capacity, events, s)
    requires e.Demand? && e.page < |pages| && e.page !in s.residents && pages[e.page].charge > cfg.capacity
    ensures Matches(pages, cfg.capacity, events + [e], Step(cfg, pages, s, e))
  {
    AppendDemand(events, e, e.page);
    ReusableAfterOwnDemand(pages, cfg.capacity, events, e);
    forall p: nat | p != e.page
      ensures Reusable(pages, cfg.capacity, events + [e], p) <==> Reusable(pages, cfg.capacity, events, p)
      ensures LastDemand(events + [e], p) == LastDemand(events, p)
    {
      AppendDemand(events, e, p);
      if LastDemand(events, p) > 0 { ReuseAfterDemand(pages, cfg.capacity, events, e, p); }
    }
  }

  /** Under LRU the residents not ahead of `p` in the eviction order are its reuse set. */
  lemma AheadComplementsSince(cfg: Config, pages: seq<Page>, events: seq<Event>, s: State, r: Request, p: nat)
    requires cfg.policy.LruPolicy? && Ledger(cfg, pages, s)
    requires Matches(pages, cfg.capacity, events, s.(touch := Clock(events)))
    requires p in s.residents
    ensures s.bytes == Bytes(pages, AheadOf(cfg, pages, s, r, p)) + ReuseBytes(pages, cfg.capacity, events, p)
  {
    var ahead := AheadOf(cfg, pages, s, r, p);
    var since := Since(pages, cfg.capacity, events, p);
    forall q | q in since ensures q in s.residents {
      SinceNested(pages, cfg.capacity, events, p, q);
    }
    forall q | q in s.residents ensures q in ahead <==> LastDemand(events, q) < LastDemand(events, p) {
      LastDemandFacts(events, p, q);
    }
    assert s.residents.Keys - ahead == since;
    TotalSplit(s.residents.Keys, ahead, Charge(pages));
  }

  lemma FillMatches(cfg: Config, pages: seq<Page>, events: seq<Event>, s: State, e: Event)
    requires cfg.policy.LruPolicy? && Inv(cfg, pages, s) && Matches(pages, cfg.capacity, events, s)
    requires e.Demand? && e.page < |pages| && e.page !in s.residents && pages[e.page].charge <= cfg.capacity
    ensures Matches(pages, cfg.capacity, events + [e], Step(cfg, pages, s, e))
  {
    var r := Request(e.request, e.step, e.page);
    var m := Missed(pages, Entered(cfg, s, r), r);
    var t := Step(cfg, pages, s, e);
    AppendDemand(events, e, e.page);
    ReusableAfterOwnDemand(pages, cfg.capacity, events, e);
    forall p: nat | p != e.page
      ensures p in t.residents <==> Reusable(pages, cfg.capacity, events + [e], p)
      ensures LastDemand(events + [e], p) == LastDemand(events, p)
    {
      AppendDemand(events, e, p);
      if LastDemand(events, p) > 0 {
        ReuseAfterDemand(pages, cfg.capacity, events, e, p);
        if p in s.residents {
          AheadComplementsSince(cfg, pages, events, m, r, p);
          if e.page in Since(pages, cfg.capacity, events, p) {
            SinceNested(pages, cfg.capacity, events, p, e.page);
          }
        }
      }
    }
  }

  /** After every event sequence, LRU holds a page exactly when the reuse-distance rule says
      so, and its touch stamps are the positions of the last demands. */
  lemma {:induction false} LruIsReuseDistance(cfg: Config, pages: seq<Page>, events: seq<Event>)
    requires cfg.policy.LruPolicy? && cfg.Valid() && AllKnown(pages, events)
    ensures Matches(pages, cfg.capacity, events, Run(cfg, pages, events))
  {
    if events != [] {
      var prior := events[..|events| - 1];
      var e := events[|events| - 1];
      assert events == prior + [e];
      LruIsReuseDistance(cfg, pages, prior);
      var s := Run(cfg, pages, prior);
      if e.Signal? {
        forall p: nat
          ensures LastDemand(events, p) == LastDemand(prior, p) && Clock(events) == Clock(prior)
        {
          AppendSignal(prior, e, p);
        }
        forall p: nat
          ensures Since(pages, cfg.capacity, events, p) == Since(pages, cfg.capacity, prior, p)
        {}
      } else if e.page in s.residents {
        HitMatches(cfg, pages, prior, s, e);
      } else if pages[e.page].charge > cfg.capacity {
        OversizedMatches(cfg, pages, prior, s, e);
      } else {
        FillMatches(cfg, pages, prior, s, e);
      }
    }
  }
}
