/** The two oracles agree wherever both apply: on pages of one size the exact search finds the bytes
    the farthest-next-use replay loads. */
module OracleAgreement {
  import opened Totals
  import Belady
  import ExactOracle

  /** Equal pages for all that is demanded, all of them in a catalogue of `pageCount`. */
  ghost predicate Equal(w: ExactOracle.Problem, pageCount: nat, charge: nat, logical: nat) {
    forall p | p in w.demands :: w.charge(p) == charge && w.logical(p) == logical && p < pageCount
  }

  ghost predicate OnDemand(w: ExactOracle.Problem, sets: seq<set<nat>>) {
    && |sets| == |w.demands| + 1 && sets[0] == {}
    && forall k | 0 <= k < |w.demands| :: sets[k + 1] <= sets[k] + {w.demands[k]}
  }

  lemma {:induction false} OnlyDemanded(w: ExactOracle.Problem, sets: seq<set<nat>>, t: nat)
    requires OnDemand(w, sets) && t <= |w.demands|
    ensures forall p | p in sets[t] :: p in w.demands
  {
    if t > 0 {
      OnlyDemanded(w, sets, t - 1);
      assert sets[(t - 1) + 1] <= sets[t - 1] + {w.demands[t - 1]};
    }
  }

  lemma {:induction false} FewBelow(s: set<nat>, n: nat)
    requires forall p | p in s :: p < n
    ensures |s| <= n
  {
    if s != {} {
      var p :| p in s;
      assert n > 0;
      FewBelow(s - {n - 1}, n - 1);
    }
  }

  /** Within the capacity in bytes is within the capacity in slots. */
  lemma BytesAreSlots(w: ExactOracle.Problem, pageCount: nat, charge: nat, logical: nat, s: set<nat>)
    requires Equal(w, pageCount, charge, logical) && charge > 0 && forall p | p in s :: p in w.demands
    ensures Total(s, w.charge) <= w.capacity <==> |s| <= Belady.Slots(pageCount, w.capacity, charge)
  {
    TotalUniform(s, w.charge, charge);
    FewBelow(s, pageCount);
    Quotient(|s|, w.capacity, charge);
  }

  lemma Quotient(n: nat, capacity: nat, charge: nat)
    requires charge > 0
    ensures n * charge <= capacity <==> n <= capacity / charge
  {
    var q := capacity / charge;
    assert capacity == q * charge + capacity % charge;
    if n <= q {
      assert (q - n) * charge >= 0;
    } else {
      assert (n - q - 1) * charge >= 0;
    }
  }

  lemma {:induction false} CostIsMisses(w: ExactOracle.Problem, pageCount: nat, charge: nat, logical: nat,
                                        sets: seq<set<nat>>, t: nat)
    requires Equal(w, pageCount, charge, logical) && OnDemand(w, sets) && t <= |w.demands|
    ensures ExactOracle.Cost(w, t, sets) == Belady.ScheduleMisses(w.demands, sets, t) * logical
  {
    if t > 0 {
      CostIsMisses(w, pageCount, charge, logical, sets, t - 1);
      assert w.demands[t - 1] in w.demands;
      Belady.OneMore(Belady.ScheduleMisses(w.demands, sets, t - 1), logical);
    }
  }

  /** The schedules of one oracle are those of the other. */
  lemma SameSchedules(w: ExactOracle.Problem, pageCount: nat, charge: nat, logical: nat, sets: seq<set<nat>>)
    requires Equal(w, pageCount, charge, logical) && charge > 0
    ensures
      ExactOracle.IsSchedule(w, |w.demands|, sets)
      <==> Belady.IsSchedule(w.demands, Belady.Slots(pageCount, w.capacity, charge), sets)
  {
    if OnDemand(w, sets) {
      forall t | 0 <= t < |sets|
        ensures Total(sets[t], w.charge) <= w.capacity <==> |sets[t]| <= Belady.Slots(pageCount, w.capacity, charge)
      {
        OnlyDemanded(w, sets, t);
        BytesAreSlots(w, pageCount, charge, logical, sets[t]);
      }
    }
  }

  /** On equal pages the least cost over all schedules is what the replay's misses load. */
  lemma OraclesAgree(w: ExactOracle.Problem, pageCount: nat, charge: nat, logical: nat, cost: nat)
    requires |w.demands| < Belady.NEVER && charge > 0 && Equal(w, pageCount, charge, logical)
    requires ExactOracle.Optimal(w, cost)
    ensures cost == Belady.Misses(w.demands, Belady.Slots(pageCount, w.capacity, charge), |w.demands|) * logical
  {
    var d, slots, n := w.demands, Belady.Slots(pageCount, w.capacity, charge), |w.demands|;
    var own := Belady.OwnSchedule(d, slots);
    Belady.BeladyIsASchedule(d, slots);
    SameSchedules(w, pageCount, charge, logical, own);
    CostIsMisses(w, pageCount, charge, logical, own, n);
    var residents :| ExactOracle.Attained(w, n, residents, cost);
    var best :| ExactOracle.IsSchedule(w, n, best) && best[n] == residents && ExactOracle.Cost(w, n, best) == cost;
    SameSchedules(w, pageCount, charge, logical, best);
    CostIsMisses(w, pageCount, charge, logical, best, n);
    Belady.BeladyIsOptimal(d, slots, best, n);
    Belady.MoreDemands(Belady.Misses(d, slots, n), Belady.ScheduleMisses(d, best, n), logical);
  }
}
