/** The exact oracle for pages of different sizes: a search over resident subsets, kept as bit masks,
    whose answer is the least number of loaded bytes over every way of serving the demands. */
module ExactOracle {
  import opened Common
  import opened Masks
  import opened Totals

  const MAX_EXACT_DEMANDS := 200

  datatype Problem = Problem(demands: seq<nat>, charge: nat -> nat, logical: nat -> nat, capacity: nat)

  datatype Outcome<+T> = Ok(value: T) | ExactOracleLimit | CounterOverflow

  // ---------------------------------------------------------------- schedules

  /** The resident sets before each of the first `t` demands and after the last: any pages may leave
      at any time, only the demanded page may enter, and the charge never exceeds the capacity. */
  ghost predicate IsSchedule(w: Problem, t: nat, sets: seq<set<nat>>)
    requires t <= |w.demands|
  {
    && |sets| == t + 1 && sets[0] == {}
    && (forall k | 0 <= k < |sets| :: Total(sets[k], w.charge) <= w.capacity)
    && forall k | 0 <= k < t :: sets[k + 1] <= sets[k] + {w.demands[k]}
  }

  /** What a demand loads when these pages are resident. */
  function Fee(w: Problem, t: nat, residents: set<nat>): nat
    requires t < |w.demands|
  {
    if w.demands[t] in residents then 0 else w.logical(w.demands[t])
  }

  ghost function Cost(w: Problem, t: nat, sets: seq<set<nat>>): nat
    requires t <= |w.demands| && t <= |sets|
  {
    if t == 0 then 0 else Cost(w, t - 1, sets) + Fee(w, t - 1, sets[t - 1])
  }

  /** The bytes of all demands: what serving without a cache loads. */
  ghost function Everything(w: Problem, t: nat): nat
    requires t <= |w.demands|
  {
    if t == 0 then 0 else Everything(w, t - 1) + w.logical(w.demands[t - 1])
  }

  ghost predicate Attained(w: Problem, t: nat, residents: set<nat>, cost: nat)
    requires t <= |w.demands|
  {
    exists sets :: IsSchedule(w, t, sets) && sets[t] == residents && Cost(w, t, sets) == cost
  }

  /** The least cost: some schedule has it and none has less. */
  ghost predicate Optimal(w: Problem, cost: nat) {
    && (exists residents :: Attained(w, |w.demands|, residents, cost))
    && forall sets | IsSchedule(w, |w.demands|, sets) :: cost <= Cost(w, |w.demands|, sets)
  }

  lemma {:induction false} CostAgrees(w: Problem, t: nat, a: seq<set<nat>>, b: seq<set<nat>>)
    requires t <= |w.demands| && t <= |a| && t <= |b| && forall k | 0 <= k < t :: a[k] == b[k]
    ensures Cost(w, t, a) == Cost(w, t, b)
  {
    if t > 0 { CostAgrees(w, t - 1, a, b); }
  }

  lemma {:induction false} CostAtMost(w: Problem, t: nat, sets: seq<set<nat>>)
    requires t <= |w.demands| && t <= |sets|
    ensures Cost(w, t, sets) <= Everything(w, t)
  {
    if t > 0 { CostAtMost(w, t - 1, sets); }
  }

  lemma {:induction false} EverythingGrows(w: Problem, t: nat, u: nat)
    requires t <= u <= |w.demands|
    ensures Everything(w, t) <= Everything(w, u)
  {
    if t < u { EverythingGrows(w, t, u - 1); }
  }

  // ---------------------------------------------------------------- the search space

  /** A transition out of a resident set: leave it as it is, or keep a part and admit the page. */
  datatype Transition = Stay(state: set<nat>) | Admit(state: set<nat>, kept: set<nat>)

  /** The transitions looked at for the demand at `t`: pages leave only to make room on a miss. */
  ghost function Transitions(w: Problem, t: nat): set<Transition>
    requires t < |w.demands|
    decreases t, 1
  {
    var p := w.demands[t];
    (set s | s in Reach(w, t) :: Stay(s))
    + if w.charge(p) <= w.capacity then set s, k | s in Reach(w, t) && p !in s && k in Parts(s) :: Admit(s, k) else {}
  }

  ghost function Parts(s: set<nat>): set<set<nat>> { set k | k <= s }

  /** The transition leads to a set within the capacity. */
  ghost predicate Lands(w: Problem, t: nat, x: Transition)
    requires t < |w.demands|
  {
    x.Admit? ==> Total(x.kept, w.charge) + w.charge(w.demands[t]) <= w.capacity
  }

  ghost function After(w: Problem, t: nat, x: Transition): set<nat>
    requires t < |w.demands|
  {
    match x case Stay(s) => s case Admit(_, kept) => kept + {w.demands[t]}
  }

  ghost function Landings(w: Problem, t: nat): set<set<nat>>
    requires t < |w.demands|
    decreases t, 2
  {
    set x | x in Transitions(w, t) && Lands(w, t, x) :: After(w, t, x)
  }

  /** The resident sets the search holds after `t` demands. */
  ghost function Reach(w: Problem, t: nat): set<set<nat>>
    requires t <= |w.demands|
    decreases t, 0
  {
    if t == 0 then {{}} else Landings(w, t - 1)
  }

  /** The states a search through `t` demands is charged for: the first, and one per transition. */
  ghost function Work(w: Problem, t: nat): nat
    requires t <= |w.demands|
  {
    if t == 0 then 1 else Work(w, t - 1) + |Transitions(w, t - 1)|
  }

  lemma {:induction false} WorkGrows(w: Problem, t: nat, u: nat)
    requires t <= u <= |w.demands|
    ensures Work(w, t) <= Work(w, u)
  {
    hide Transitions, Reach;
    if t < u { WorkGrows(w, t, u - 1); }
  }

  /** A subset search is worth nothing unless it is a schedule: every landing extends one. */
  lemma Extends(w: Problem, t: nat, x: Transition, cost: nat)
    requires t < |w.demands| && x in Transitions(w, t) && Lands(w, t, x) && Attained(w, t, x.state, cost)
    ensures Attained(w, t + 1, After(w, t, x), cost + Fee(w, t, x.state))
  {
    hide Transitions, Reach, Total, Fee;
    Offered(w, t, x);
    var sets :| IsSchedule(w, t, sets) && sets[t] == x.state && Cost(w, t, sets) == cost;
    var after := After(w, t, x);
    var more := sets + [after];
    if x.Admit? { TotalAdd(x.kept, w.charge, w.demands[t]); }
    CostAgrees(w, t, sets, more);
    Longer(w, t, sets, after);
  }

  lemma Longer(w: Problem, t: nat, sets: seq<set<nat>>, after: set<nat>)
    requires t < |w.demands| && IsSchedule(w, t, sets) && Total(after, w.charge) <= w.capacity
    requires after <= sets[t] + {w.demands[t]}
    ensures IsSchedule(w, t + 1, sets + [after])
  {
    hide Total;
  }

  // ---------------------------------------------------------------- masks and page sets

  /** The pages whose bits are set. */
  ghost function Held(pages: seq<nat>, m: Mask): set<nat>
    requires |pages| <= MAX_EXACT_PAGES
  {
    set i | 0 <= i < |pages| && Bit(m, i) :: pages[i]
  }

  ghost function MaskOf(pages: seq<nat>, s: set<nat>): Mask
    requires |pages| <= MAX_EXACT_PAGES
  {
    if pages == [] then NONE
    else
      var n := |pages| - 1;
      Or(MaskOf(pages[..n], s), if pages[n] in s then Unit(n) else NONE)
  }

  lemma {:induction false} MaskBits(pages: seq<nat>, s: set<nat>)
    requires |pages| <= MAX_EXACT_PAGES
    ensures Below(MaskOf(pages, s), |pages|)
    ensures forall i | 0 <= i < |pages| :: Bit(MaskOf(pages, s), i) <==> pages[i] in s
  {
    hide Unit, Bit, Below, Or;
    if pages == [] {
      ZeroBits(0);
    } else {
      var n := |pages| - 1;
      var m, u := MaskOf(pages[..n], s), if pages[n] in s then Unit(n) else NONE;
      MaskBits(pages[..n], s);
      BelowMore(m, n);
      UnitBelow(n, n + 1);
      ZeroBits(n + 1);
      OrBelow(m, u, n + 1);
      BelowBits(m, n, n);
      forall i | 0 <= i <= n ensures Bit(Or(m, u), i) <==> pages[i] in s {
        OrBit(m, u, i);
        UnitBits(n, i);
        ZeroBits(i);
        if i < n { assert pages[..n][i] == pages[i]; }
      }
    }
  }

  lemma HeldBit(pages: seq<nat>, m: Mask, i: nat)
    requires i < |pages| <= MAX_EXACT_PAGES && Distinct(pages)
    ensures pages[i] in Held(pages, m) <==> Bit(m, i)
  {
    hide Bit;
  }

  lemma HeldMask(pages: seq<nat>, s: set<nat>)
    requires |pages| <= MAX_EXACT_PAGES && forall p | p in s :: p in pages
    ensures Held(pages, MaskOf(pages, s)) == s
  {
    hide Bit, Below, MaskOf;
    MaskBits(pages, s);
  }

  lemma MaskHeld(pages: seq<nat>, m: Mask)
    requires |pages| <= MAX_EXACT_PAGES && Distinct(pages) && Below(m, |pages|)
    ensures MaskOf(pages, Held(pages, m)) == m
  {
    hide Bit, Below, MaskOf, Held;
    var s := Held(pages, m);
    MaskBits(pages, s);
    forall i | 0 <= i < |pages| ensures Bit(m, i) <==> Bit(MaskOf(pages, s), i) {
      HeldBit(pages, m, i);
    }
    BitsDecide(m, MaskOf(pages, s), |pages|);
  }

  lemma NothingHeld(pages: seq<nat>)
    requires |pages| <= MAX_EXACT_PAGES
    ensures Held(pages, NONE) == {} && Below(NONE, |pages|)
  {
    hide Bit, Below;
    ZeroBits(|pages|);
    forall i | 0 <= i < |pages| ensures !Bit(NONE, i) {
      ZeroBits(i);
    }
  }

  lemma HeldPart(pages: seq<nat>, r: Mask, state: Mask)
    requires |pages| <= MAX_EXACT_PAGES && Submask(r, state)
    ensures Held(pages, r) <= Held(pages, state)
  {
    hide Bit, And;
    forall i | 0 <= i < |pages| && Bit(r, i) ensures Bit(state, i) {
      AndBit(r, state, i);
    }
  }

  lemma PartMask(pages: seq<nat>, s: set<nat>, state: Mask)
    requires |pages| <= MAX_EXACT_PAGES && Distinct(pages) && Below(state, |pages|) && s <= Held(pages, state)
    ensures Submask(MaskOf(pages, s), state)
  {
    hide Bit, Below, MaskOf, And, Held;
    var m := MaskOf(pages, s);
    MaskBits(pages, s);
    AndBelow(m, state, |pages|);
    forall i | 0 <= i < |pages| ensures Bit(And(m, state), i) <==> Bit(m, i) {
      AndBit(m, state, i);
      HeldBit(pages, state, i);
    }
    BitsDecide(And(m, state), m, |pages|);
  }

  lemma HeldMore(pages: seq<nat>, m: Mask, i: nat)
    requires i < |pages| <= MAX_EXACT_PAGES && Below(m, |pages|)
    ensures Held(pages, Or(m, Unit(i))) == Held(pages, m) + {pages[i]} && Below(Or(m, Unit(i)), |pages|)
  {
    hide Bit, Below, Unit, Or;
    UnitBelow(i, |pages|);
    OrBelow(m, Unit(i), |pages|);
    forall k | 0 <= k < |pages| ensures Bit(Or(m, Unit(i)), k) <==> Bit(m, k) || k == i {
      OrBit(m, Unit(i), k);
      UnitBits(i, k);
    }
  }

  lemma HeldLess(pages: seq<nat>, r: Mask, i: nat)
    requires i < |pages| <= MAX_EXACT_PAGES && Distinct(pages) && Bit(r, i) && forall k | 0 <= k < i :: !Bit(r, k)
    ensures pages[i] in Held(pages, r) && Held(pages, ClearLowest(r)) == Held(pages, r) - {pages[i]}
  {
    hide Bit, ClearLowest;
    forall k | 0 <= k < |pages| ensures Bit(ClearLowest(r), k) <==> Bit(r, k) && k != i {
      LowestCleared(r, i, k);
    }
  }

  // ---------------------------------------------------------------- charges

  method TrailingZeros(m: Mask, n: nat) returns (i: nat)
    requires n <= MAX_EXACT_PAGES && Below(m, n) && m != NONE
    ensures i < n && Bit(m, i) && forall k | 0 <= k < i :: !Bit(m, k)
  {
    hide Bit, Below, And, Unit;
    i := 0;
    if forall k | 0 <= k < n :: !Bit(m, k) { NoBits(m, n); }
    while And(m, Unit(i)) == NONE
      invariant i < n && forall k | 0 <= k < i :: !Bit(m, k)
      decreases n - i
    {
      TestsBit(m, i);
      i := i + 1;
    }
    TestsBit(m, i);
  }

  lemma NoBits(m: Mask, n: nat)
    requires Below(m, n) && forall k | 0 <= k < n :: !Bit(m, k)
    ensures m == NONE
  {
    hide Bit, Below;
    ZeroBits(n);
    forall k | 0 <= k < n ensures !Bit(NONE, k) {
      ZeroBits(k);
    }
    BitsDecide(m, NONE, n);
  }

  /** The charge of a mask, found by clearing its lowest bit until none is left. */
  method SubsetCharge(w: Problem, pages: seq<nat>, mask: Mask) returns (r: Outcome<nat>)
    requires |pages| <= MAX_EXACT_PAGES && Distinct(pages) && Below(mask, |pages|)
    ensures r.Ok? <==> Total(Held(pages, mask), w.charge) <= MAX_U64
    ensures r.Ok? ==> r.value == Total(Held(pages, mask), w.charge)
    ensures !r.ExactOracleLimit?
  {
    hide Bit, Below, ClearLowest, Held, Total;
    var remaining, total: nat := mask, 0;
    while remaining != NONE
      invariant Below(remaining, |pages|)
      invariant total + Total(Held(pages, remaining), w.charge) == Total(Held(pages, mask), w.charge)
      invariant total <= MAX_U64
      decreases |Held(pages, remaining)|
    {
      var bit := TrailingZeros(remaining, |pages|);
      HeldLess(pages, remaining, bit);
      TotalRemove(Held(pages, remaining), w.charge, pages[bit]);
      if total + w.charge(pages[bit]) > MAX_U64 { return CounterOverflow; }
      total := total + w.charge(pages[bit]);
      ClearedBelow(remaining, |pages|);
      remaining := ClearLowest(remaining);
    }
    NothingHeld(pages);
    TotalNone<nat>(w.charge);
    r := Ok(total);
  }

  // ---------------------------------------------------------------- what a frontier knows

  /** One bit for each demanded page. */
  ghost predicate Indexed(w: Problem, pages: seq<nat>) {
    && |pages| <= MAX_EXACT_PAGES && Distinct(pages)
    && forall p :: p in pages <==> p in w.demands
  }

  /** Every entry is the cost of a schedule that ends in its resident set; the empty set, which only
      bypassing leads to, costs everything. */
  ghost predicate Costed(w: Problem, pages: seq<nat>, t: nat, entries: map<Mask, nat>)
    requires t <= |w.demands| && |pages| <= MAX_EXACT_PAGES
  {
    && (NONE in entries ==> entries[NONE] == Everything(w, t))
    && forall m | m in entries ::
         && Below(m, |pages|) && entries[m] <= MAX_U64
         && Held(pages, m) in Reach(w, t) && Attained(w, t, Held(pages, m), entries[m])
  }

  /** Some entry holds at least these pages and cost no more. */
  ghost predicate Matched(pages: seq<nat>, entries: map<Mask, nat>, residents: set<nat>, cost: nat)
    requires |pages| <= MAX_EXACT_PAGES
  {
    exists m :: m in entries && residents <= Held(pages, m) && entries[m] <= cost
  }

  /** Every schedule is matched, whatever it evicts and when. */
  ghost predicate Dominates(w: Problem, pages: seq<nat>, t: nat, entries: map<Mask, nat>)
    requires t <= |w.demands| && |pages| <= MAX_EXACT_PAGES
  {
    forall sets | IsSchedule(w, t, sets) :: Matched(pages, entries, sets[t], Cost(w, t, sets))
  }

  ghost predicate Present(w: Problem, pages: seq<nat>, t: nat, entries: map<Mask, nat>)
    requires t <= |w.demands| && |pages| <= MAX_EXACT_PAGES
  {
    forall s | s in Reach(w, t) :: MaskOf(pages, s) in entries
  }

  ghost predicate Frontier(w: Problem, pages: seq<nat>, t: nat, entries: map<Mask, nat>)
    requires t <= |w.demands| && |pages| <= MAX_EXACT_PAGES
  {
    Costed(w, pages, t, entries) && Present(w, pages, t, entries) && Dominates(w, pages, t, entries)
  }

  /** The next entries cost no more than any of the transitions already looked at. */
  ghost predicate Covers(w: Problem, pages: seq<nat>, t: nat, entries: map<Mask, nat>, next: map<Mask, nat>,
                         done: set<Transition>)
    requires t < |w.demands| && |pages| <= MAX_EXACT_PAGES
  {
    && done <= Transitions(w, t)
    && forall x | x in done && Lands(w, t, x) ::
         var from, to := MaskOf(pages, x.state), MaskOf(pages, After(w, t, x));
         from in entries && to in next && next[to] <= entries[from] + Fee(w, t, x.state)
  }

  lemma {:induction false} ReachPages(w: Problem, pages: seq<nat>, t: nat, s: set<nat>)
    requires t <= |w.demands| && Indexed(w, pages) && s in Reach(w, t)
    ensures forall p | p in s :: p in pages
  {
    if t > 0 {
      var x :| x in Transitions(w, t - 1) && Lands(w, t - 1, x) && After(w, t - 1, x) == s;
      assert x.state in Reach(w, t - 1);
      ReachPages(w, pages, t - 1, x.state);
    }
  }

  lemma Landed(w: Problem, t: nat, x: Transition)
    requires t < |w.demands| && x in Transitions(w, t) && Lands(w, t, x)
    ensures After(w, t, x) in Reach(w, t + 1) && x.state in Reach(w, t)
  {
    hide Lands, After;
  }

  lemma Named(w: Problem, pages: seq<nat>, t: nat, s: set<nat>)
    requires t <= |w.demands| && Indexed(w, pages) && s in Reach(w, t)
    ensures Held(pages, MaskOf(pages, s)) == s && Below(MaskOf(pages, s), |pages|)
  {
    hide Reach, Held, MaskOf, Below;
    ReachPages(w, pages, t, s);
    HeldMask(pages, s);
    MaskBits(pages, s);
  }

  function InsertMinimum(entries: map<Mask, nat>, m: Mask, cost: nat): map<Mask, nat> {
    entries[m := if m in entries && entries[m] < cost then entries[m] else cost]
  }

  lemma InsertCosted(w: Problem, pages: seq<nat>, t: nat, entries: map<Mask, nat>, next: map<Mask, nat>, x: Transition)
    requires t < |w.demands| && Indexed(w, pages) && Frontier(w, pages, t, entries) && Costed(w, pages, t + 1, next)
    requires x in Transitions(w, t) && Lands(w, t, x) && MaskOf(pages, x.state) in entries
    requires entries[MaskOf(pages, x.state)] + Fee(w, t, x.state) <= MAX_U64
    ensures
      var cost := entries[MaskOf(pages, x.state)] + Fee(w, t, x.state);
      Costed(w, pages, t + 1, InsertMinimum(next, MaskOf(pages, After(w, t, x)), cost))
  {
    hide Reach, Transitions, Held, MaskOf, Below, Attained, Lands, Present, Dominates;
    var m, n := MaskOf(pages, x.state), MaskOf(pages, After(w, t, x));
    Landed(w, t, x);
    Named(w, pages, t, x.state);
    Named(w, pages, t + 1, After(w, t, x));
    Extends(w, t, x, entries[m]);
    if n == NONE {
      NothingHeld(pages);
      assert x.Stay?;
    }
  }

  lemma InsertCovers(w: Problem, pages: seq<nat>, t: nat, entries: map<Mask, nat>, next: map<Mask, nat>,
                     done: set<Transition>, x: Transition)
    requires t < |w.demands| && |pages| <= MAX_EXACT_PAGES && Covers(w, pages, t, entries, next, done)
    requires x in Transitions(w, t) && MaskOf(pages, x.state) in entries
    ensures
      var cost := entries[MaskOf(pages, x.state)] + Fee(w, t, x.state);
      Covers(w, pages, t, entries, InsertMinimum(next, MaskOf(pages, After(w, t, x)), cost), done + {x})
    ensures !Lands(w, t, x) ==> Covers(w, pages, t, entries, next, done + {x})
  {
    hide Reach, Transitions, MaskOf, Lands, After, Fee;
  }

  lemma CoversKnown(w: Problem, pages: seq<nat>, t: nat, entries: map<Mask, nat>, next: map<Mask, nat>,
                    done: set<Transition>)
    requires t < |w.demands| && |pages| <= MAX_EXACT_PAGES && Covers(w, pages, t, entries, next, done)
    ensures done <= Transitions(w, t)
  {}

  /** One more transition than the budget allows. */
  lemma Exhausted(w: Problem, t: nat, done: set<Transition>, x: Transition)
    requires t < |w.demands| && done <= Transitions(w, t) && x in Transitions(w, t) && x !in done
    ensures Work(w, t) + |done| + 1 <= Work(w, t + 1) && |done + {x}| == |done| + 1
  {
    hide Transitions, Reach;
    FewerOrEqual(done + {x}, Transitions(w, t));
  }

  lemma {:induction false} FewerOrEqual<T>(a: set<T>, b: set<T>)
    requires a <= b
    ensures |a| <= |b|
  {
    if a != {} {
      var x :| x in a;
      FewerOrEqual(a - {x}, b - {x});
    }
  }

  lemma NotAboveEverything(w: Problem, pages: seq<nat>, t: nat, entries: map<Mask, nat>, m: Mask)
    requires t <= |w.demands| && |pages| <= MAX_EXACT_PAGES && Costed(w, pages, t, entries) && m in entries
    ensures entries[m] <= Everything(w, t)
  {
    hide Held, Reach, Below, Total;
    var sets :| IsSchedule(w, t, sets) && sets[t] == Held(pages, m) && Cost(w, t, sets) == entries[m];
    CostAtMost(w, t, sets);
  }

  lemma FrontierFits(w: Problem, pages: seq<nat>, t: nat, entries: map<Mask, nat>, m: Mask)
    requires t <= |w.demands| && |pages| <= MAX_EXACT_PAGES && Costed(w, pages, t, entries) && m in entries
    ensures Total(Held(pages, m), w.charge) <= w.capacity
  {
    hide Held, Reach, Below, Cost, Total;
    var sets :| IsSchedule(w, t, sets) && sets[t] == Held(pages, m) && Cost(w, t, sets) == entries[m];
  }

  // ---------------------------------------------------------------- a step keeps every schedule matched

  lemma KeepsDominating(w: Problem, pages: seq<nat>, t: nat, entries: map<Mask, nat>, next: map<Mask, nat>)
    requires t < |w.demands| && Indexed(w, pages) && Frontier(w, pages, t, entries)
    requires Covers(w, pages, t, entries, next, Transitions(w, t))
    ensures Dominates(w, pages, t + 1, next)
  {
    hide Reach, Transitions, Held, MaskOf, Below, Covers, Frontier;
    var u := t + 1;
    forall sets | IsSchedule(w, u, sets) ensures Matched(pages, next, sets[u], Cost(w, u, sets)) {
      MatchedOn(w, pages, t, entries, next, sets);
    }
  }

  lemma MatchedOn(w: Problem, pages: seq<nat>, t: nat, entries: map<Mask, nat>, next: map<Mask, nat>,
                  sets: seq<set<nat>>)
    requires t < |w.demands| && Indexed(w, pages) && Frontier(w, pages, t, entries)
    requires Covers(w, pages, t, entries, next, Transitions(w, t)) && IsSchedule(w, t + 1, sets)
    ensures Matched(pages, next, sets[t + 1], Cost(w, t + 1, sets))
  {
    hide Frontier, Reach, Transitions, Held, MaskOf, Below, Covers, IsSchedule, Lands, After, Cost, Fee, Total;
    var before := Shorter(w, t, sets);
    var m := MatchedBy(w, pages, t, entries, before);
    var s := Held(pages, m);
    var x := Choice(w, t, s, before[t], sets[t + 1]);
    FeeAtMost(w, t, before[t], s);
    Followed(w, pages, t, entries, next, m, x, sets[t + 1], Cost(w, t + 1, sets));
  }

  /** A schedule without its last step. */
  lemma Shorter(w: Problem, t: nat, sets: seq<set<nat>>) returns (before: seq<set<nat>>)
    requires t < |w.demands| && IsSchedule(w, t + 1, sets)
    ensures |sets| == t + 2 && before == sets[..t + 1] && IsSchedule(w, t, before) && |before| == t + 1
    ensures Cost(w, t + 1, sets) == Cost(w, t, before) + Fee(w, t, before[t])
    ensures sets[t + 1] <= before[t] + {w.demands[t]} && Total(sets[t + 1], w.charge) <= w.capacity
  {
    hide Total, Fee;
    before := sets[..t + 1];
    CostAgrees(w, t, before, sets);
  }

  lemma MatchedBy(w: Problem, pages: seq<nat>, t: nat, entries: map<Mask, nat>, sets: seq<set<nat>>) returns (m: Mask)
    requires t <= |w.demands| && |pages| <= MAX_EXACT_PAGES && Frontier(w, pages, t, entries)
    requires IsSchedule(w, t, sets) && |sets| == t + 1
    ensures m in entries && sets[t] <= Held(pages, m) && entries[m] <= Cost(w, t, sets)
    ensures Below(m, |pages|) && Held(pages, m) in Reach(w, t)
  {
    hide Reach, Held, Below, Present, IsSchedule, Cost, Attained;
    assert Matched(pages, entries, sets[t], Cost(w, t, sets));
    m :| m in entries && sets[t] <= Held(pages, m) && entries[m] <= Cost(w, t, sets);
  }

  /** The transition out of a larger state that follows a step of a schedule. */
  lemma Choice(w: Problem, t: nat, s: set<nat>, residents: set<nat>, after: set<nat>) returns (x: Transition)
    requires t < |w.demands| && s in Reach(w, t) && residents <= s
    requires after <= residents + {w.demands[t]} && Total(after, w.charge) <= w.capacity
    ensures x in Transitions(w, t) && x.state == s && Lands(w, t, x) && after <= After(w, t, x)
  {
    hide Reach, Transitions, Total;
    var p := w.demands[t];
    if p !in s && p in after {
      x := Admit(s, after - {p});
      TotalRemove(after, w.charge, p);
    } else {
      x := Stay(s);
    }
    Offered(w, t, x);
  }

  lemma FeeAtMost(w: Problem, t: nat, residents: set<nat>, more: set<nat>)
    requires t < |w.demands| && residents <= more
    ensures Fee(w, t, more) <= Fee(w, t, residents)
  {}

  /** Which transitions a state offers. */
  lemma Offered(w: Problem, t: nat, x: Transition)
    requires t < |w.demands|
    ensures
      x in Transitions(w, t) <==>
        && x.state in Reach(w, t)
        && (x.Admit? ==> w.demands[t] !in x.state && w.charge(w.demands[t]) <= w.capacity && x.kept <= x.state)
  {
    hide Reach;
  }

  lemma Followed(w: Problem, pages: seq<nat>, t: nat, entries: map<Mask, nat>, next: map<Mask, nat>, m: Mask,
                 x: Transition, residents: set<nat>, cost: nat)
    requires t < |w.demands| && Indexed(w, pages) && Covers(w, pages, t, entries, next, Transitions(w, t))
    requires x in Transitions(w, t) && Lands(w, t, x) && x.state == Held(pages, m) && Below(m, |pages|) && m in entries
    requires residents <= After(w, t, x) && entries[m] + Fee(w, t, x.state) <= cost
    ensures Matched(pages, next, residents, cost)
  {
    hide Reach, Transitions, Held, MaskOf, Below, Lands, After, Fee;
    MaskHeld(pages, m);
    Landed(w, t, x);
    Named(w, pages, t + 1, After(w, t, x));
  }

  // ---------------------------------------------------------------- the search

  /** Every admission from a state, and those whose kept part exceeds `retained` as a mask. */
  ghost function Admissions(s: set<nat>): set<Transition> { set k | k in Parts(s) :: Admit(s, k) }

  ghost function Swept(pages: seq<nat>, s: set<nat>, retained: Mask): set<Transition>
    requires |pages| <= MAX_EXACT_PAGES
  {
    set k | k in Parts(s) && !AtMost(MaskOf(pages, k), retained) :: Admit(s, k)
  }

  lemma SweptStart(pages: seq<nat>, state: Mask)
    requires |pages| <= MAX_EXACT_PAGES && Distinct(pages) && Below(state, |pages|)
    ensures Swept(pages, Held(pages, state), state) == {}
  {
    hide Held, MaskOf, Below, AtMost, And;
    forall kept | kept in Parts(Held(pages, state)) ensures AtMost(MaskOf(pages, kept), state) {
      PartMask(pages, kept, state);
      AndAtMost(state, MaskOf(pages, kept));
      AndSwaps(state, MaskOf(pages, kept));
    }
  }

  /** Going on to the next submask leaves out exactly the one just looked at. */
  lemma SweptOrder(pages: seq<nat>, state: Mask, retained: Mask, kept: set<nat>)
    requires |pages| <= MAX_EXACT_PAGES && Distinct(pages) && Below(state, |pages|) && retained != NONE
    requires Submask(retained, state) && kept <= Held(pages, state)
    ensures
      var m := MaskOf(pages, kept);
      !AtMost(m, NextBelow(retained, state)) <==> m == retained || !AtMost(m, retained)
  {
    hide Held, MaskOf, Below, AtMost, And, NextBelow;
    var m, n := MaskOf(pages, kept), NextBelow(retained, state);
    PartMask(pages, kept, state);
    NextIsLess(retained, state);
    if AtMost(m, n) {
      OrderReflexive(n, retained);
      if AtMost(m, retained) {} else { Transitive(m, n, retained); }
    } else if AtMost(m, retained) && m != retained {
      StrictlyLess(m, retained);
      NextSubmask(m, retained, state);
    }
  }

  lemma SweptStep(pages: seq<nat>, state: Mask, retained: Mask)
    requires |pages| <= MAX_EXACT_PAGES && Distinct(pages) && Below(state, |pages|) && retained != NONE
    requires Submask(retained, state)
    ensures
      var s := Held(pages, state);
      Swept(pages, s, NextBelow(retained, state)) == Swept(pages, s, retained) + {Admit(s, Held(pages, retained))}
  {
    hide Held, MaskOf, Below, AtMost, And, NextBelow;
    var s := Held(pages, state);
    HeldPart(pages, retained, state);
    SubmaskBelow(pages, retained, state);
    MaskHeld(pages, retained);
    forall kept | kept in Parts(s)
      ensures !AtMost(MaskOf(pages, kept), NextBelow(retained, state))
              <==> kept == Held(pages, retained) || !AtMost(MaskOf(pages, kept), retained)
    {
      SweptOrder(pages, state, retained, kept);
      if MaskOf(pages, kept) == retained { KeptIs(pages, state, kept); }
    }
  }

  lemma NotYetSwept(pages: seq<nat>, state: Mask, retained: Mask)
    requires |pages| <= MAX_EXACT_PAGES && Distinct(pages) && Below(state, |pages|) && Submask(retained, state)
    ensures
      var s := Held(pages, state);
      && Admit(s, Held(pages, retained)) !in Swept(pages, s, retained)
      && Admit(s, Held(pages, retained)) in Admissions(s)
  {
    hide Held, MaskOf, Below, AtMost, And;
    HeldPart(pages, retained, state);
    SubmaskBelow(pages, retained, state);
    MaskHeld(pages, retained);
    OrderReflexive(retained, retained);
  }

  lemma KeptIs(pages: seq<nat>, state: Mask, kept: set<nat>)
    requires |pages| <= MAX_EXACT_PAGES && kept <= Held(pages, state)
    ensures Held(pages, MaskOf(pages, kept)) == kept
  {
    hide MaskOf, Bit;
    HeldMask(pages, kept);
  }

  lemma SubmaskBelow(pages: seq<nat>, r: Mask, state: Mask)
    requires Submask(r, state) && Below(state, |pages|)
    ensures Below(r, |pages|)
  {
    hide And, Below;
    AndBelow(r, state, |pages|);
  }

  lemma SweptEnd(pages: seq<nat>, state: Mask)
    requires |pages| <= MAX_EXACT_PAGES && Distinct(pages) && Below(state, |pages|)
    ensures
      var s := Held(pages, state);
      Swept(pages, s, NONE) + {Admit(s, Held(pages, NONE))} == Admissions(s)
  {
    hide Held, MaskOf, Below, AtMost;
    NothingHeld(pages);
    forall kept | kept in Parts(Held(pages, state)) && AtMost(MaskOf(pages, kept), NONE) ensures kept == {} {
      OrderReflexive(MaskOf(pages, kept), NONE);
      KeptIs(pages, state, kept);
    }
  }

  /** What an expansion may leave behind. */
  ghost predicate Progress(w: Problem, pages: seq<nat>, t: nat, entries: map<Mask, nat>, next: map<Mask, nat>,
                           done: set<Transition>, explored: nat, maxStates: nat)
    requires t < |w.demands| && |pages| <= MAX_EXACT_PAGES
  {
    && Costed(w, pages, t + 1, next) && Covers(w, pages, t, entries, next, done)
    && explored == Work(w, t) + |done| && explored <= maxStates
  }

  /** More transitions through the demand at `t` than the budget allows. */
  ghost predicate Overrun(w: Problem, t: nat, maxStates: nat)
    requires t < |w.demands|
  {
    Work(w, t + 1) > maxStates
  }

  lemma BudgetSpent(w: Problem, pages: seq<nat>, t: nat, entries: map<Mask, nat>, next: map<Mask, nat>,
                    done: set<Transition>, explored: nat, maxStates: nat, x: Transition)
    requires t < |w.demands| && |pages| <= MAX_EXACT_PAGES && x in Transitions(w, t) && x !in done
    requires Progress(w, pages, t, entries, next, done, explored, maxStates)
    ensures explored <= maxStates && (explored == maxStates ==> Overrun(w, t, maxStates))
    ensures |done + {x}| == |done| + 1
  {
    hide Costed, Covers, Reach, Transitions, Work;
    CoversKnown(w, pages, t, entries, next, done);
    Exhausted(w, t, done, x);
  }

  /** Looking at a transition that does not land only charges the budget. */
  lemma LookedAt(w: Problem, pages: seq<nat>, t: nat, entries: map<Mask, nat>, next: map<Mask, nat>,
                 done: set<Transition>, explored: nat, maxStates: nat, x: Transition)
    requires t < |w.demands| && Indexed(w, pages) && explored < maxStates
    requires x in Transitions(w, t) && x !in done && MaskOf(pages, x.state) in entries && !Lands(w, t, x)
    requires Progress(w, pages, t, entries, next, done, explored, maxStates)
    ensures Progress(w, pages, t, entries, next, done + {x}, explored + 1, maxStates)
  {
    hide Costed, Covers, Reach, Transitions, Work, MaskOf, Lands, After, Fee, InsertMinimum;
    BudgetSpent(w, pages, t, entries, next, done, explored, maxStates, x);
    InsertCovers(w, pages, t, entries, next, done, x);
  }

  /** Looking at one that lands also records its cost, unless a cheaper one is known. */
  lemma Recorded(w: Problem, pages: seq<nat>, t: nat, entries: map<Mask, nat>, next: map<Mask, nat>,
                 done: set<Transition>, explored: nat, maxStates: nat, x: Transition, cost: nat)
    requires t < |w.demands| && Indexed(w, pages) && explored < maxStates && cost <= MAX_U64
    requires x in Transitions(w, t) && x !in done && MaskOf(pages, x.state) in entries && Lands(w, t, x)
    requires cost == entries[MaskOf(pages, x.state)] + Fee(w, t, x.state)
    requires Frontier(w, pages, t, entries) && Progress(w, pages, t, entries, next, done, explored, maxStates)
    ensures
      Progress(w, pages, t, entries, InsertMinimum(next, MaskOf(pages, After(w, t, x)), cost), done + {x},
               explored + 1, maxStates)
  {
    hide Frontier, Costed, Covers, Reach, Transitions, Work, MaskOf, Lands, After, Fee, InsertMinimum;
    BudgetSpent(w, pages, t, entries, next, done, explored, maxStates, x);
    InsertCovers(w, pages, t, entries, next, done, x);
    InsertCosted(w, pages, t, entries, next, x);
  }

  /** The demand at `t`, whose page has this bit, finds a state without it and costs its bytes. */
  ghost predicate Missed(w: Problem, pages: seq<nat>, t: nat, bit: nat, entries: map<Mask, nat>, state: Mask,
                         cost: nat)
  {
    && t < |w.demands| && Indexed(w, pages) && bit < |pages| && pages[bit] == w.demands[t] && w.capacity <= MAX_U64
    && Frontier(w, pages, t, entries) && state in entries && !Bit(state, bit)
    && cost == entries[state] + w.logical(w.demands[t]) && cost <= MAX_U64
  }

  /** One admission: keeps what `retained` names if the page then fits. */
  method AdmitOne(w: Problem, pages: seq<nat>, t: nat, bit: nat, entries: map<Mask, nat>, ghost state: Mask,
                  retained: Mask, cost: nat, before: map<Mask, nat>, spent: nat, maxStates: nat,
                  ghost seen: set<Transition>)
    returns (r: Outcome<map<Mask, nat>>)
    requires Missed(w, pages, t, bit, entries, state, cost) && Submask(retained, state)
    requires w.charge(w.demands[t]) <= w.capacity
    requires Progress(w, pages, t, entries, before, seen, spent, maxStates)
    requires Admit(Held(pages, state), Held(pages, retained)) !in seen
    ensures r.Ok? ==>
      Progress(w, pages, t, entries, r.value, seen + {Admit(Held(pages, state), Held(pages, retained))},
               spent + 1, maxStates)
    ensures r.ExactOracleLimit? ==> Overrun(w, t, maxStates)
    ensures !r.CounterOverflow?
  {
    hide Frontier, Costed, Covers, Progress, Reach, Transitions, Work, MaskOf, Held, Below, Bit, And, Or, Unit,
         InsertMinimum, Total;
    ghost var s, kept := Held(pages, state), Held(pages, retained);
    ghost var x := Admit(s, kept);
    StateKnown(w, pages, t, entries, state);
    HeldBit(pages, state, bit);
    HeldPart(pages, retained, state);
    SubmaskBelow(pages, retained, state);
    Offered(w, t, x);
    BudgetSpent(w, pages, t, entries, before, seen, spent, maxStates, x);
    if spent + 1 > maxStates { return ExactOracleLimit; }
    TotalMonotone(kept, s, w.charge);
    var charge := SubsetCharge(w, pages, retained);
    if charge.value + w.charge(w.demands[t]) > w.capacity {
      LookedAt(w, pages, t, entries, before, seen, spent, maxStates, x);
      return Ok(before);
    }
    HeldMore(pages, retained, bit);
    MaskHeld(pages, Or(retained, Unit(bit)));
    Recorded(w, pages, t, entries, before, seen, spent, maxStates, x, cost);
    r := Ok(InsertMinimum(before, Or(retained, Unit(bit)), cost));
  }

  /** The admissions on a miss: every part of the state that leaves room, in descending order. */
  method AdmitAll(w: Problem, pages: seq<nat>, t: nat, bit: nat, entries: map<Mask, nat>, state: Mask, cost: nat,
                  before: map<Mask, nat>, spent: nat, maxStates: nat, ghost seen: set<Transition>)
    returns (r: Outcome<map<Mask, nat>>, explored: nat, ghost done: set<Transition>)
    requires Missed(w, pages, t, bit, entries, state, cost) && w.charge(w.demands[t]) <= w.capacity
    requires Progress(w, pages, t, entries, before, seen, spent, maxStates)
    requires seen !! Admissions(Held(pages, state))
    ensures r.Ok? ==> Progress(w, pages, t, entries, r.value, done, explored, maxStates)
    ensures r.ExactOracleLimit? ==> Overrun(w, t, maxStates)
    ensures !r.CounterOverflow?
    ensures r.Ok? ==> done == Union(seen, Admissions(Held(pages, state)))
  {
    hide Frontier, Costed, Covers, Progress, Reach, Transitions, Work, MaskOf, Held, Below, Bit, And, AtMost, NextBelow,
         Swept, Admissions, Union;
    var next, retained := before, state;
    explored, done := spent, seen;
    ghost var s := Held(pages, state);
    StateKnown(w, pages, t, entries, state);
    SweptStart(pages, state);
    JoinNone(seen);
    WholeIsPart(state);
    while true
      invariant Submask(retained, state) && done == Union(seen, Swept(pages, s, retained))
      invariant Progress(w, pages, t, entries, next, done, explored, maxStates)
      decreases |Admissions(s) - done|
    {
      ghost var x := Admit(s, Held(pages, retained));
      NotYetSwept(pages, state, retained);
      NotIn(seen, Swept(pages, s, retained), Admissions(s), x);
      var admitted := AdmitOne(w, pages, t, bit, entries, state, retained, cost, next, explored, maxStates, done);
      if admitted.ExactOracleLimit? { return ExactOracleLimit, explored, done; }
      OneFewer(Admissions(s), done, x);
      next, explored, done := admitted.value, explored + 1, Union(done, {x});
      if retained == NONE { break; }
      SweptStep(pages, state, retained);
      Regroup(seen, Swept(pages, s, retained), x);
      NextIsSubmask(retained, state);
      retained := NextBelow(retained, state);
    }
    SweptEnd(pages, state);
    Regroup(seen, Swept(pages, s, NONE), Admit(s, Held(pages, NONE)));
    r := Ok(next);
  }

  ghost function Union<T>(a: set<T>, b: set<T>): set<T> { a + b }

  lemma Regroup<T>(a: set<T>, b: set<T>, x: T)
    ensures Union(Union(a, b), {x}) == Union(a, b + {x})
  {
    assert (a + b) + {x} == a + (b + {x});
  }

  lemma OneFewer<T>(all: set<T>, done: set<T>, x: T)
    requires x in all && x !in done
    ensures |all - Union(done, {x})| < |all - done| && Union(done, {x}) == done + {x}
  {
    assert all - (done + {x}) == (all - done) - {x};
  }

  lemma NotIn<T>(seen: set<T>, swept: set<T>, all: set<T>, x: T)
    requires seen !! all && x in all && x !in swept
    ensures x !in Union(seen, swept)
  {}

  lemma JoinNone<T>(a: set<T>)
    ensures Union(a, {}) == a
  {
    assert a + {} == a;
  }

  lemma StateKnown(w: Problem, pages: seq<nat>, t: nat, entries: map<Mask, nat>, state: Mask)
    requires t <= |w.demands| && Indexed(w, pages) && Frontier(w, pages, t, entries) && state in entries
    ensures Below(state, |pages|) && Held(pages, state) in Reach(w, t) && MaskOf(pages, Held(pages, state)) == state
    ensures Total(Held(pages, state), w.charge) <= w.capacity && entries[state] <= Everything(w, t)
  {
    hide MaskOf, Held, Below, Reach, Total, Attained, Present, Dominates;
    MaskHeld(pages, state);
    FrontierFits(w, pages, t, entries, state);
    NotAboveEverything(w, pages, t, entries, state);
  }

  /** The transitions one state offers. */
  ghost function From(w: Problem, t: nat, s: set<nat>): set<Transition>
    requires t < |w.demands|
  {
    var p := w.demands[t];
    if p !in s && w.charge(p) <= w.capacity then Union({Stay(s)}, Admissions(s)) else {Stay(s)}
  }

  /** The transitions of all states that are no longer to do. */
  ghost function Done(w: Problem, pages: seq<nat>, t: nat, todo: set<Mask>): set<Transition>
    requires t < |w.demands| && |pages| <= MAX_EXACT_PAGES
  {
    set x | x in Transitions(w, t) && MaskOf(pages, x.state) !in todo
  }

  lemma FromOffered(w: Problem, t: nat, s: set<nat>)
    requires t < |w.demands| && s in Reach(w, t)
    ensures forall x :: x in From(w, t, s) <==> x in Transitions(w, t) && x.state == s
  {
    hide Reach, Transitions;
    forall x ensures x in From(w, t, s) <==> x in Transitions(w, t) && x.state == s {
      Offered(w, t, x);
      if x.Admit? { assert x.kept <= s <==> x.kept in Parts(s); }
    }
  }

  lemma DoneStep(w: Problem, pages: seq<nat>, t: nat, entries: map<Mask, nat>, todo: set<Mask>, state: Mask)
    requires t < |w.demands| && Indexed(w, pages) && Frontier(w, pages, t, entries) && state in todo && state in entries
    ensures Done(w, pages, t, todo - {state}) == Union(Done(w, pages, t, todo), From(w, t, Held(pages, state)))
    ensures Done(w, pages, t, todo) !! From(w, t, Held(pages, state))
  {
    hide Reach, Transitions, MaskOf, Held, Below, Frontier, From;
    var s := Held(pages, state);
    StateKnown(w, pages, t, entries, state);
    FromOffered(w, t, s);
    forall x | x in Transitions(w, t) && MaskOf(pages, x.state) == state ensures x.state == s {
      Offered(w, t, x);
      Named(w, pages, t, x.state);
    }
  }

  lemma DoneStart(w: Problem, pages: seq<nat>, t: nat, entries: map<Mask, nat>)
    requires t < |w.demands| && Indexed(w, pages) && Frontier(w, pages, t, entries)
    ensures Done(w, pages, t, entries.Keys) == {}
  {
    hide Reach, Transitions, MaskOf, Costed, Dominates;
    forall x | x in Transitions(w, t) ensures MaskOf(pages, x.state) in entries {
      Offered(w, t, x);
    }
  }

  lemma DoneEnd(w: Problem, pages: seq<nat>, t: nat)
    requires t < |w.demands| && |pages| <= MAX_EXACT_PAGES
    ensures Done(w, pages, t, {}) == Transitions(w, t)
  {
    hide Transitions, MaskOf;
  }

  /** Leaving a state as it is. */
  method StayPut(w: Problem, pages: seq<nat>, t: nat, entries: map<Mask, nat>, state: Mask, cost: nat,
                 before: map<Mask, nat>, spent: nat, maxStates: nat, ghost seen: set<Transition>)
    returns (r: Outcome<map<Mask, nat>>)
    requires t < |w.demands| && Indexed(w, pages) && Frontier(w, pages, t, entries) && state in entries
    requires cost == entries[state] + Fee(w, t, Held(pages, state)) && cost <= MAX_U64
    requires Progress(w, pages, t, entries, before, seen, spent, maxStates) && Stay(Held(pages, state)) !in seen
    ensures r.Ok? ==>
      Progress(w, pages, t, entries, r.value, Union(seen, {Stay(Held(pages, state))}), spent + 1, maxStates)
    ensures r.ExactOracleLimit? ==> Overrun(w, t, maxStates)
    ensures !r.CounterOverflow?
  {
    hide Frontier, Costed, Covers, Progress, Reach, Transitions, Work, MaskOf, Held, Below, InsertMinimum, Fee;
    ghost var x := Stay(Held(pages, state));
    StateKnown(w, pages, t, entries, state);
    Offered(w, t, x);
    BudgetSpent(w, pages, t, entries, before, seen, spent, maxStates, x);
    if spent + 1 > maxStates { return ExactOracleLimit; }
    Recorded(w, pages, t, entries, before, seen, spent, maxStates, x, cost);
    r := Ok(InsertMinimum(before, state, cost));
  }

  /** One state of the frontier: a hit leaves it, a miss bypasses or admits. */
  method Expand(w: Problem, pages: seq<nat>, t: nat, bit: nat, entries: map<Mask, nat>, state: Mask,
                before: map<Mask, nat>, spent: nat, maxStates: nat, ghost seen: set<Transition>)
    returns (r: Outcome<map<Mask, nat>>, explored: nat, ghost done: set<Transition>)
    requires t < |w.demands| && Indexed(w, pages) && bit < |pages| && pages[bit] == w.demands[t]
    requires w.capacity <= MAX_U64
    requires Frontier(w, pages, t, entries) && state in entries
    requires Progress(w, pages, t, entries, before, seen, spent, maxStates)
    requires seen !! From(w, t, Held(pages, state))
    ensures r.Ok? ==> Progress(w, pages, t, entries, r.value, done, explored, maxStates)
    ensures r.Ok? ==> done == Union(seen, From(w, t, Held(pages, state)))
    ensures r.ExactOracleLimit? ==> Overrun(w, t, maxStates)
    ensures r.CounterOverflow? ==> Everything(w, t) + w.logical(w.demands[t]) > MAX_U64
  {
    hide Frontier, Costed, Covers, Progress, Reach, Transitions, Work, MaskOf, Held, Below, Bit, And, Unit, Admissions,
         Everything;
    ghost var s := Held(pages, state);
    StateKnown(w, pages, t, entries, state);
    CostKnown(w, pages, t, entries, state);
    TestsBit(state, bit);
    HeldBit(pages, state, bit);
    explored, done := spent, seen;
    if And(state, Unit(bit)) != NONE {
      r := StayPut(w, pages, t, entries, state, entries[state], before, spent, maxStates, seen);
      explored, done := spent + 1, Union(seen, {Stay(s)});
      return;
    }
    var cost := entries[state] + w.logical(w.demands[t]);
    if cost > MAX_U64 { return CounterOverflow, explored, done; }
    StaysApart(s);
    r := StayPut(w, pages, t, entries, state, cost, before, spent, maxStates, seen);
    explored, done := spent + 1, Union(seen, {Stay(s)});
    if r.Ok? && w.charge(w.demands[t]) <= w.capacity {
      assert done !! Admissions(s);
      r, explored, done := AdmitAll(w, pages, t, bit, entries, state, cost, r.value, explored, maxStates, done);
      assert Union(Union(seen, {Stay(s)}), Admissions(s)) == Union(seen, Union({Stay(s)}, Admissions(s)));
    }
  }

  lemma StaysApart(s: set<nat>)
    ensures Stay(s) !in Admissions(s)
  {}

  lemma CostKnown(w: Problem, pages: seq<nat>, t: nat, entries: map<Mask, nat>, state: Mask)
    requires t <= |w.demands| && |pages| <= MAX_EXACT_PAGES && Frontier(w, pages, t, entries) && state in entries
    ensures entries[state] <= MAX_U64
  {}

  /** One demand: every state of the frontier, in some order. */
  method Advance(w: Problem, pages: seq<nat>, t: nat, bit: nat, entries: map<Mask, nat>, spent: nat, maxStates: nat)
    returns (r: Outcome<map<Mask, nat>>, explored: nat)
    requires t < |w.demands| && Indexed(w, pages) && bit < |pages| && pages[bit] == w.demands[t]
    requires w.capacity <= MAX_U64
    requires Frontier(w, pages, t, entries) && spent == Work(w, t) && spent <= maxStates
    ensures r.Ok? ==> Frontier(w, pages, t + 1, r.value) && explored == Work(w, t + 1) && explored <= maxStates
    ensures r.ExactOracleLimit? ==> Overrun(w, t, maxStates)
    ensures r.CounterOverflow? ==> Everything(w, t) + w.logical(w.demands[t]) > MAX_U64
  {
    hide Frontier, Progress, Reach, Transitions, Work, MaskOf, Held, From, Done, Everything;
    var next: map<Mask, nat> := map[];
    var todo := entries.Keys;
    ghost var done: set<Transition> := {};
    explored := spent;
    DoneStart(w, pages, t, entries);
    NothingLooked(w, pages, t, entries, spent, maxStates);
    while todo != {}
      invariant todo <= entries.Keys && done == Done(w, pages, t, todo)
      invariant Progress(w, pages, t, entries, next, done, explored, maxStates)
      decreases |todo|
    {
      var state :| state in todo;
      DoneStep(w, pages, t, entries, todo, state);
      r, explored, done := Expand(w, pages, t, bit, entries, state, next, explored, maxStates, done);
      if !r.Ok? { return; }
      next, todo := r.value, todo - {state};
    }
    DoneEnd(w, pages, t);
    AllLooked(w, pages, t, entries, next, explored, maxStates);
    r := Ok(next);
  }

  lemma NothingLooked(w: Problem, pages: seq<nat>, t: nat, entries: map<Mask, nat>, spent: nat, maxStates: nat)
    requires t < |w.demands| && |pages| <= MAX_EXACT_PAGES && spent == Work(w, t) && spent <= maxStates
    ensures Progress(w, pages, t, entries, map[], {}, spent, maxStates)
  {
    hide Reach, Transitions, MaskOf, Held, Work;
  }

  lemma AllLooked(w: Problem, pages: seq<nat>, t: nat, entries: map<Mask, nat>, next: map<Mask, nat>, explored: nat,
                  maxStates: nat)
    requires t < |w.demands| && Indexed(w, pages) && Frontier(w, pages, t, entries)
    requires Progress(w, pages, t, entries, next, Transitions(w, t), explored, maxStates)
    ensures Frontier(w, pages, t + 1, next) && explored == Work(w, t + 1) && explored <= maxStates
  {
    hide Transitions, MaskOf, Held, Lands, After, Costed, Dominates, Below;
    KeepsDominating(w, pages, t, entries, next);
    assert Reach(w, t + 1) == Landings(w, t);
    forall s | s in Landings(w, t) ensures MaskOf(pages, s) in next {
      var x :| x in Transitions(w, t) && Lands(w, t, x) && After(w, t, x) == s;
    }
  }

  // ---------------------------------------------------------------- the oracle

  function Demanded(w: Problem): set<nat> { set p | p in w.demands }

  predicate IsLeast(s: set<nat>, p: nat) { p in s && forall q | q in s :: p <= q }

  predicate Rising(pages: seq<nat>) { forall i, j | 0 <= i < j < |pages| :: pages[i] < pages[j] }

  predicate Lists(pages: seq<nat>, s: set<nat>) {
    |pages| == |s| && (forall i | 0 <= i < |pages| :: pages[i] in s) && forall p | p in s :: p in pages
  }

  lemma {:induction false} LeastExists(s: set<nat>)
    requires s != {}
    ensures exists p :: IsLeast(s, p)
  {
    var x :| x in s;
    var rest := s - {x};
    assert s == rest + {x};
    if rest == {} {
      assert IsLeast(s, x);
    } else {
      LeastExists(rest);
      var y :| IsLeast(rest, y);
      assert IsLeast(s, if x < y then x else y);
    }
  }

  lemma Prepended(p: nat, rest: seq<nat>, s: set<nat>)
    requires IsLeast(s, p) && Lists(rest, s - {p}) && Rising(rest)
    ensures Lists([p] + rest, s) && Rising([p] + rest)
  {
    forall q | q in s ensures q in [p] + rest {
      if q != p { assert q in s - {p}; }
    }
  }

  /** The members in ascending order. */
  function Ascending(distinct: set<nat>): (pages: seq<nat>)
    ensures Lists(pages, distinct) && Rising(pages)
  {
    if distinct == {} then []
    else
      LeastExists(distinct);
      var p :| IsLeast(distinct, p);
      var rest := Ascending(distinct - {p});
      Prepended(p, rest, distinct);
      [p] + rest
  }

  lemma Opening(w: Problem, pages: seq<nat>)
    requires |pages| <= MAX_EXACT_PAGES
    ensures Frontier(w, pages, 0, map[NONE := 0]) && Attained(w, 0, {}, 0)
  {
    hide Held, MaskOf;
    NothingHeld(pages);
    TotalNone<nat>(w.charge);
    assert IsSchedule(w, 0, [{}]);
    EmptyMask(pages);
    forall sets | IsSchedule(w, 0, sets) ensures Matched(pages, map[NONE := 0], sets[0], Cost(w, 0, sets)) {
      assert NONE in map[NONE := 0 as nat];
    }
  }

  lemma EmptyMask(pages: seq<nat>)
    requires |pages| <= MAX_EXACT_PAGES
    ensures MaskOf(pages, {}) == NONE
  {
    hide Bit, Below, MaskOf;
    MaskBits(pages, {});
    NoBits(MaskOf(pages, {}), |pages|);
  }

  /** The limits under which the oracle answers: the demands, the distinct pages and the transitions
      it looks at. */
  ghost predicate WithinLimits(w: Problem, maxStates: nat) {
    && |w.demands| <= MAX_EXACT_DEMANDS && |Demanded(w)| <= MAX_EXACT_PAGES
    && Work(w, |w.demands|) <= maxStates
  }

  /** The least of the final costs. */
  method Minimum(entries: map<Mask, nat>) returns (least: nat)
    requires entries != map[]
    ensures exists m :: m in entries && entries[m] == least
    ensures forall m | m in entries :: least <= entries[m]
  {
    var first :| first in entries;
    least := entries[first];
    var todo := entries.Keys - {first};
    while todo != {}
      invariant todo <= entries.Keys && exists m :: m in entries && entries[m] == least
      invariant forall m | m in entries && m !in todo :: least <= entries[m]
      decreases |todo|
    {
      var m :| m in todo;
      if entries[m] < least { least := entries[m]; }
      todo := todo - {m};
    }
  }

  /** The exact oracle. It answers exactly when the limits hold and the bytes of all demands fit 64
      bits, and its answer is the least cost over every schedule. */
  method ExactVariableByteCost(w: Problem, maxStates: nat) returns (r: Outcome<nat>)
    requires w.capacity <= MAX_U64
    ensures r.Ok? <==> WithinLimits(w, maxStates) && Everything(w, |w.demands|) <= MAX_U64
    ensures r.Ok? ==> Optimal(w, r.value)
    ensures r.ExactOracleLimit? ==> !WithinLimits(w, maxStates)
    ensures r.CounterOverflow? ==> Everything(w, |w.demands|) > MAX_U64
  {
    hide Work, Everything, Optimal, Frontier;
    if maxStates == 0 {
      AtLeastOne(w);
      return ExactOracleLimit;
    }
    if |w.demands| > MAX_EXACT_DEMANDS { return ExactOracleLimit; }
    var distinct := Demanded(w);
    if |distinct| > MAX_EXACT_PAGES { return ExactOracleLimit; }
    var pages := Ascending(distinct);
    assert Indexed(w, pages);
    r := Search(w, pages, maxStates);
  }

  /** Two demands of one page of 2^63 bytes: the optimum fits 64 bits, and still the search overflows,
      because serving without a cache does not. */
  lemma OverflowThoughOptimumFits(w: Problem)
    requires w.demands == [0, 0] && w.capacity == 0x8000_0000_0000_0000
    requires w.charge(0) == 0x8000_0000_0000_0000 && w.logical(0) == 0x8000_0000_0000_0000
    ensures Optimal(w, 0x8000_0000_0000_0000) && 0x8000_0000_0000_0000 <= MAX_U64 < Everything(w, 2)
  {
    assert Everything(w, 1) == w.logical(0) by { assert Everything(w, 0) == 0; }
    var sets: seq<set<nat>> := [{}, {0}, {0}];
    TotalNone<nat>(w.charge);
    TotalAdd<nat>({}, w.charge, 0);
    assert {} + {0} == {0};
    assert IsSchedule(w, 2, sets);
    AfterFirst(w, sets);
    assert Attained(w, 2, {0}, Cost(w, 2, sets));
    forall other | IsSchedule(w, 2, other) ensures w.logical(0) <= Cost(w, 2, other) {
      AfterFirst(w, other);
    }
  }

  lemma AfterFirst(w: Problem, sets: seq<set<nat>>)
    requires w.demands == [0, 0] && |sets| == 3 && sets[0] == {}
    ensures Cost(w, 2, sets) == w.logical(0) + Fee(w, 1, sets[1])
  {
    assert Cost(w, 0, sets) == 0 && Cost(w, 1, sets) == w.logical(0);
  }

  lemma AtLeastOne(w: Problem)
    ensures Work(w, |w.demands|) > 0
  {
    hide Transitions, Reach;
    WorkGrows(w, 0, |w.demands|);
  }

  method Search(w: Problem, pages: seq<nat>, maxStates: nat) returns (r: Outcome<nat>)
    requires w.capacity <= MAX_U64 && Indexed(w, pages) && maxStates > 0
    ensures r.Ok? <==> Work(w, |w.demands|) <= maxStates && Everything(w, |w.demands|) <= MAX_U64
    ensures r.Ok? ==> Optimal(w, r.value)
    ensures r.ExactOracleLimit? ==> Work(w, |w.demands|) > maxStates
    ensures r.CounterOverflow? ==> Everything(w, |w.demands|) > MAX_U64
  {
    hide Frontier, Reach, Transitions, Held, MaskOf, Optimal;
    var bitForPage := map i | 0 <= i < |pages| :: pages[i] := i;
    var frontier: map<Mask, nat> := map[NONE := 0];
    var explored := 1;
    Opening(w, pages);
    for t := 0 to |w.demands|
      invariant Frontier(w, pages, t, frontier) && explored == Work(w, t) && explored <= maxStates
    {
      assert w.demands[t] in pages;
      var bit := bitForPage[w.demands[t]];
      var next: Outcome<map<Mask, nat>>;
      next, explored := Advance(w, pages, t, bit, frontier, explored, maxStates);
      if next.ExactOracleLimit? {
        WorkGrows(w, t + 1, |w.demands|);
        return ExactOracleLimit;
      }
      if next.CounterOverflow? {
        EverythingGrows(w, t + 1, |w.demands|);
        return CounterOverflow;
      }
      frontier := next.value;
    }
    FrontierAnswers(w, pages, frontier);
    var least := Minimum(frontier);
    LeastIsOptimal(w, pages, frontier, least);
    r := Ok(least);
  }

  lemma FrontierAnswers(w: Problem, pages: seq<nat>, entries: map<Mask, nat>)
    requires Indexed(w, pages) && Frontier(w, pages, |w.demands|, entries)
    ensures NONE in entries && Everything(w, |w.demands|) <= MAX_U64
  {
    hide Held, MaskOf, Transitions, Attained, Dominates, Below;
    EmptyMask(pages);
    AlwaysEmpty(w, |w.demands|);
  }

  lemma {:induction false} AlwaysEmpty(w: Problem, t: nat)
    requires t <= |w.demands|
    ensures {} in Reach(w, t)
  {
    if t > 0 {
      hide Transitions;
      AlwaysEmpty(w, t - 1);
      Offered(w, t - 1, Stay({}));
    }
  }

  lemma LeastIsOptimal(w: Problem, pages: seq<nat>, entries: map<Mask, nat>, least: nat)
    requires Indexed(w, pages) && Frontier(w, pages, |w.demands|, entries)
    requires (exists m :: m in entries && entries[m] == least) && forall m | m in entries :: least <= entries[m]
    ensures Optimal(w, least)
  {
    hide Held, MaskOf, Reach, Attained, Below, Present, IsSchedule;
    var m :| m in entries && entries[m] == least;
    assert Attained(w, |w.demands|, Held(pages, m), least);
  }
}
