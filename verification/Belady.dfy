/** The offline replay `simulate_belady` and why the result is marked optimal: on a uniform
    page geometry no demand schedule whatsoever, at any prefix of the trace, has fewer misses. */
module Belady {
  import opened Common

  /** The next use of a page that is not demanded again. */
  const NEVER := MAX_U64

  // ---------------------------------------------------------------- next uses

  /** The first position at or after `t` that demands `p`, or NEVER. */
  function NextUse(d: seq<nat>, t: nat, p: nat): nat
    requires t <= |d|
    decreases |d| - t
  {
    if t == |d| then NEVER else if d[t] == p then t else NextUse(d, t + 1, p)
  }

  lemma {:induction false} NextUseLater(d: seq<nat>, t: nat, p: nat)
    requires t <= |d| < NEVER
    ensures t <= NextUse(d, t, p)
    decreases |d| - t
  {
    if t < |d| { NextUseLater(d, t + 1, p); }
  }

  /** What the victim search compares: next use, then being the candidate, then the identifier. */
  datatype UseKey = UseKey(next: nat, candidate: bool, page: nat)

  predicate Below(a: UseKey, b: UseKey) {
    a.next < b.next || (a.next == b.next && (
      (!a.candidate && b.candidate) || (a.candidate == b.candidate && a.page < b.page)))
  }

  function KeyOf(d: seq<nat>, t: nat, candidate: nat, p: nat): UseKey
    requires t <= |d|
  {
    UseKey(NextUse(d, t, p), p == candidate, p)
  }

  ghost predicate IsFarthest(d: seq<nat>, t: nat, candidate: nat, among: set<nat>, f: nat)
    requires t <= |d|
  {
    f in among && forall q | q in among && q != f :: Below(KeyOf(d, t, candidate, q), KeyOf(d, t, candidate, f))
  }

  lemma {:induction false} FarthestExists(d: seq<nat>, t: nat, candidate: nat, among: set<nat>)
    requires t <= |d| && among != {}
    ensures exists f :: IsFarthest(d, t, candidate, among, f)
  {
    var x :| x in among;
    if among == {x} {
      assert IsFarthest(d, t, candidate, among, x);
    } else {
      FarthestExists(d, t, candidate, among - {x});
      var g :| IsFarthest(d, t, candidate, among - {x}, g);
      FartherOf(d, t, candidate, among - {x}, g, x);
      assert among - {x} + {x} == among;
    }
  }

  lemma FartherOf(d: seq<nat>, t: nat, candidate: nat, among: set<nat>, g: nat, x: nat)
    requires t <= |d| && IsFarthest(d, t, candidate, among, g) && x !in among
    ensures
      var f := if Below(KeyOf(d, t, candidate, g), KeyOf(d, t, candidate, x)) then x else g;
      IsFarthest(d, t, candidate, among + {x}, f)
  {
    var kx, kg := KeyOf(d, t, candidate, x), KeyOf(d, t, candidate, g);
    var f := if Below(kg, kx) then x else g;
    forall q | q in among + {x} && q != f ensures Below(KeyOf(d, t, candidate, q), KeyOf(d, t, candidate, f)) {
      var kq := KeyOf(d, t, candidate, q);
      assert q == x || q == g || Below(kq, kg);
    }
  }

  ghost function Farthest(d: seq<nat>, t: nat, candidate: nat, among: set<nat>): (f: nat)
    requires t <= |d| && among != {}
    ensures IsFarthest(d, t, candidate, among, f)
  {
    FarthestExists(d, t, candidate, among);
    var f :| IsFarthest(d, t, candidate, among, f);
    f
  }

  /** The residents after serving the demand at `t`. */
  ghost function Served(d: seq<nat>, slots: nat, t: nat, residents: set<nat>): set<nat>
    requires t < |d|
  {
    if d[t] in residents then residents
    else if |residents| < slots then residents + {d[t]}
    else residents + {d[t]} - {Farthest(d, t + 1, d[t], residents + {d[t]})}
  }

  /** The residents before the demand at `t`. */
  ghost function Residents(d: seq<nat>, slots: nat, t: nat): (r: set<nat>)
    requires t <= |d|
    ensures |r| <= slots
  {
    if t == 0 then {} else Served(d, slots, t - 1, Residents(d, slots, t - 1))
  }

  ghost function Misses(d: seq<nat>, slots: nat, t: nat): nat
    requires t <= |d|
  {
    if t == 0 then 0
    else Misses(d, slots, t - 1) + if d[t - 1] in Residents(d, slots, t - 1) then 0 else 1
  }

  /** Serving the demand at `t` replaces a resident page. */
  ghost predicate Evicts(d: seq<nat>, slots: nat, t: nat, residents: set<nat>)
    requires t < |d|
  {
    d[t] !in residents && |residents| >= slots && Farthest(d, t + 1, d[t], residents + {d[t]}) != d[t]
  }

  ghost function Evictions(d: seq<nat>, slots: nat, t: nat): nat
    requires t <= |d|
  {
    if t == 0 then 0
    else Evictions(d, slots, t - 1) + if Evicts(d, slots, t - 1, Residents(d, slots, t - 1)) then 1 else 0
  }

  lemma {:induction false} EvictionsGrow(d: seq<nat>, slots: nat, t: nat, u: nat)
    requires t <= u <= |d|
    ensures Evictions(d, slots, t) <= Evictions(d, slots, u)
  {
    hide Evicts, Residents;
    if t < u { EvictionsGrow(d, slots, t, u - 1); }
  }

  // ---------------------------------------------------------------- schedules

  /** Any way of running a cache of `slots` pages on demand: start empty, admit nothing but the
      demanded page, evict whatever you like whenever you like. */
  ghost predicate IsSchedule(d: seq<nat>, slots: nat, sets: seq<set<nat>>) {
    && |sets| == |d| + 1 && sets[0] == {}
    && (forall t | 0 <= t < |sets| :: |sets[t]| <= slots)
    && forall t | 0 <= t < |d| :: sets[t + 1] <= sets[t] + {d[t]}
  }

  ghost function ScheduleMisses(d: seq<nat>, sets: seq<set<nat>>, t: nat): nat
    requires t <= |d| && |sets| == |d| + 1
  {
    if t == 0 then 0
    else ScheduleMisses(d, sets, t - 1) + if d[t - 1] in sets[t - 1] then 0 else 1
  }

  /** The members of `s` used again by time `u`. */
  ghost function Soon(s: set<nat>, d: seq<nat>, t: nat, u: nat): set<nat>
    requires t <= |d|
  {
    set x | x in s && NextUse(d, t, x) <= u
  }

  /** For every deadline, `s` holds at most `slack` more pages due by then than `r` does. */
  ghost predicate Within(r: set<nat>, s: set<nat>, d: seq<nat>, t: nat, slack: int)
    requires t <= |d|
  {
    slack >= 0 && forall u: nat | u < NEVER :: |Soon(s, d, t, u)| <= |Soon(r, d, t, u)| + slack
  }

  /** Serving a demand removes the demanded page from every deadline it was due by. */
  lemma SoonNow(s: set<nat>, d: seq<nat>, t: nat, u: nat)
    requires t < |d| < NEVER && t <= u
    ensures |Soon(s, d, t, u)| == |Soon(s - {d[t]}, d, t + 1, u)| + if d[t] in s then 1 else 0
  {
    var rest := Soon(s - {d[t]}, d, t + 1, u);
    if d[t] in s {
      assert Soon(s, d, t, u) == rest + {d[t]};
    } else {
      assert Soon(s, d, t, u) == rest;
    }
  }

  lemma SoonAdd(s: set<nat>, d: seq<nat>, t: nat, u: nat, p: nat)
    requires t <= |d| < NEVER && p !in s
    ensures |Soon(s + {p}, d, t, u)| == |Soon(s, d, t, u)| + if NextUse(d, t, p) <= u then 1 else 0
  {
    if NextUse(d, t, p) <= u {
      assert Soon(s + {p}, d, t, u) == Soon(s, d, t, u) + {p};
    } else {
      assert Soon(s + {p}, d, t, u) == Soon(s, d, t, u);
    }
  }

  lemma SubsetCard(a: set<nat>, b: set<nat>)
    requires a <= b
    ensures |a| <= |b|
  {
    assert b == a + (b - a);
  }

  lemma NothingDueBefore(s: set<nat>, d: seq<nat>, t: nat, u: nat)
    requires u < t <= |d| < NEVER
    ensures Soon(s, d, t, u) == {}
  {
    forall x | x in s ensures NextUse(d, t, x) > u {
      NextUseLater(d, t, x);
    }
  }

  /** Both caches take the demanded page; each miss changes the balance for every deadline. */
  lemma TakeBalance(s: set<nat>, d: seq<nat>, t: nat, u: nat)
    requires t < |d| < NEVER && t <= u
    ensures |Soon(s + {d[t]}, d, t + 1, u)| == |Soon(s, d, t, u)|
      - (if d[t] in s then 1 else 0) + (if NextUse(d, t + 1, d[t]) <= u then 1 else 0)
  {
    SoonNow(s, d, t, u);
    SoonAdd(s - {d[t]}, d, t + 1, u, d[t]);
    assert s - {d[t]} + {d[t]} == s + {d[t]};
  }

  /** Before any eviction: the slack moves with the misses and never becomes negative. */
  lemma TakeKeepsWithin(r: set<nat>, s: set<nat>, d: seq<nat>, t: nat, slack: int)
    requires t < |d| < NEVER && Within(r, s, d, t, slack)
    ensures
      var moved := slack + (if d[t] in s then 0 else 1) - (if d[t] in r then 0 else 1);
      Within(r + {d[t]}, s + {d[t]}, d, t + 1, moved)
  {
    var p := d[t];
    var moved := slack + (if p in s then 0 else 1) - (if p in r then 0 else 1);
    assert moved >= 0 by {
      SoonNow(r, d, t, t);
      SoonNow(s, d, t, t);
      NothingDueBefore(r - {p}, d, t + 1, t);
    }
    var r', s', t' := r + {p}, s + {p}, t + 1;
    forall u: nat | u < NEVER
      ensures |Soon(s', d, t', u)| <= |Soon(r', d, t', u)| + moved
    {
      if u < t {
        NothingDueBefore(s', d, t', u);
      } else {
        TakeBalance(r, d, t, u);
        TakeBalance(s, d, t, u);
      }
    }
  }

  /** Dropping the farthest of `slots + 1` pages loses nothing against any set of `slots` pages. */
  lemma DropFarthest(u': set<nat>, s: set<nat>, d: seq<nat>, t: nat, candidate: nat, slots: nat, slack: int)
    requires t <= |d| < NEVER && |u'| == slots + 1 && |s| <= slots && Within(u', s, d, t, slack)
    ensures Within(u' - {Farthest(d, t, candidate, u')}, s, d, t, slack)
  {
    var f := Farthest(d, t, candidate, u');
    forall u: nat | u < NEVER
      ensures |Soon(s, d, t, u)| <= |Soon(u' - {f}, d, t, u)| + slack
    {
      if NextUse(d, t, f) <= u {
        assert Soon(u' - {f}, d, t, u) == u' - {f};
        SubsetCard(Soon(s, d, t, u), s);
      } else {
        assert Soon(u' - {f}, d, t, u) == Soon(u', d, t, u);
      }
    }
  }

  lemma ShrinkKeepsWithin(r: set<nat>, s: set<nat>, s': set<nat>, d: seq<nat>, t: nat, slack: int)
    requires t <= |d| < NEVER && Within(r, s, d, t, slack) && s' <= s
    ensures Within(r, s', d, t, slack)
  {
    forall u: nat | u < NEVER ensures |Soon(s', d, t, u)| <= |Soon(r, d, t, u)| + slack {
      SubsetCard(Soon(s', d, t, u), Soon(s, d, t, u));
    }
  }

  /** One demand: whatever the schedule does, the replay stays within the new slack. */
  lemma ServeKeepsWithin(d: seq<nat>, slots: nat, t: nat, r: set<nat>, s: set<nat>, s': set<nat>, slack: int)
    requires t < |d| < NEVER && Within(r, s, d, t, slack) && |r| <= slots
    requires s' <= s + {d[t]} && |s'| <= slots
    ensures Within(Served(d, slots, t, r), s', d, t + 1,
      slack + (if d[t] in s then 0 else 1) - (if d[t] in r then 0 else 1))
  {
    var p := d[t];
    var moved := slack + (if p in s then 0 else 1) - (if p in r then 0 else 1);
    TakeKeepsWithin(r, s, d, t, slack);
    ShrinkKeepsWithin(r + {p}, s + {p}, s', d, t + 1, moved);
    if p in r {
      assert r + {p} == r;
    } else if |r| >= slots {
      DropFarthest(r + {p}, s', d, t + 1, p, slots, moved);
    }
  }

  lemma {:induction false} BeladyWithin(d: seq<nat>, slots: nat, sets: seq<set<nat>>, t: nat)
    requires |d| < NEVER && IsSchedule(d, slots, sets) && t <= |d|
    ensures Within(Residents(d, slots, t), sets[t], d, t, ScheduleMisses(d, sets, t) - Misses(d, slots, t))
  {
    if t == 0 {
      assert forall u: nat :: Soon({}, d, 0, u) == {};
    } else {
      var k := t - 1;
      BeladyWithin(d, slots, sets, k);
      var r, s, s' := Residents(d, slots, k), sets[k], sets[k + 1];
      var slack := ScheduleMisses(d, sets, k) - Misses(d, slots, k);
      ServeKeepsWithin(d, slots, k, r, s, s', slack);
      assert Residents(d, slots, t) == Served(d, slots, k, r);
      assert ScheduleMisses(d, sets, t) - Misses(d, slots, t) ==
        slack + (if d[k] in s then 0 else 1) - (if d[k] in r then 0 else 1);
    }
  }

  /** No schedule has fewer misses than the replay, on the whole trace or on any prefix of it. */
  lemma BeladyIsOptimal(d: seq<nat>, slots: nat, sets: seq<set<nat>>, t: nat)
    requires |d| < NEVER && IsSchedule(d, slots, sets) && t <= |d|
    ensures Misses(d, slots, t) <= ScheduleMisses(d, sets, t)
  {
    BeladyWithin(d, slots, sets, t);
  }

  ghost function OwnSchedule(d: seq<nat>, slots: nat): seq<set<nat>> {
    seq(|d| + 1, t requires 0 <= t <= |d| => Residents(d, slots, t))
  }

  lemma {:induction false} OwnMisses(d: seq<nat>, slots: nat, t: nat)
    requires t <= |d|
    ensures ScheduleMisses(d, OwnSchedule(d, slots), t) == Misses(d, slots, t)
  {
    hide Residents;
    if t > 0 {
      OwnMisses(d, slots, t - 1);
      assert OwnSchedule(d, slots)[t - 1] == Residents(d, slots, t - 1);
    }
  }

  /** The replay is itself a schedule, so the bound is attained. */
  lemma BeladyIsASchedule(d: seq<nat>, slots: nat)
    ensures IsSchedule(d, slots, OwnSchedule(d, slots))
    ensures ScheduleMisses(d, OwnSchedule(d, slots), |d|) == Misses(d, slots, |d|)
  {
    OwnMisses(d, slots, |d|);
  }

  // ---------------------------------------------------------------- the replay

  datatype Metrics = Metrics(
    accesses: nat, demandBytes: nat, hits: nat, misses: nat, loadBytes: nat,
    admissions: nat, bypasses: nat, evictions: nat, evictedCharge: nat, finalCharge: nat, peakCharge: nat)

  datatype Result<T> = Ok(value: T) | CounterOverflow | UnsupportedGeometry

  /** The positions at or after `t` that demand `p`, in order. */
  function Positions(d: seq<nat>, t: nat, p: nat): seq<nat>
    requires t <= |d|
    decreases |d| - t
  {
    if t == |d| then [] else (if d[t] == p then [t] else []) + Positions(d, t + 1, p)
  }

  lemma {:induction false} FirstPosition(d: seq<nat>, t: nat, p: nat)
    requires t <= |d| < NEVER
    ensures NextUse(d, t, p) == if Positions(d, t, p) == [] then NEVER else Positions(d, t, p)[0]
    decreases |d| - t
  {
    if t < |d| && d[t] != p { FirstPosition(d, t + 1, p); }
  }

  /** The queue of remaining demand positions of every page still to be demanded. */
  ghost predicate IndexesFuture(future: map<nat, seq<nat>>, d: seq<nat>, t: nat)
    requires t <= |d|
  {
    forall p: nat :: (if p in future then future[p] else []) == Positions(d, t, p)
  }

  lemma NothingAhead(d: seq<nat>)
    ensures IndexesFuture(map[], d, |d|)
  {}

  lemma FutureGrows(future: map<nat, seq<nat>>, d: seq<nat>, t: nat)
    requires t < |d| && IndexesFuture(future, d, t + 1)
    ensures IndexesFuture(future[d[t] := [t] + if d[t] in future then future[d[t]] else []], d, t)
  {}

  method FutureDemands(d: seq<nat>) returns (future: map<nat, seq<nat>>)
    ensures IndexesFuture(future, d, 0)
  {
    future := map[];
    var t := |d|;
    NothingAhead(d);
    hide IndexesFuture;
    while t > 0
      invariant 0 <= t <= |d| && IndexesFuture(future, d, t)
    {
      t := t - 1;
      var p := d[t];
      FutureGrows(future, d, t);
      future := future[p := [t] + if p in future then future[p] else []];
    }
  }

  /** Removes the demand being served from its page's queue; the queue is never empty here. */
  method PopCurrentDemand(future: map<nat, seq<nat>>, p: nat, ghost d: seq<nat>, ghost t: nat)
    returns (rest: map<nat, seq<nat>>)
    requires t < |d| && p == d[t] && IndexesFuture(future, d, t)
    ensures IndexesFuture(rest, d, t + 1)
  {
    assert p in future && future[p] == Positions(d, t, p) && future[p][0] == t;
    rest := future[p := future[p][1..]];
    forall q: nat ensures (if q in rest then rest[q] else []) == Positions(d, t + 1, q) {
      assert q != p ==> Positions(d, t, q) == Positions(d, t + 1, q);
    }
  }

  function Front(future: map<nat, seq<nat>>, p: nat): nat {
    if p in future && future[p] != [] then future[p][0] else NEVER
  }

  method FarthestVictim(residents: set<nat>, candidate: nat, future: map<nat, seq<nat>>, ghost d: seq<nat>,
                        ghost t: nat)
    returns (victim: nat)
    requires t <= |d| < NEVER && IndexesFuture(future, d, t)
    ensures IsFarthest(d, t, candidate, residents + {candidate}, victim)
  {
    victim := candidate;
    var rest := residents - {candidate};
    while rest != {}
      invariant rest <= residents - {candidate}
      invariant IsFarthest(d, t, candidate, residents + {candidate} - rest, victim)
      decreases rest
    {
      var p :| p in rest;
      FirstPosition(d, t, p);
      FirstPosition(d, t, victim);
      FartherOf(d, t, candidate, residents + {candidate} - rest, victim, p);
      assert residents + {candidate} - rest + {p} == residents + {candidate} - (rest - {p});
      if Below(UseKey(Front(future, victim), victim == candidate, victim),
               UseKey(Front(future, p), p == candidate, p)) {
        victim := p;
      }
      rest := rest - {p};
    }
    assert residents + {candidate} - rest == residents + {candidate};
  }

  /** The accounting identities after `t` demands with `held` resident pages. */
  ghost predicate Accounts(m: Metrics, t: nat, held: nat, capacity: nat, charge: nat, logical: nat) {
    && m.accesses == t && Sums(t, m.hits, m.misses) && Sums(m.misses, m.admissions, m.bypasses)
    && m.demandBytes == t * logical && m.loadBytes == m.misses * logical
    && Sums(m.admissions, m.evictions, held) && m.evictedCharge == m.evictions * charge
    && m.finalCharge == held * charge <= m.peakCharge <= capacity
  }

  predicate Sums(whole: nat, a: nat, b: nat) { whole == a + b }

  predicate Fits(slots: nat, capacity: nat, charge: nat)
    requires charge > 0
  {
    slots <= capacity / charge
  }

  function Slots(pageCount: nat, capacity: nat, charge: nat): nat
    requires charge > 0
  {
    if capacity / charge < pageCount then capacity / charge else pageCount
  }

  /** Serves one demand whose bytes still fit the counter; the charge of an eviction may not. */
  method ServeDemand(d: seq<nat>, t: nat, slots: nat, capacity: nat, charge: nat, logical: nat, residents: set<nat>,
                     future: map<nat, seq<nat>>, m: Metrics) returns (ok: bool, after: set<nat>, n: Metrics)
    requires t < |d| < NEVER && IndexesFuture(future, d, t + 1)
    requires charge > 0 && |residents| <= slots && Fits(slots, capacity, charge)
    requires Accounts(m, t, |residents|, capacity, charge, logical)
    ensures ok <==> !(Evicts(d, slots, t, residents) && m.evictedCharge + charge > MAX_U64)
    ensures ok ==> after == Served(d, slots, t, residents)
    ensures ok ==> Accounts(n, t + 1, |after|, capacity, charge, logical)
    ensures ok ==>
      n.misses == m.misses + (if d[t] in residents then 0 else 1) && n.demandBytes == m.demandBytes + logical
    ensures ok ==> n.evictions == m.evictions + (if Evicts(d, slots, t, residents) then 1 else 0)
    ensures ok && Evicts(d, slots, t, residents) ==> n.evictedCharge == m.evictedCharge + charge
    ensures ok && !Evicts(d, slots, t, residents) ==> n.evictedCharge == m.evictedCharge
  {
    OneMore(t, logical);
    OneMore(m.misses, logical);
    OneMore(m.evictions, charge);
    n := m.(accesses := m.accesses + 1, demandBytes := m.demandBytes + logical);
    if d[t] in residents {
      return true, residents, n.(hits := n.hits + 1);
    }
    n := n.(misses := n.misses + 1, loadBytes := n.loadBytes + logical);
    ok, after, n := Fill(d, t, slots, capacity, charge, residents, future, n);
  }

  datatype Geometry = Geometry(logical: nat, charge: nat)

  /** One positive charge and one logical size for the whole catalogue. */
  predicate Uniform(pages: seq<Geometry>) {
    pages != [] ==> pages[0].charge > 0 && forall i | 0 <= i < |pages| :: pages[i] == pages[0]
  }

  /** The common geometry; an empty catalogue has unit charge and nothing to load. */
  method UniformGeometry(pages: seq<Geometry>) returns (r: Result<Geometry>)
    ensures r == if Uniform(pages) then Ok(CommonGeometry(pages)) else UnsupportedGeometry
  {
    if pages == [] { return Ok(Geometry(0, 1)); }
    if pages[0].charge == 0 { return UnsupportedGeometry; }
    for i := 1 to |pages|
      invariant forall k | 0 <= k < i :: pages[k] == pages[0]
    {
      if pages[i].charge != pages[0].charge || pages[i].logical != pages[0].logical { return UnsupportedGeometry; }
    }
    r := Ok(pages[0]);
  }

  function CommonGeometry(pages: seq<Geometry>): Geometry { if pages == [] then Geometry(0, 1) else pages[0] }

  /** Replays demands over a catalogue. It refuses exactly the geometries that are not uniform. It
      succeeds exactly when both the demanded bytes and the charge of all evictions fit 64 bits; then
      its misses are the optimum, its evictions those of the replay, and all identities hold. */
  method SimulateBelady(d: seq<nat>, pages: seq<Geometry>, capacity: nat) returns (out: Result<Metrics>)
    requires |d| < NEVER
    ensures out == UnsupportedGeometry <==> !Uniform(pages)
    ensures Uniform(pages) ==>
      var g := CommonGeometry(pages);
      && g.charge > 0
      && var slots := Slots(|pages|, capacity, g.charge);
      (out.Ok? <==> |d| * g.logical <= MAX_U64 && Evictions(d, slots, |d|) * g.charge <= MAX_U64)
    ensures out.Ok? ==>
      var g := CommonGeometry(pages);
      && g.charge > 0
      && var slots := Slots(|pages|, capacity, g.charge);
      && out.value.misses == Misses(d, slots, |d|) && out.value.evictions == Evictions(d, slots, |d|)
      && Accounts(out.value, |d|, |Residents(d, slots, |d|)|, capacity, g.charge, g.logical)
  {
    hide Misses, Residents, Evictions, Accounts;
    var g := UniformGeometry(pages);
    if g.UnsupportedGeometry? { return UnsupportedGeometry; }
    var slots := Slots(|pages|, capacity, g.value.charge);
    out := ServeAll(d, slots, capacity, g.value.charge, g.value.logical);
  }

  method ServeAll(d: seq<nat>, slots: nat, capacity: nat, charge: nat, logical: nat) returns (out: Result<Metrics>)
    requires |d| < NEVER && charge > 0 && Fits(slots, capacity, charge)
    ensures !out.UnsupportedGeometry?
    ensures out.Ok? <==> |d| * logical <= MAX_U64 && Evictions(d, slots, |d|) * charge <= MAX_U64
    ensures out.Ok? ==> out.value.misses == Misses(d, slots, |d|) && out.value.evictions == Evictions(d, slots, |d|)
    ensures out.Ok? ==> Accounts(out.value, |d|, |Residents(d, slots, |d|)|, capacity, charge, logical)
  {
    hide Fits, IndexesFuture, Accounts, Evicts, Served;
    var future: map<nat, seq<nat>> := FutureDemands(d);
    var residents: set<nat> := {};
    var m := Metrics(0, 0, 0, 0, 0, 0, 0, 0, 0, 0, 0);
    NothingServed(capacity, charge, logical);
    for t := 0 to |d|
      invariant IndexesFuture(future, d, t) && residents == Residents(d, slots, t)
      invariant m.misses == Misses(d, slots, t) && m.demandBytes <= MAX_U64
      invariant m.evictions == Evictions(d, slots, t) && m.evictedCharge <= MAX_U64
      invariant Accounts(m, t, |residents|, capacity, charge, logical)
    {
      future := PopCurrentDemand(future, d[t], d, t);
      if m.demandBytes + logical > MAX_U64 {
        TooMany(m, t, |residents|, capacity, charge, logical, |d|);
        return CounterOverflow;
      }
      ghost var before := m;
      var ok, next, n := ServeDemand(d, t, slots, capacity, charge, logical, residents, future, m);
      if !ok {
        TooCharged(m, t, |residents|, capacity, charge, logical, Evictions(d, slots, t + 1));
        EvictionsGrow(d, slots, t + 1, |d|);
        MoreDemands(Evictions(d, slots, t + 1), Evictions(d, slots, |d|), charge);
        return CounterOverflow;
      }
      residents, m := next, n;
    }
    AllCounted(m, |d|, |residents|, capacity, charge, logical);
    out := Ok(m);
  }

  lemma NothingServed(capacity: nat, charge: nat, logical: nat)
    ensures Accounts(Metrics(0, 0, 0, 0, 0, 0, 0, 0, 0, 0, 0), 0, 0, capacity, charge, logical)
  {}

  lemma AllCounted(m: Metrics, t: nat, held: nat, capacity: nat, charge: nat, logical: nat)
    requires Accounts(m, t, held, capacity, charge, logical)
    ensures m.demandBytes == t * logical && m.evictedCharge == m.evictions * charge
  {}

  lemma TooMany(m: Metrics, t: nat, held: nat, capacity: nat, charge: nat, logical: nat, n: nat)
    requires Accounts(m, t, held, capacity, charge, logical) && t < n && m.demandBytes + logical > MAX_U64
    ensures n * logical > MAX_U64
  {
    OneMore(t, logical);
    MoreDemands(t + 1, n, logical);
  }

  lemma TooCharged(m: Metrics, t: nat, held: nat, capacity: nat, charge: nat, logical: nat, n: nat)
    requires Accounts(m, t, held, capacity, charge, logical) && m.evictions + 1 <= n
    requires m.evictedCharge + charge > MAX_U64
    ensures n * charge > MAX_U64
  {
    OneMore(m.evictions, charge);
    MoreDemands(m.evictions + 1, n, charge);
  }

  lemma OneMore(n: nat, w: nat)
    ensures (n + 1) * w == n * w + w
  {}

  lemma MoreDemands(a: nat, b: nat, w: nat)
    requires a <= b
    ensures a * w <= b * w
  {}

  /** Serves a miss: bypass without slots, admit into a free slot, or replace the farthest page. */
  method Fill(d: seq<nat>, t: nat, slots: nat, capacity: nat, charge: nat, residents: set<nat>,
              future: map<nat, seq<nat>>, m: Metrics) returns (ok: bool, after: set<nat>, n: Metrics)
    requires t < |d| < NEVER && IndexesFuture(future, d, t + 1)
    requires d[t] !in residents && charge > 0 && |residents| <= slots <= capacity / charge
    requires m.finalCharge == |residents| * charge <= m.peakCharge <= capacity
    ensures ok <==> !(Evicts(d, slots, t, residents) && m.evictedCharge + charge > MAX_U64)
    ensures ok ==> after == Served(d, slots, t, residents)
    ensures ok ==> n == m.(admissions := n.admissions, bypasses := n.bypasses, evictions := n.evictions,
                           evictedCharge := n.evictedCharge, finalCharge := |after| * charge,
                           peakCharge := n.peakCharge)
    ensures ok ==> n.admissions + n.bypasses == m.admissions + m.bypasses + 1
    ensures ok ==> n.admissions - n.evictions - m.admissions + m.evictions == |after| - |residents|
    ensures ok && Evicts(d, slots, t, residents) ==>
      n.evictions == m.evictions + 1 && n.evictedCharge == m.evictedCharge + charge
    ensures ok && !Evicts(d, slots, t, residents) ==> n.evictions == m.evictions && n.evictedCharge == m.evictedCharge
    ensures ok ==> m.peakCharge <= n.peakCharge <= capacity && n.finalCharge <= n.peakCharge
  {
    var p := d[t];
    after, n := residents, m;
    if slots == 0 {
      assert residents == {};
      assert residents + {p} == {p};
      return true, residents, m.(bypasses := m.bypasses + 1);
    }
    if |residents| < slots {
      after := residents + {p};
      FitsCapacity(|after|, slots, capacity, charge);
      assert |after| * charge == |residents| * charge + charge;
      n := m.(admissions := m.admissions + 1, finalCharge := m.finalCharge + charge,
              peakCharge := if m.peakCharge < m.finalCharge + charge then m.finalCharge + charge else m.peakCharge);
      ok := true;
      return;
    }
    var victim := FarthestVictim(residents, p, future, d, t + 1);
    OnlyFarthest(d, t + 1, p, residents + {p}, victim);
    if victim == p {
      assert residents + {p} - {victim} == residents;
      return true, residents, m.(bypasses := m.bypasses + 1);
    }
    if m.evictedCharge + charge > MAX_U64 { return false, residents, m; }
    after := residents - {victim} + {p};
    assert after == residents + {p} - {victim};
    assert |after| == |residents - {victim}| + 1;
    n := m.(admissions := m.admissions + 1, evictions := m.evictions + 1, evictedCharge := m.evictedCharge + charge);
    ok := true;
  }

  /** A charge far above the loaded bytes overflows first: five demands of one byte each replace
      two pages of charge 2^63. */
  lemma EvictedChargeOverflows()
    ensures Evictions([0, 1, 1, 2, 2], 1, 5) == 2 && 2 * 0x8000_0000_0000_0000 > MAX_U64 && 5 * 1 <= MAX_U64
  {
    var d: seq<nat> := [0, 1, 1, 2, 2];
    assert Residents(d, 1, 1) == {0} by { assert Residents(d, 1, 0) == {}; }
    TakesOver(d, 1, 0, 1);
    assert Residents(d, 1, 3) == {1};
    TakesOver(d, 3, 1, 2);
    assert Residents(d, 1, 5) == {2};
    assert Evictions(d, 1, 1) == 0;
    assert Evictions(d, 1, 2) == 1;
    assert Evictions(d, 1, 3) == 1;
    assert Evictions(d, 1, 4) == 2;
  }

  /** In a single slot a page demanded again replaces one that is not. */
  lemma TakesOver(d: seq<nat>, t: nat, old': nat, p: nat)
    requires t < |d| < NEVER && d[t] == p != old' && Residents(d, 1, t) == {old'}
    requires NextUse(d, t + 1, p) < NextUse(d, t + 1, old')
    ensures Residents(d, 1, t + 1) == {p} && Evicts(d, 1, t, Residents(d, 1, t))
  {
    var among := {old'} + {p};
    assert IsFarthest(d, t + 1, p, among, old');
    OnlyFarthest(d, t + 1, p, among, old');
    assert among - {old'} == {p};
  }

  lemma FitsCapacity(n: nat, slots: nat, capacity: nat, charge: nat)
    requires charge > 0 && n <= slots <= capacity / charge
    ensures n * charge <= capacity
  {
    MoreDemands(n, capacity / charge, charge);
    assert capacity / charge * charge <= capacity;
  }

  lemma OnlyFarthest(d: seq<nat>, t: nat, candidate: nat, among: set<nat>, f: nat)
    requires t <= |d| < NEVER && IsFarthest(d, t, candidate, among, f)
    ensures Farthest(d, t, candidate, among) == f
  {
    var g := Farthest(d, t, candidate, among);
    assert !(Below(KeyOf(d, t, candidate, g), KeyOf(d, t, candidate, f))
             && Below(KeyOf(d, t, candidate, f), KeyOf(d, t, candidate, g)));
  }
}
