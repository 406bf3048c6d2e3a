/** The TinyLFU frequency sketch of `oracle/cache_policy.py`: a count-min table with
    conservative update, a one-bit doorkeeper shared by every row, and periodic halving.
    The hash of a page in a row is an arbitrary function into the columns, so every
    theorem holds for every hash family. */
module TinyLfu {
  import opened Common

  const COUNTER_MAX: nat := 15

  datatype SketchConfig = SketchConfig(depth: nat, width: nat, sample: nat, column: (nat, nat) -> nat)
  {
    /** The ranges the constructor accepts. */
    predicate InRange() {
      1 <= depth <= 8 && 64 <= width <= 65_536 && 1 <= sample <= MAX_U64
    }

    ghost predicate Valid() {
      InRange() && forall page: nat, row: nat :: row < depth ==> column(page, row) < width
    }

    function Index(page: nat, row: nat): nat {
      row * width + column(page, row)
    }
  }

  datatype Sketch = Sketch(counters: seq<nat>, door: set<nat>, observed: nat)

  function Fresh(c: SketchConfig): Sketch {
    Sketch(seq(c.depth * c.width, _ => 0), {}, 0)
  }

  /** Shape and range of a sketch; every counter fits four bits. */
  ghost predicate WellFormed(c: SketchConfig, s: Sketch) {
    && c.Valid()
    && |s.counters| == c.depth * c.width
    && (forall i | 0 <= i < |s.counters| :: s.counters[i] <= COUNTER_MAX)
    && s.observed < c.sample
  }

  lemma IndexInRange(c: SketchConfig, page: nat, row: nat)
    requires c.Valid() && row < c.depth
    ensures c.Index(page, row) < c.depth * c.width
  {
    assert (row + 1) * c.width <= c.depth * c.width;
  }

  /** Distinct rows of the table never alias. */
  lemma IndexIncreasing(c: SketchConfig, page: nat, row: nat, row': nat)
    requires c.Valid() && row < row' < c.depth
    ensures c.Index(page, row) < c.Index(page, row')
  {
    assert (row + 1) * c.width <= row' * c.width;
  }

  predicate DoorContains(c: SketchConfig, s: Sketch, page: nat) {
    forall row: nat | row < c.depth :: c.column(page, row) in s.door
  }

  function Counter(c: SketchConfig, s: Sketch, page: nat, row: nat): nat
    requires WellFormed(c, s) && row < c.depth
  {
    IndexInRange(c, page, row);
    s.counters[c.Index(page, row)]
  }

  /** The least counter of a page over its first `rows` rows. */
  function MinCounter(c: SketchConfig, s: Sketch, page: nat, rows: nat): (m: nat)
    requires WellFormed(c, s) && 1 <= rows <= c.depth
    ensures m <= COUNTER_MAX
    ensures forall row: nat | row < rows :: m <= Counter(c, s, page, row)
    ensures exists row: nat :: row < rows && m == Counter(c, s, page, row)
  {
    hide Counter;
    var here := Counter(c, s, page, rows - 1);
    if rows == 1 then here
    else
      var rest := MinCounter(c, s, page, rows - 1);
      if here < rest then here else rest
  }

  function Estimate(c: SketchConfig, s: Sketch, page: nat): nat
    requires WellFormed(c, s)
  {
    MinCounter(c, s, page, c.depth) + if DoorContains(c, s, page) then 1 else 0
  }

  // ---------------------------------------------------------------- one observation

  function Bump(n: nat): nat { if n + 1 < COUNTER_MAX then n + 1 else COUNTER_MAX }

  /** The table after incrementing every row counter of `page` that equals its minimum. */
  ghost function Incremented(c: SketchConfig, s: Sketch, page: nat): (counters: seq<nat>)
    requires WellFormed(c, s)
    ensures |counters| == |s.counters|
  {
    var m := MinCounter(c, s, page, c.depth);
    seq(|s.counters|, i requires 0 <= i < |s.counters| =>
      if s.counters[i] == m && exists row: nat :: row < c.depth && i == c.Index(page, row)
      then Bump(m) else s.counters[i])
  }

  ghost function Columns(c: SketchConfig, page: nat): set<nat> {
    set row: nat | row < c.depth :: c.column(page, row)
  }

  function Halved(counters: seq<nat>): seq<nat> {
    seq(|counters|, i requires 0 <= i < |counters| => counters[i] / 2)
  }

  ghost function Recorded(c: SketchConfig, s: Sketch, page: nat): Sketch
    requires WellFormed(c, s)
  {
    if DoorContains(c, s, page)
    then s.(counters := Incremented(c, s, page))
    else s.(door := s.door + Columns(c, page))
  }

  ghost function Observed(c: SketchConfig, s: Sketch, page: nat): (r: Sketch)
    requires WellFormed(c, s)
    ensures WellFormed(c, r)
  {
    var t := Recorded(c, s, page);
    if s.observed + 1 >= c.sample
    then Sketch(Halved(t.counters), {}, (s.observed + 1) / 2)
    else t.(observed := s.observed + 1)
  }

  /** The sketch object; `Observe` is proved to perform `Observed`. */
  class TinyLfuSketch {
    const config: SketchConfig
    var counters: seq<nat>
    var door: set<nat>
    var observed: nat

    function State(): Sketch reads this { Sketch(counters, door, observed) }

    constructor (config: SketchConfig)
      requires config.Valid()
      ensures this.config == config
      ensures State() == Fresh(config) && WellFormed(config, State())
    {
      this.config := config;
      counters := seq(config.depth * config.width, _ => 0);
      door := {};
      observed := 0;
    }

    method Observe(page: nat)
      requires WellFormed(config, State())
      modifies this
      ensures State() == Observed(config, old(State()), page)
    {
      ghost var before := State();
      if DoorContains(config, State(), page) {
        IncrementMinima(page);
      } else {
        for row := 0 to config.depth
          invariant counters == before.counters && observed == before.observed
          invariant door == before.door + set r: nat | r < row :: config.column(page, r)
        {
          door := door + {config.column(page, row)};
        }
      }
      observed := observed + 1;
      if observed >= config.sample {
        counters := Halved(counters);
        door := {};
        observed := observed / 2;
      }
    }

    method IncrementMinima(page: nat)
      requires WellFormed(config, State())
      modifies this
      ensures State() == old(State()).(counters := Incremented(config, old(State()), page))
    {
      ghost var before := State();
      var minimum := MinCounter(config, State(), page, config.depth);
      for row := 0 to config.depth
        invariant door == before.door && observed == before.observed
        invariant |counters| == |before.counters|
        invariant forall i | 0 <= i < |counters| ::
          counters[i] == if before.counters[i] == minimum && (exists r: nat :: r < row && i == config.Index(page, r))
                         then Bump(minimum) else before.counters[i]
      {
        IndexInRange(config, page, row);
        var index := config.Index(page, row);
        forall r: nat | r < row ensures config.Index(page, r) != index {
          IndexIncreasing(config, page, r, row);
        }
        if counters[index] == minimum {
          counters := counters[index := Bump(minimum)];
        }
      }
      assert counters == Incremented(config, before, page);
    }
  }

  // ---------------------------------------------------------------- whole runs

  ghost function Run(c: SketchConfig, seen: seq<nat>): (s: Sketch)
    requires c.Valid()
    ensures WellFormed(c, s)
  {
    if seen == [] then Fresh(c)
    else Observed(c, Run(c, seen[..|seen| - 1]), seen[|seen| - 1])
  }

  /** Whether the observation after `seen` triggers the halving. */
  ghost predicate AgesAfter(c: SketchConfig, seen: seq<nat>)
    requires c.Valid()
  {
    Run(c, seen).observed + 1 >= c.sample
  }

  /** An exact counter kept for one page alone: one doorkeeper bit and a count that
      saturates at 15, both aged when the sketch ages. */
  datatype Private = Private(bit: bool, count: nat)
  {
    function Value(): nat { count + if bit then 1 else 0 }
  }

  function Tick(v: Private, mine: bool): Private {
    if !mine then v else if !v.bit then Private(true, v.count) else Private(true, Bump(v.count))
  }

  ghost function PrivateRun(c: SketchConfig, seen: seq<nat>, page: nat): Private
    requires c.Valid()
  {
    if seen == [] then Private(false, 0)
    else
      var prior := seen[..|seen| - 1];
      var t := Tick(PrivateRun(c, prior, page), seen[|seen| - 1] == page);
      if AgesAfter(c, prior) then Private(false, t.count / 2) else t
  }

  ghost predicate Dominates(c: SketchConfig, s: Sketch, v: Private, page: nat)
    requires WellFormed(c, s)
  {
    && (v.bit ==> DoorContains(c, s, page))
    && v.count <= COUNTER_MAX
    && forall row: nat | row < c.depth :: v.count <= Counter(c, s, page, row)
  }

  /** Recording never lowers a counter, and raises every row of the recorded page by one
      from the old minimum unless it is saturated. */
  lemma RecordedCounters(c: SketchConfig, s: Sketch, seen: nat, page: nat, row: nat)
    requires WellFormed(c, s) && row < c.depth
    ensures WellFormed(c, Recorded(c, s, seen))
    ensures Counter(c, s, page, row) <= Counter(c, Recorded(c, s, seen), page, row)
    ensures DoorContains(c, s, page) && seen == page ==>
      Bump(MinCounter(c, s, page, c.depth)) <= Counter(c, Recorded(c, s, seen), page, row)
  {
    IndexInRange(c, page, row);
  }

  lemma RecordedDominates(c: SketchConfig, s: Sketch, v: Private, seen: nat, page: nat)
    requires WellFormed(c, s) && Dominates(c, s, v, page)
    ensures WellFormed(c, Recorded(c, s, seen))
    ensures Dominates(c, Recorded(c, s, seen), Tick(v, seen == page), page)
  {
    RecordedCounters(c, s, seen, page, 0);
    forall row: nat | row < c.depth
      ensures Tick(v, seen == page).count <= Counter(c, Recorded(c, s, seen), page, row)
    {
      RecordedCounters(c, s, seen, page, row);
    }
  }

  lemma HalvedDominates(c: SketchConfig, s: Sketch, t: Sketch, v: Private, page: nat)
    requires WellFormed(c, s) && WellFormed(c, t) && t.counters == Halved(s.counters)
    requires Dominates(c, s, v, page)
    ensures Dominates(c, t, Private(false, v.count / 2), page)
  {
    forall row: nat | row < c.depth
      ensures v.count / 2 <= Counter(c, t, page, row)
    {
      IndexInRange(c, page, row);
      assert v.count <= Counter(c, s, page, row);
    }
  }

  lemma ObservedDominates(c: SketchConfig, s: Sketch, v: Private, seen: nat, page: nat)
    requires WellFormed(c, s) && Dominates(c, s, v, page)
    ensures
      var t := Tick(v, seen == page);
      Dominates(c, Observed(c, s, seen),
        if s.observed + 1 >= c.sample then Private(false, t.count / 2) else t, page)
  {
    RecordedDominates(c, s, v, seen, page);
    var r := Recorded(c, s, seen);
    if s.observed + 1 >= c.sample {
      HalvedDominates(c, r, Observed(c, s, seen), Tick(v, seen == page), page);
    } else {
      assert forall row: nat | row < c.depth ::
        Counter(c, Observed(c, s, seen), page, row) == Counter(c, r, page, row);
    }
  }

  lemma {:induction false} RunDominates(c: SketchConfig, seen: seq<nat>, page: nat)
    requires c.Valid()
    ensures Dominates(c, Run(c, seen), PrivateRun(c, seen, page), page)
  {
    if seen == [] {
      forall row: nat | row < c.depth ensures Counter(c, Fresh(c), page, row) == 0 {
        IndexInRange(c, page, row);
      }
    } else {
      var prior := seen[..|seen| - 1];
      RunDominates(c, prior, page);
      ObservedDominates(c, Run(c, prior), PrivateRun(c, prior, page), seen[|seen| - 1], page);
    }
  }

  /** Across every run of observations and agings the estimate is at least the exact
      private counter of the page, and at most 16. */
  lemma EstimateDominatesPrivate(c: SketchConfig, seen: seq<nat>, page: nat)
    requires c.Valid()
    ensures PrivateRun(c, seen, page).Value() <= Estimate(c, Run(c, seen), page) <= 16
  {
    RunDominates(c, seen, page);
  }

  function Occurrences(seen: seq<nat>, page: nat): nat {
    if seen == [] then 0
    else Occurrences(seen[..|seen| - 1], page) + if seen[|seen| - 1] == page then 1 else 0
  }

  lemma PrivateStep(c: SketchConfig, prior: seq<nat>, last: nat, page: nat)
    requires c.Valid() && !AgesAfter(c, prior)
    ensures PrivateRun(c, prior + [last], page) == Tick(PrivateRun(c, prior, page), last == page)
  {
    hide AgesAfter, Tick;
    assert (prior + [last])[..|prior|] == prior;
  }

  lemma WindowTick(v: Private, mine: bool, n: nat)
    requires (n > 0 ==> v.bit) && (if n <= 16 then n else 16) <= v.Value()
    ensures
      var t, next := Tick(v, mine), n + if mine then 1 else 0;
      (next > 0 ==> t.bit) && (if next <= 16 then next else 16) <= t.Value()
  {}

  /** No aging happens inside the window; its last observation may end it. */
  ghost predicate Unaged(c: SketchConfig, before: seq<nat>, window: seq<nat>)
    requires c.Valid()
  {
    forall k | 0 <= k < |window| :: !AgesAfter(c, before + window[..k])
  }

  lemma UnagedPrefix(c: SketchConfig, before: seq<nat>, window: seq<nat>)
    requires c.Valid() && window != [] && Unaged(c, before, window)
    ensures
      var w, last := window[..|window| - 1], window[|window| - 1];
      Unaged(c, before, w) && !AgesAfter(c, before + w) && before + window == (before + w) + [last]
  {
    hide AgesAfter;
    var w := window[..|window| - 1];
    assert forall k | 0 <= k < |w| :: w[..k] == window[..k];
    assert !AgesAfter(c, before + window[..|w|]);
  }

  lemma {:induction false} PrivateWindow(c: SketchConfig, before: seq<nat>, window: seq<nat>, page: nat)
    requires c.Valid() && Unaged(c, before, window)
    ensures
      var v := PrivateRun(c, before + window, page);
      var n := Occurrences(window, page);
      (n > 0 ==> v.bit) && (if n <= 16 then n else 16) <= v.Value()
  {
    hide Unaged;
    if window == [] {
      assert before + window == before;
    } else {
      hide AgesAfter, Tick, PrivateRun;
      var w, last := window[..|window| - 1], window[|window| - 1];
      UnagedPrefix(c, before, window);
      PrivateWindow(c, before, w, page);
      PrivateStep(c, before + w, last, page);
      WindowTick(PrivateRun(c, before + w, page), last == page, Occurrences(w, page));
    }
  }

  /** Within one aging window the estimate is at least the number of times the page was
      observed in the window, up to 16. */
  lemma EstimateCountsWindow(c: SketchConfig, before: seq<nat>, window: seq<nat>, page: nat)
    requires c.Valid() && Unaged(c, before, window)
    ensures
      var n := Occurrences(window, page);
      (if n <= 16 then n else 16) <= Estimate(c, Run(c, before + window), page) <= 16
  {
    hide Unaged, PrivateRun, Run;
    PrivateWindow(c, before, window, page);
    EstimateDominatesPrivate(c, before + window, page);
  }
}
