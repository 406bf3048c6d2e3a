/** The TinyLFU sketch of `crates/runnel-sim/src/policy/mod.rs`: the same table as the reference, with
    the doorkeeper packed eight columns to a byte, and rows visited one after another. */
module ByteSketch {
  import opened Common
  import TinyLfu

  datatype Sketch = Sketch(counters: seq<nat>, door: seq<bv8>, observed: nat)

  function Fresh(c: TinyLfu.SketchConfig): Sketch {
    Sketch(seq(c.depth * c.width, _ => 0), seq((c.width + 7) / 8, _ => 0), 0)
  }

  ghost predicate WellFormed(c: TinyLfu.SketchConfig, s: Sketch) {
    && c.Valid() && |s.counters| == c.depth * c.width && |s.door| == (c.width + 7) / 8
    && (forall i | 0 <= i < |s.counters| :: s.counters[i] <= TinyLfu.COUNTER_MAX)
    && s.observed < c.sample
  }

  // ---------------------------------------------------------------- packed bits

  function Flag(bit: nat): bv8
    requires bit < 8
  {
    (1 as bv8) << bit
  }

  predicate IsSet(byte: bv8, bit: nat)
    requires bit < 8
  {
    byte & Flag(bit) != 0
  }

  function Set(byte: bv8, bit: nat): bv8
    requires bit < 8
  {
    byte | Flag(bit)
  }

  lemma SetBit(byte: bv8, bit: nat, other: nat)
    requires bit < 8 && other < 8
    ensures IsSet(Set(byte, bit), other) <==> IsSet(byte, other) || other == bit
  {
    assert (byte | Flag(bit)) & Flag(other) == (byte & Flag(other)) | (Flag(bit) & Flag(other));
  }

  lemma NoBit(bit: nat)
    requires bit < 8
    ensures !IsSet(0, bit)
  {}

  predicate Lit(door: seq<bv8>, column: nat)
    requires column < 8 * |door|
  {
    IsSet(door[column / 8], column % 8)
  }

  function Light(door: seq<bv8>, column: nat): (lit: seq<bv8>)
    requires column < 8 * |door|
    ensures |lit| == |door|
  {
    door[column / 8 := Set(door[column / 8], column % 8)]
  }

  lemma LightOne(door: seq<bv8>, column: nat, other: nat)
    requires column < 8 * |door| && other < 8 * |door|
    ensures Lit(Light(door, column), other) <==> Lit(door, other) || other == column
  {
    hide IsSet, Set;
    SetBit(door[column / 8], column % 8, other % 8);
    assert other == other / 8 * 8 + other % 8 && column == column / 8 * 8 + column % 8;
  }

  /** The columns whose bits are set: the doorkeeper of the reference. */
  ghost function Columns(c: TinyLfu.SketchConfig, door: seq<bv8>): set<nat>
    requires c.width <= 8 * |door|
  {
    set column | 0 <= column < c.width && Lit(door, column)
  }

  ghost function View(c: TinyLfu.SketchConfig, s: Sketch): TinyLfu.Sketch
    requires c.width <= 8 * |s.door|
  {
    TinyLfu.Sketch(s.counters, Columns(c, s.door), s.observed)
  }

  lemma ViewWellFormed(c: TinyLfu.SketchConfig, s: Sketch)
    requires WellFormed(c, s)
    ensures c.width <= 8 * |s.door| && TinyLfu.WellFormed(c, View(c, s))
  {}

  lemma FreshView(c: TinyLfu.SketchConfig)
    requires c.Valid()
    ensures WellFormed(c, Fresh(c)) && View(c, Fresh(c)) == TinyLfu.Fresh(c)
  {
    var door := Fresh(c).door;
    forall column | 0 <= column < c.width ensures !Lit(door, column) { NoBit(column % 8); }
  }

  // ---------------------------------------------------------------- one observation, row by row

  predicate Contains(c: TinyLfu.SketchConfig, s: Sketch, page: nat)
    requires WellFormed(c, s)
  {
    forall row: nat | row < c.depth :: Lit(s.door, c.column(page, row))
  }

  function Lighted(c: TinyLfu.SketchConfig, door: seq<bv8>, page: nat, rows: nat): (lit: seq<bv8>)
    requires c.Valid() && c.width <= 8 * |door| && rows <= c.depth
    ensures |lit| == |door|
  {
    if rows == 0 then door else Light(Lighted(c, door, page, rows - 1), c.column(page, rows - 1))
  }

  /** The least counter over the first rows. */
  function Minimum(c: TinyLfu.SketchConfig, counters: seq<nat>, page: nat, rows: nat): nat
    requires c.Valid() && |counters| == c.depth * c.width && 1 <= rows <= c.depth
  {
    TinyLfu.IndexInRange(c, page, rows - 1);
    var here := counters[c.Index(page, rows - 1)];
    if rows == 1 then here
    else
      var least := Minimum(c, counters, page, rows - 1);
      if here < least then here else least
  }

  /** Saturating addition, then the four-bit ceiling. */
  function Raised(n: nat): nat {
    var sum := if n + 1 > 255 then 255 else n + 1;
    if sum > TinyLfu.COUNTER_MAX then TinyLfu.COUNTER_MAX else sum
  }

  function Bumped(c: TinyLfu.SketchConfig, counters: seq<nat>, page: nat, minimum: nat, rows: nat): (r: seq<nat>)
    requires c.Valid() && |counters| == c.depth * c.width && rows <= c.depth
    ensures |r| == |counters|
  {
    if rows == 0 then counters
    else
      TinyLfu.IndexInRange(c, page, rows - 1);
      var prior := Bumped(c, counters, page, minimum, rows - 1);
      var index := c.Index(page, rows - 1);
      if prior[index] == minimum then prior[index := Raised(prior[index])] else prior
  }

  function Recorded(c: TinyLfu.SketchConfig, s: Sketch, page: nat): Sketch
    requires WellFormed(c, s)
  {
    if Contains(c, s, page)
    then s.(counters := Bumped(c, s.counters, page, Minimum(c, s.counters, page, c.depth), c.depth))
    else s.(door := Lighted(c, s.door, page, c.depth))
  }

  function Shifted(counters: seq<nat>): seq<nat> {
    seq(|counters|, i requires 0 <= i < |counters| => counters[i] / 2)
  }

  function Observed(c: TinyLfu.SketchConfig, s: Sketch, page: nat): Sketch
    requires WellFormed(c, s)
  {
    var t := Recorded(c, s, page);
    if s.observed + 1 >= c.sample
    then Sketch(Shifted(t.counters), seq(|t.door|, _ => 0), (s.observed + 1) / 2)
    else t.(observed := s.observed + 1)
  }

  function Estimate(c: TinyLfu.SketchConfig, s: Sketch, page: nat): nat
    requires WellFormed(c, s)
  {
    Minimum(c, s.counters, page, c.depth) + if Contains(c, s, page) then 1 else 0
  }

  // ---------------------------------------------------------------- against the reference

  lemma SameContains(c: TinyLfu.SketchConfig, s: Sketch, page: nat)
    requires WellFormed(c, s)
    ensures Contains(c, s, page) <==> TinyLfu.DoorContains(c, View(c, s), page)
  {
    hide Lit;
    forall row: nat | row < c.depth
      ensures Lit(s.door, c.column(page, row)) <==> c.column(page, row) in View(c, s).door
    {}
  }

  lemma {:induction false} SameMinimum(c: TinyLfu.SketchConfig, s: Sketch, page: nat, rows: nat)
    requires WellFormed(c, s) && 1 <= rows <= c.depth
    ensures TinyLfu.WellFormed(c, View(c, s))
    ensures Minimum(c, s.counters, page, rows) == TinyLfu.MinCounter(c, View(c, s), page, rows)
  {
    hide Columns;
    ViewWellFormed(c, s);
    if rows > 1 { SameMinimum(c, s, page, rows - 1); }
  }

  lemma SameEstimate(c: TinyLfu.SketchConfig, s: Sketch, page: nat)
    requires WellFormed(c, s)
    ensures TinyLfu.WellFormed(c, View(c, s)) && Estimate(c, s, page) == TinyLfu.Estimate(c, View(c, s), page)
  {
    hide Contains, Minimum, TinyLfu.DoorContains, TinyLfu.MinCounter, View, WellFormed, TinyLfu.WellFormed;
    Deep(c, s);
    SameContains(c, s, page);
    SameMinimum(c, s, page, c.depth);
  }

  lemma Deep(c: TinyLfu.SketchConfig, s: Sketch)
    requires WellFormed(c, s)
    ensures c.Valid() && c.depth >= 1 && |s.counters| == c.depth * c.width && c.width <= 8 * |s.door|
  {}

  lemma {:induction false} LightedColumns(c: TinyLfu.SketchConfig, door: seq<bv8>, page: nat, rows: nat)
    requires c.Valid() && c.width <= 8 * |door| && rows <= c.depth
    ensures
      Columns(c, Lighted(c, door, page, rows)) == Columns(c, door) + set row: nat | row < rows :: c.column(page, row)
  {
    if rows > 0 {
      hide Lit, Light;
      LightedColumns(c, door, page, rows - 1);
      var prior := Lighted(c, door, page, rows - 1);
      var column := c.column(page, rows - 1);
      forall other | 0 <= other < c.width
        ensures Lit(Light(prior, column), other) <==> Lit(prior, other) || other == column
      {
        LightOne(prior, column, other);
      }
      assert Columns(c, Light(prior, column)) == Columns(c, prior) + {column};
      assert (set row: nat | row < rows :: c.column(page, row))
        == (set row: nat | row < rows - 1 :: c.column(page, row)) + {column};
    }
  }

  /** Rows never share a counter, so bumping them in turn bumps each from its first value. */
  lemma {:induction false} BumpedAt(c: TinyLfu.SketchConfig, counters: seq<nat>, page: nat, minimum: nat, rows: nat,
                                    i: nat)
    requires c.Valid() && |counters| == c.depth * c.width && rows <= c.depth && i < |counters|
    requires forall k | 0 <= k < |counters| :: counters[k] <= TinyLfu.COUNTER_MAX
    ensures
      Bumped(c, counters, page, minimum, rows)[i]
      == if counters[i] == minimum && exists row: nat :: row < rows && i == c.Index(page, row)
         then TinyLfu.Bump(minimum) else counters[i]
  {
    if rows > 0 {
      var row := rows - 1;
      var index := c.Index(page, row);
      TinyLfu.IndexInRange(c, page, row);
      BumpedAt(c, counters, page, minimum, row, i);
      forall r: nat | r < row ensures c.Index(page, r) != index {
        TinyLfu.IndexIncreasing(c, page, r, row);
      }
    }
  }

  lemma SameBumped(c: TinyLfu.SketchConfig, s: Sketch, page: nat)
    requires WellFormed(c, s)
    ensures TinyLfu.WellFormed(c, View(c, s))
    ensures
      Bumped(c, s.counters, page, Minimum(c, s.counters, page, c.depth), c.depth)
      == TinyLfu.Incremented(c, View(c, s), page)
  {
    hide Columns, Bumped, Minimum, TinyLfu.MinCounter;
    ViewWellFormed(c, s);
    SameMinimum(c, s, page, c.depth);
    forall i | 0 <= i < |s.counters|
      ensures Bumped(c, s.counters, page, Minimum(c, s.counters, page, c.depth), c.depth)[i]
        == TinyLfu.Incremented(c, View(c, s), page)[i]
    {
      BumpedAt(c, s.counters, page, Minimum(c, s.counters, page, c.depth), c.depth, i);
    }
  }

  /** Observing a page does to the byte sketch what it does to the reference. */
  lemma SameObserved(c: TinyLfu.SketchConfig, s: Sketch, page: nat)
    requires WellFormed(c, s)
    ensures TinyLfu.WellFormed(c, View(c, s)) && WellFormed(c, Observed(c, s, page))
    ensures View(c, Observed(c, s, page)) == TinyLfu.Observed(c, View(c, s), page)
  {
    hide Bumped, Minimum, Contains, Lighted, TinyLfu.DoorContains, TinyLfu.Incremented, Columns;
    ViewWellFormed(c, s);
    SameContains(c, s, page);
    SameBumped(c, s, page);
    LightedColumns(c, s.door, page, c.depth);
    NoColumns(c, |s.door|);
    assert Shifted(Recorded(c, s, page).counters) == TinyLfu.Halved(TinyLfu.Recorded(c, View(c, s), page).counters);
    var t := TinyLfu.Observed(c, View(c, s), page);
    assert TinyLfu.WellFormed(c, t);
  }

  lemma NoColumns(c: TinyLfu.SketchConfig, bytes: nat)
    requires c.width <= 8 * bytes
    ensures Columns(c, seq(bytes, _ => 0)) == {}
  {
    var door: seq<bv8> := seq(bytes, _ => 0);
    forall column | 0 <= column < c.width ensures !Lit(door, column) { NoBit(column % 8); }
  }

  // ---------------------------------------------------------------- the object

  class PackedSketch {
    const config: TinyLfu.SketchConfig
    var counters: seq<nat>
    var door: seq<bv8>
    var observed: nat

    function State(): Sketch reads this { Sketch(counters, door, observed) }

    constructor (config: TinyLfu.SketchConfig)
      requires config.Valid()
      ensures this.config == config && State() == Fresh(config) && WellFormed(config, State())
    {
      this.config := config;
      counters := seq(config.depth * config.width, _ => 0);
      door := seq((config.width + 7) / 8, _ => 0);
      observed := 0;
      new;
      FreshView(config);
    }

    method DoorContains(page: nat) returns (all: bool)
      requires WellFormed(config, State())
      ensures all == Contains(config, State(), page)
    {
      for row := 0 to config.depth
        invariant forall r: nat | r < row :: Lit(door, config.column(page, r))
      {
        if !Lit(door, config.column(page, row)) { return false; }
      }
      all := true;
    }

    method LeastCounter(page: nat) returns (least: nat)
      requires WellFormed(config, State())
      ensures least == Minimum(config, counters, page, config.depth)
    {
      TinyLfu.IndexInRange(config, page, 0);
      least := counters[config.Index(page, 0)];
      for row := 1 to config.depth
        invariant least == Minimum(config, counters, page, row)
      {
        TinyLfu.IndexInRange(config, page, row);
        var here := counters[config.Index(page, row)];
        if here < least { least := here; }
      }
    }

    method Estimated(page: nat) returns (n: nat)
      requires WellFormed(config, State())
      ensures n == Estimate(config, State(), page)
    {
      var least := LeastCounter(page);
      var contains := DoorContains(page);
      n := least + if contains then 1 else 0;
    }

    method Observe(page: nat)
      requires WellFormed(config, State())
      modifies this
      ensures State() == Observed(config, old(State()), page) && WellFormed(config, State())
    {
      ghost var before := State();
      SameObserved(config, before, page);
      var contains := DoorContains(page);
      if contains {
        BumpMinima(page);
      } else {
        for row := 0 to config.depth
          invariant counters == before.counters && observed == before.observed
          invariant door == Lighted(config, before.door, page, row)
        {
          door := Light(door, config.column(page, row));
        }
      }
      observed := observed + 1;
      if observed >= config.sample {
        counters := Shifted(counters);
        door := seq(|door|, _ => 0);
        observed := observed / 2;
      }
    }

    method BumpMinima(page: nat)
      requires WellFormed(config, State())
      modifies this`counters
      ensures
        counters
        == Bumped(config, old(counters), page, Minimum(config, old(counters), page, config.depth), config.depth)
    {
      var minimum := LeastCounter(page);
      for row := 0 to config.depth
        invariant counters == Bumped(config, old(counters), page, minimum, row)
      {
        TinyLfu.IndexInRange(config, page, row);
        var index := config.Index(page, row);
        if counters[index] == minimum { counters := counters[index := Raised(counters[index])]; }
      }
    }
  }
}
