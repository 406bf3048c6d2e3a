/** Exact cover of an object by tensor byte ranges (`validate_tensor_coverage`), and assembling a
    tensor from the pages it intersects. */
module Coverage {
  import opened Common

  /** A tensor's bytes in its object; the manifest rules make every range nonempty. */
  datatype Range = Range(offset: nat, end: nat)
  {
    predicate Contains(p: nat) { offset <= p < end }
  }

  predicate Nonempty(ranges: seq<Range>) { forall i | 0 <= i < |ranges| :: ranges[i].offset < ranges[i].end }

  predicate Within(ranges: seq<Range>, length: nat) { forall i | 0 <= i < |ranges| :: ranges[i].end <= length }

  /** How many ranges hold position `p`. */
  function Cover(ranges: seq<Range>, p: nat): nat {
    if ranges == [] then 0 else (if ranges[0].Contains(p) then 1 else 0) + Cover(ranges[1..], p)
  }

  /** Every position below `length` lies in exactly one range, and no other position in any. */
  ghost predicate Partitions(ranges: seq<Range>, length: nat) {
    forall p: nat :: Cover(ranges, p) == if p < length then 1 else 0
  }

  // ---------------------------------------------------------------- sorting

  predicate Before(a: Range, b: Range) { a.offset < b.offset || (a.offset == b.offset && a.end <= b.end) }

  ghost predicate Sorted(ranges: seq<Range>) {
    forall i, j | 0 <= i < j < |ranges| :: Before(ranges[i], ranges[j])
  }

  lemma {:induction false} CoverConcat(a: seq<Range>, b: seq<Range>, p: nat)
    ensures Cover(a + b, p) == Cover(a, p) + Cover(b, p)
  {
    if a == [] {
      assert a + b == b;
    } else {
      assert (a + b)[1..] == a[1..] + b;
      CoverConcat(a[1..], b, p);
    }
  }

  lemma CoverInsert(s: seq<Range>, r: Range, at: nat, p: nat)
    requires at <= |s|
    ensures Cover(s[..at] + [r] + s[at..], p) == Cover(s + [r], p)
  {
    CoverConcat(s[..at] + [r], s[at..], p);
    CoverConcat(s[..at], [r], p);
    assert s == s[..at] + s[at..];
    CoverConcat(s[..at], s[at..], p);
    CoverConcat(s, [r], p);
  }

  method InsertSorted(s: seq<Range>, r: Range) returns (wider: seq<Range>)
    requires Sorted(s)
    ensures Sorted(wider) && multiset(wider) == multiset(s) + multiset{r}
    ensures forall p: nat :: Cover(wider, p) == Cover(s + [r], p)
  {
    hide Cover;
    var at := |s|;
    while at > 0 && !Before(s[at - 1], r)
      invariant 0 <= at <= |s|
      invariant forall k | at <= k < |s| :: Before(r, s[k])
    {
      at := at - 1;
    }
    wider := s[..at] + [r] + s[at..];
    forall k | 0 <= k < at ensures Before(s[k], r) {
      assert k < at - 1 ==> Before(s[k], s[at - 1]);
    }
    InsertedInOrder(s, r, at);
    forall p: nat ensures Cover(wider, p) == Cover(s + [r], p) {
      CoverInsert(s, r, at, p);
    }
  }

  lemma InsertedInOrder(s: seq<Range>, r: Range, at: nat)
    requires Sorted(s) && at <= |s|
    requires (forall k | 0 <= k < at :: Before(s[k], r)) && forall k | at <= k < |s| :: Before(r, s[k])
    ensures
      var wider := s[..at] + [r] + s[at..];
      Sorted(wider) && multiset(wider) == multiset(s) + multiset{r}
  {
    hide Before;
    var wider := s[..at] + [r] + s[at..];
    assert s == s[..at] + s[at..];
    assert forall i | 0 <= i < |wider| :: wider[i] == if i < at then s[i] else if i == at then r else s[i - 1];
  }

  method SortRanges(ranges: seq<Range>) returns (sorted: seq<Range>)
    ensures Sorted(sorted) && multiset(sorted) == multiset(ranges)
    ensures forall p: nat :: Cover(sorted, p) == Cover(ranges, p)
  {
    sorted := [];
    for i := 0 to |ranges|
      invariant Sorted(sorted) && multiset(sorted) == multiset(ranges[..i])
      invariant forall p: nat :: Cover(sorted, p) == Cover(ranges[..i], p)
    {
      ghost var before := sorted;
      sorted := InsertSorted(sorted, ranges[i]);
      assert ranges[..i + 1] == ranges[..i] + [ranges[i]];
      forall p: nat ensures Cover(sorted, p) == Cover(ranges[..i + 1], p) {
        CoverConcat(before, [ranges[i]], p);
        CoverConcat(ranges[..i], [ranges[i]], p);
      }
    }
    assert ranges[..|ranges|] == ranges;
  }

  // ---------------------------------------------------------------- tiling

  /** Each range starts where the previous one ended, from `from` up to `length`. */
  predicate Tiled(ranges: seq<Range>, from: nat, length: nat) {
    if ranges == [] then from == length
    else ranges[0].offset == from && Tiled(ranges[1..], ranges[0].end, length)
  }

  lemma {:induction false} TiledCovers(ranges: seq<Range>, from: nat, length: nat, p: nat)
    requires Nonempty(ranges) && Tiled(ranges, from, length)
    ensures from <= length && Cover(ranges, p) == if from <= p < length then 1 else 0
  {
    if ranges != [] { TiledCovers(ranges[1..], ranges[0].end, length, p); }
  }

  lemma {:induction false} NoneBelow(ranges: seq<Range>, bound: nat, p: nat)
    requires p < bound && forall i | 0 <= i < |ranges| :: bound <= ranges[i].offset
    ensures Cover(ranges, p) == 0
  {
    if ranges != [] { NoneBelow(ranges[1..], bound, p); }
  }

  ghost predicate CoversFrom(ranges: seq<Range>, from: nat, length: nat) {
    forall p: nat :: Cover(ranges, p) == if from <= p < length then 1 else 0
  }

  lemma {:induction false} CoverTiles(ranges: seq<Range>, from: nat, length: nat)
    requires Sorted(ranges) && Nonempty(ranges) && from <= length && CoversFrom(ranges, from, length)
    ensures Tiled(ranges, from, length)
  {
    if ranges == [] {
      assert Cover(ranges, from) == 0;
    } else {
      var first, rest := ranges[0], ranges[1..];
      assert Cover(ranges, first.offset) >= 1;
      if from < first.offset {
        NoneBelow(ranges, first.offset, from);
      }
      assert Cover(ranges, first.end - 1) >= 1;
      forall p: nat ensures Cover(rest, p) == if first.end <= p < length then 1 else 0 {
        assert Cover(ranges, p) == if from <= p < length then 1 else 0;
      }
      CoverTiles(rest, first.end, length);
    }
  }

  // ---------------------------------------------------------------- the check

  datatype Verdict =
    | Covered
    | Gap(expected: nat, actual: nat)
    | Overlap(previousEnd: nat, next: nat)
    | Short(covered: nat, length: nat)

  /** Scans sorted ranges with a cursor. */
  method ScanRanges(sorted: seq<Range>, length: nat) returns (v: Verdict)
    requires Sorted(sorted) && Nonempty(sorted) && Within(sorted, length)
    ensures v == Covered <==> Tiled(sorted, 0, length)
    ensures v.Gap? ==> v.expected < v.actual && v.expected < length && Cover(sorted, v.expected) == 0
    ensures v.Overlap? ==> v.next < v.previousEnd && Cover(sorted, v.next) >= 2
    ensures v.Short? ==> v.covered < v.length == length && Cover(sorted, v.covered) == 0
  {
    var cursor: nat := 0;
    for i := 0 to |sorted|
      invariant Tiled(sorted[..i], 0, cursor)
      invariant cursor <= length
      invariant Tiled(sorted, 0, length) <==> Tiled(sorted[i..], cursor, length)
    {
      var r := sorted[i];
      assert sorted[i..][1..] == sorted[i + 1..];
      SplitCover(sorted, i);
      if r.offset > cursor {
        GapWitness(sorted, i, cursor);
        return Gap(cursor, r.offset);
      }
      if r.offset < cursor {
        OverlapWitness(sorted, i, cursor);
        return Overlap(cursor, r.offset);
      }
      TiledSnoc(sorted[..i], r, 0, cursor);
      assert sorted[..i + 1] == sorted[..i] + [r];
      cursor := r.end;
    }
    assert sorted[..|sorted|] == sorted && sorted[|sorted|..] == [];
    if cursor != length {
      TiledCovers(sorted, 0, cursor, cursor);
      return Short(cursor, length);
    }
    v := Covered;
  }

  lemma SplitCover(s: seq<Range>, i: nat)
    requires i <= |s|
    ensures forall p: nat :: Cover(s, p) == Cover(s[..i], p) + Cover(s[i..], p)
  {
    assert s == s[..i] + s[i..];
    forall p: nat ensures Cover(s, p) == Cover(s[..i], p) + Cover(s[i..], p) {
      CoverConcat(s[..i], s[i..], p);
    }
  }

  lemma {:induction false} TiledSnoc(s: seq<Range>, r: Range, from: nat, cursor: nat)
    requires Tiled(s, from, cursor) && r.offset == cursor
    ensures Tiled(s + [r], from, r.end)
  {
    if s == [] {
      assert (s + [r])[1..] == [];
    } else {
      assert (s + [r])[1..] == s[1..] + [r];
      TiledSnoc(s[1..], r, s[0].end, cursor);
    }
  }

  lemma GapWitness(sorted: seq<Range>, i: nat, cursor: nat)
    requires Sorted(sorted) && Nonempty(sorted) && i < |sorted| && Tiled(sorted[..i], 0, cursor)
    requires cursor < sorted[i].offset
    ensures Cover(sorted, cursor) == 0
  {
    SplitCover(sorted, i);
    TiledCovers(sorted[..i], 0, cursor, cursor);
    NoneBelow(sorted[i..], sorted[i].offset, cursor);
  }

  lemma OverlapWitness(sorted: seq<Range>, i: nat, cursor: nat)
    requires Nonempty(sorted) && i < |sorted| && Tiled(sorted[..i], 0, cursor) && sorted[i].offset < cursor
    ensures Cover(sorted, sorted[i].offset) >= 2
  {
    SplitCover(sorted, i);
    TiledCovers(sorted[..i], 0, cursor, sorted[i].offset);
  }

  /** One object: accepted exactly when its positions are partitioned, and every rejection names a
      position that is covered never or more than once. */
  method CheckObject(ranges: seq<Range>, length: nat) returns (v: Verdict)
    requires Nonempty(ranges) && Within(ranges, length)
    ensures v == Covered <==> Partitions(ranges, length)
    ensures v.Gap? ==> v.expected < length && Cover(ranges, v.expected) == 0
    ensures v.Overlap? ==> Cover(ranges, v.next) >= 2
    ensures v.Short? ==> v.covered < length && Cover(ranges, v.covered) == 0
  {
    var sorted := SortRanges(ranges);
    Permuted(ranges, sorted, length);
    v := ScanRanges(sorted, length);
    if Tiled(sorted, 0, length) {
      forall p: nat ensures Cover(ranges, p) == if p < length then 1 else 0 {
        TiledCovers(sorted, 0, length, p);
      }
    } else if Partitions(ranges, length) {
      CoverTiles(sorted, 0, length);
    }
  }

  lemma Permuted(ranges: seq<Range>, sorted: seq<Range>, length: nat)
    requires multiset(ranges) == multiset(sorted) && Nonempty(ranges) && Within(ranges, length)
    ensures Nonempty(sorted) && Within(sorted, length)
  {
    forall i | 0 <= i < |sorted| ensures sorted[i].offset < sorted[i].end <= length {
      assert sorted[i] in multiset(sorted);
      assert sorted[i] in ranges;
    }
  }

  // ---------------------------------------------------------------- the whole manifest

  datatype ObjectRecord = ObjectRecord(digest: nat, length: nat)

  function RangesOf(ranges: map<nat, seq<Range>>, digest: nat): seq<Range> {
    if digest in ranges then ranges[digest] else []
  }

  ghost predicate FirstUncovered(objects: seq<ObjectRecord>, ranges: map<nat, seq<Range>>, i: nat) {
    && i < |objects| && !Partitions(RangesOf(ranges, objects[i].digest), objects[i].length)
    && forall k | 0 <= k < i :: Partitions(RangesOf(ranges, objects[k].digest), objects[k].length)
  }

  datatype ManifestVerdict = AllCovered | Rejected(digest: nat, why: Verdict)

  /** Checks the objects in order and stops at the first one that is not exactly covered. */
  method ValidateTensorCoverage(objects: seq<ObjectRecord>, ranges: map<nat, seq<Range>>) returns (v: ManifestVerdict)
    requires forall i | 0 <= i < |objects| ::
      Nonempty(RangesOf(ranges, objects[i].digest)) && Within(RangesOf(ranges, objects[i].digest), objects[i].length)
    ensures v == AllCovered <==>
      forall i | 0 <= i < |objects| :: Partitions(RangesOf(ranges, objects[i].digest), objects[i].length)
    ensures v.Rejected? ==> exists i: nat :: FirstUncovered(objects, ranges, i) && v.digest == objects[i].digest
  {
    for i := 0 to |objects|
      invariant forall k | 0 <= k < i :: Partitions(RangesOf(ranges, objects[k].digest), objects[k].length)
    {
      var o := objects[i];
      var why := CheckObject(RangesOf(ranges, o.digest), o.length);
      if why != Covered {
        assert FirstUncovered(objects, ranges, i);
        return Rejected(o.digest, why);
      }
    }
    v := AllCovered;
  }

  // ---------------------------------------------------------------- pages

  datatype Result<T> = Ok(value: T) | Err

  /** ceil(length / pageSize), or overflow. */
  function PageCount(length: nat, pageSize: nat): Result<nat> {
    if pageSize == 0 || length + (pageSize - 1) > MAX_U64 then Err else Ok((length + (pageSize - 1)) / pageSize)
  }

  lemma PageCountCeil(length: nat, pageSize: nat, index: nat)
    requires pageSize > 0 && PageCount(length, pageSize).Ok?
    ensures index < PageCount(length, pageSize).value <==> index * pageSize < length
  {
    var n := PageCount(length, pageSize).value;
    var t := length + (pageSize - 1);
    DivisionBounds(t, pageSize);
    if index < n {
      Multiples(index + 1, n, pageSize);
    } else {
      Multiples(n, index, pageSize);
    }
  }

  lemma DivisionBounds(t: nat, d: nat)
    requires d > 0
    ensures t / d * d <= t < t / d * d + d
  {}

  lemma Multiples(a: nat, b: nat, d: nat)
    requires a <= b
    ensures a * d <= b * d && (a + 1) * d == a * d + d
  {}

  datatype PageSpec = PageSpec(offset: nat, length: nat)

  function SpecFor(objectLength: nat, pageSize: nat, index: nat): Result<PageSpec> {
    match PageCount(objectLength, pageSize)
    case Err => Err
    case Ok(count) =>
      if index >= count || index * pageSize > objectLength then Err
      else
        var remaining := objectLength - index * pageSize;
        Ok(PageSpec(index * pageSize, if remaining < pageSize then remaining else pageSize))
  }

  /** The bytes of `page` that belong to the tensor range, appended to `output`. */
  function AppendIntersection(output: seq<Byte>, t: Range, spec: PageSpec, page: seq<Byte>): Result<seq<Byte>>
    requires t.offset <= t.end
  {
    if t.end > MAX_U64 || spec.offset + spec.length > MAX_U64 then Err
    else
      var pageEnd := spec.offset + spec.length;
      var start := if t.offset < spec.offset then spec.offset else t.offset;
      var end := if t.end < pageEnd then t.end else pageEnd;
      if start >= end || end - spec.offset > |page| then Err
      else Ok(output + page[start - spec.offset..end - spec.offset])
  }

  lemma AppendSucceeds(output: seq<Byte>, t: Range, spec: PageSpec, page: seq<Byte>, start: nat, end: nat)
    requires t.offset <= t.end <= MAX_U64 && spec.offset + spec.length <= MAX_U64
    requires start == if t.offset < spec.offset then spec.offset else t.offset
    requires end == if t.end < spec.offset + spec.length then t.end else spec.offset + spec.length
    requires start < end && end - spec.offset <= |page|
    ensures AppendIntersection(output, t, spec, page) == Ok(output + page[start - spec.offset..end - spec.offset])
  {}

  /** Where assembly stands before page `k`: the part of the range below that page. */
  function Reached(t: Range, below: nat): nat
    requires t.offset <= t.end
  {
    if below <= t.offset then t.offset else if t.end <= below then t.end else below
  }

  function PageBytes(data: seq<Byte>, spec: PageSpec): seq<Byte>
    requires spec.offset + spec.length <= |data|
  {
    data[spec.offset..spec.offset + spec.length]
  }

  lemma PageStep(data: seq<Byte>, t: Range, pageSize: nat, k: nat, output: seq<Byte>)
    requires t.offset < t.end <= |data| && pageSize > 0 && |data| + (pageSize - 1) <= MAX_U64
    requires t.offset / pageSize <= k <= (t.end - 1) / pageSize
    requires output == data[t.offset..Reached(t, k * pageSize)]
    ensures
      && SpecFor(|data|, pageSize, k).Ok?
      && var spec := SpecFor(|data|, pageSize, k).value;
      && spec.offset + spec.length <= |data|
      && AppendIntersection(output, t, spec, PageBytes(data, spec))
        == Ok(data[t.offset..Reached(t, (k + 1) * pageSize)])
  {
    SpecInRange(|data|, t, pageSize, k);
    ReachedMoves(t, k * pageSize, pageSize, |data|);
    PageJoins(data, t, SpecFor(|data|, pageSize, k).value, Reached(t, k * pageSize), Reached(t, (k + 1) * pageSize),
              output);
  }

  lemma SpecInRange(length: nat, t: Range, pageSize: nat, k: nat)
    requires t.offset < t.end <= length && pageSize > 0 && length + (pageSize - 1) <= MAX_U64
    requires t.offset / pageSize <= k <= (t.end - 1) / pageSize
    ensures k * pageSize < t.end && t.offset < k * pageSize + pageSize == (k + 1) * pageSize
    ensures SpecFor(length, pageSize, k) ==
      Ok(PageSpec(k * pageSize, if length - k * pageSize < pageSize then length - k * pageSize else pageSize))
  {
    hide PageCount;
    ReachesPast(t.offset, pageSize, k);
    StartsBy(t.end - 1, pageSize, k);
    CountKnown(length, pageSize);
    PageCountCeil(length, pageSize, k);
  }

  lemma ReachesPast(offset: nat, d: nat, k: nat)
    requires d > 0 && offset / d <= k
    ensures offset < k * d + d == (k + 1) * d
  {
    DivisionBounds(offset, d);
    Multiples(offset / d, k, d);
    Multiples(k, k, d);
  }

  lemma StartsBy(last: nat, d: nat, k: nat)
    requires d > 0 && k <= last / d
    ensures k * d <= last
  {
    DivisionBounds(last, d);
    Multiples(k, last / d, d);
  }

  lemma CountKnown(length: nat, pageSize: nat)
    requires pageSize > 0 && length + (pageSize - 1) <= MAX_U64
    ensures PageCount(length, pageSize).Ok?
  {}

  lemma ReachedMoves(t: Range, low: nat, pageSize: nat, total: nat)
    requires t.offset < t.end <= total && low < t.end && t.offset < low + pageSize && pageSize > 0
    ensures
      var length := if total - low < pageSize then total - low else pageSize;
      var start, end := Reached(t, low), Reached(t, low + pageSize);
      && start == (if t.offset < low then low else t.offset)
      && end == (if t.end < low + length then t.end else low + length)
      && start < end
  {}

  lemma PageJoins(data: seq<Byte>, t: Range, spec: PageSpec, start: nat, end: nat, output: seq<Byte>)
    requires t.offset < t.end <= |data| <= MAX_U64 && spec.offset + spec.length <= |data|
    requires start == (if t.offset < spec.offset then spec.offset else t.offset)
    requires end == (if t.end < spec.offset + spec.length then t.end else spec.offset + spec.length)
    requires start < end && output == data[t.offset..start]
    ensures AppendIntersection(output, t, spec, PageBytes(data, spec)) == Ok(data[t.offset..end])
  {
    hide AppendIntersection;
    AppendSucceeds(output, t, spec, PageBytes(data, spec), start, end);
    Extends(data, t.offset, start, end, spec.offset, spec.offset + spec.length);
  }

  lemma Extends(data: seq<Byte>, a: nat, start: nat, end: nat, low: nat, high: nat)
    requires a <= start && low <= start <= end <= high <= |data|
    ensures data[a..start] + data[low..high][start - low..end - low] == data[a..end]
  {
    SliceOfSlice(data, low, high, start, end);
    SlicesJoin(data, a, start, end);
  }

  lemma SliceOfSlice(data: seq<Byte>, low: nat, high: nat, start: nat, end: nat)
    requires low <= start <= end <= high <= |data|
    ensures data[low..high][start - low..end - low] == data[start..end]
  {
    var page := data[low..high];
    var inner := page[start - low..end - low];
    assert |inner| == end - start;
    forall i | 0 <= i < |inner| ensures inner[i] == data[start..end][i] {
      assert inner[i] == page[start - low + i] == data[start + i];
    }
  }

  lemma SlicesJoin(data: seq<Byte>, a: nat, b: nat, c: nat)
    requires a <= b <= c <= |data|
    ensures data[a..b] + data[b..c] == data[a..c]
  {}

  /** Assembles one tensor from the pages it intersects, in ascending order. With pages that hold the
      object's bytes it always succeeds and equals the eager slice of the object. */
  method CollectTensor(data: seq<Byte>, t: Range, pageSize: nat) returns (r: Result<seq<Byte>>)
    requires t.offset < t.end <= |data| && pageSize > 0 && |data| + (pageSize - 1) <= MAX_U64
    ensures r == Ok(data[t.offset..t.end])
  {
    hide AppendIntersection, SpecFor, Collected;
    CollectedEnds(data, t, pageSize);
    var first, last := t.offset / pageSize, (t.end - 1) / pageSize;
    var bytes: seq<Byte> := [];
    var k: nat := first;
    while k <= last
      invariant first <= k <= last + 1
      invariant bytes == Collected(data, t, pageSize, k)
    {
      CollectStep(data, t, pageSize, k);
      var spec := SpecFor(|data|, pageSize, k).value;
      bytes := AppendIntersection(bytes, t, spec, PageBytes(data, spec)).value;
      k := k + 1;
    }
    assert k == last + 1;
    if |bytes| != t.end - t.offset {
      return Err;
    }
    r := Ok(bytes);
  }

  /** What the pages before `k` contribute. */
  ghost function Collected(data: seq<Byte>, t: Range, pageSize: nat, k: nat): seq<Byte>
    requires t.offset < t.end <= |data|
  {
    data[t.offset..Reached(t, k * pageSize)]
  }

  lemma CollectedEnds(data: seq<Byte>, t: Range, pageSize: nat)
    requires t.offset < t.end <= |data| && pageSize > 0
    ensures 0 <= t.offset / pageSize <= (t.end - 1) / pageSize
    ensures Collected(data, t, pageSize, t.offset / pageSize) == []
    ensures Collected(data, t, pageSize, (t.end - 1) / pageSize + 1) == data[t.offset..t.end]
  {
    PageBounds(t, pageSize);
  }

  lemma CollectStep(data: seq<Byte>, t: Range, pageSize: nat, k: nat)
    requires t.offset < t.end <= |data| && pageSize > 0 && |data| + (pageSize - 1) <= MAX_U64
    requires t.offset / pageSize <= k <= (t.end - 1) / pageSize
    ensures
      && SpecFor(|data|, pageSize, k).Ok?
      && var spec := SpecFor(|data|, pageSize, k).value;
      && spec.offset + spec.length <= |data|
      && AppendIntersection(Collected(data, t, pageSize, k), t, spec, PageBytes(data, spec))
        == Ok(Collected(data, t, pageSize, k + 1))
  {
    hide AppendIntersection, SpecFor;
    PageStep(data, t, pageSize, k, Collected(data, t, pageSize, k));
  }

  lemma PageBounds(t: Range, pageSize: nat)
    requires t.offset < t.end && pageSize > 0
    ensures t.offset / pageSize <= (t.end - 1) / pageSize
    ensures Reached(t, t.offset / pageSize * pageSize) == t.offset
    ensures Reached(t, ((t.end - 1) / pageSize + 1) * pageSize) == t.end
  {
    DivisionBounds(t.offset, pageSize);
    DivisionBounds(t.end - 1, pageSize);
    PagesOrdered(t.offset, t.end - 1, pageSize);
    Multiples((t.end - 1) / pageSize, (t.end - 1) / pageSize, pageSize);
  }

  lemma PagesOrdered(a: nat, b: nat, d: nat)
    requires a <= b && d > 0
    ensures a / d <= b / d
  {
    DivisionBounds(a, d);
    DivisionBounds(b, d);
    if b / d < a / d { Multiples(b / d + 1, a / d, d); }
  }

  // ---------------------------------------------------------------- reassembly

  ghost function Slices(data: seq<Byte>, ranges: seq<Range>): seq<Byte>
    requires Nonempty(ranges) && Within(ranges, |data|)
  {
    if ranges == [] then [] else data[ranges[0].offset..ranges[0].end] + Slices(data, ranges[1..])
  }

  lemma {:induction false} SlicesOfTiling(data: seq<Byte>, ranges: seq<Range>, from: nat)
    requires Nonempty(ranges) && Within(ranges, |data|) && Tiled(ranges, from, |data|)
    ensures from <= |data| && Slices(data, ranges) == data[from..]
  {
    if ranges != [] {
      SlicesOfTiling(data, ranges[1..], ranges[0].end);
      assert data[from..] == data[from..ranges[0].end] + data[ranges[0].end..];
    }
  }

  /** How often a position is covered does not depend on the order of the ranges. */
  lemma {:induction false} CoverPermuted(a: seq<Range>, b: seq<Range>, p: nat)
    requires multiset(a) == multiset(b)
    ensures Cover(a, p) == Cover(b, p)
  {
    if a == [] {
      assert |multiset(b)| == 0;
    } else {
      assert a == [a[0]] + a[1..];
      assert a[0] in multiset(b);
      var k :| 0 <= k < |b| && b[k] == a[0];
      var rest := b[..k] + b[k + 1..];
      Removed(a, b, k);
      CoverPermuted(a[1..], rest, p);
      assert b == b[..k] + [b[k]] + b[k + 1..];
      CoverConcat(b[..k] + [b[k]], b[k + 1..], p);
      CoverConcat(b[..k], [b[k]], p);
      CoverConcat(b[..k], b[k + 1..], p);
    }
  }

  lemma Removed(a: seq<Range>, b: seq<Range>, k: nat)
    requires a != [] && k < |b| && b[k] == a[0] && multiset(a) == multiset(b)
    ensures multiset(a[1..]) == multiset(b[..k] + b[k + 1..])
  {
    assert a == [a[0]] + a[1..];
    assert b == b[..k] + [b[k]] + b[k + 1..];
    assert multiset(a) == multiset{a[0]} + multiset(a[1..]);
    assert multiset(b) == multiset(b[..k]) + multiset{b[k]} + multiset(b[k + 1..]);
    assert multiset(b[..k] + b[k + 1..]) == multiset(b[..k]) + multiset(b[k + 1..]);
    assert multiset(a[1..]) == multiset(a) - multiset{a[0]};
  }

  /** An accepted object is reproduced by laying out its tensors by offset. */
  lemma LayoutReproducesObject(data: seq<Byte>, ranges: seq<Range>, sorted: seq<Range>)
    requires Nonempty(ranges) && Within(ranges, |data|) && Partitions(ranges, |data|)
    requires Sorted(sorted) && multiset(sorted) == multiset(ranges)
    ensures Nonempty(sorted) && Within(sorted, |data|) && Slices(data, sorted) == data
  {
    Permuted(ranges, sorted, |data|);
    forall p: nat ensures Cover(sorted, p) == Cover(ranges, p) { CoverPermuted(sorted, ranges, p); }
    CoverTiles(sorted, 0, |data|);
    SlicesOfTiling(data, sorted, 0);
  }

  /** Collects every tensor of an object from its pages. */
  method CollectTensors(data: seq<Byte>, ranges: seq<Range>, pageSize: nat) returns (r: Result<seq<seq<Byte>>>)
    requires Nonempty(ranges) && Within(ranges, |data|) && pageSize > 0 && |data| + (pageSize - 1) <= MAX_U64
    ensures r.Ok? && |r.value| == |ranges|
    ensures forall i | 0 <= i < |ranges| :: r.value[i] == data[ranges[i].offset..ranges[i].end]
  {
    var tensors: seq<seq<Byte>> := [];
    for i := 0 to |ranges|
      invariant |tensors| == i && forall k | 0 <= k < i :: tensors[k] == data[ranges[k].offset..ranges[k].end]
    {
      var tensor := CollectTensor(data, ranges[i], pageSize);
      tensors := tensors + [tensor.value];
    }
    r := Ok(tensors);
  }

  function Laid(tensors: seq<seq<Byte>>): seq<Byte> { if tensors == [] then [] else tensors[0] + Laid(tensors[1..]) }

  lemma {:induction false} LaidAreSlices(data: seq<Byte>, ranges: seq<Range>, tensors: seq<seq<Byte>>)
    requires Nonempty(ranges) && Within(ranges, |data|) && |tensors| == |ranges|
    requires forall i | 0 <= i < |ranges| :: tensors[i] == data[ranges[i].offset..ranges[i].end]
    ensures Laid(tensors) == Slices(data, ranges)
  {
    if ranges != [] { LaidAreSlices(data, ranges[1..], tensors[1..]); }
  }

  /** An object whose tensors partition it is given back by its page-wise collected tensors in
      offset order, whatever the page size and the order they were listed in. */
  method Reassemble(data: seq<Byte>, ranges: seq<Range>, pageSize: nat) returns (whole: seq<Byte>)
    requires Nonempty(ranges) && Within(ranges, |data|) && Partitions(ranges, |data|)
    requires pageSize > 0 && |data| + (pageSize - 1) <= MAX_U64
    ensures whole == data
  {
    var sorted := SortRanges(ranges);
    LayoutReproducesObject(data, ranges, sorted);
    var tensors := CollectTensors(data, sorted, pageSize);
    LaidAreSlices(data, sorted, tensors.value);
    whole := Laid(tensors.value);
  }
}
