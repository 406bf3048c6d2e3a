/** The canonical manifest writer (the ASCII subset of RFC 8785, sections 3.2.2.2 and 3.2.3) and a
    strict parser for exactly its image. */
module CanonicalJson {
  import opened Common

  /** An object is an ordered map, that is, its entries by ascending key. */
  datatype Json =
    | Bool(truth: bool)
    | Integer(number: nat)
    | String(text: seq<Byte>)
    | Array(items: seq<Json>)
    | Object(members: seq<Member>)

  datatype Member = Member(key: seq<Byte>, value: Json)

  // ---------------------------------------------------------------- the writer

  function Hex(n: nat): Byte
    requires n < 16
  {
    if n < 10 then 48 + n else 87 + n
  }

  function Escape(b: Byte): (e: seq<Byte>)
    ensures |e| >= 1
  {
    if b == 34 then [92, 34]
    else if b == 92 then [92, 92]
    else if b == 8 then [92, 98]
    else if b == 9 then [92, 116]
    else if b == 10 then [92, 110]
    else if b == 12 then [92, 102]
    else if b == 13 then [92, 114]
    else if b < 32 then [92, 117, 48, 48, Hex(b / 16), Hex(b % 16)]
    else [b]
  }

  /** The escaped text followed by the closing quote. */
  function TextTail(s: seq<Byte>): (r: seq<Byte>)
    ensures |r| >= 1
  {
    if s == [] then [34] else Escape(s[0]) + TextTail(s[1..])
  }

  function WriteString(s: seq<Byte>): seq<Byte> { [34] + TextTail(s) }

  function Decimal(n: nat): (d: seq<Byte>)
    ensures |d| >= 1
  {
    if n < 10 then [48 + n] else Decimal(n / 10) + [48 + n % 10]
  }

  function Write(v: Json): (r: seq<Byte>)
    ensures |r| >= 1
    decreases v
  {
    match v
    case Bool(b) => if b then [116, 114, 117, 101] else [102, 97, 108, 115, 101]
    case Integer(n) => Decimal(n)
    case String(s) => WriteString(s)
    case Array(items) => [91] + if items == [] then [93] else Write(items[0]) + ItemsTail(items[1..])
    case Object(members) =>
      [123] + if members == [] then [125] else WriteMember(members[0]) + MembersTail(members[1..])
  }

  /** The remaining items, each after a comma, and the closing bracket. */
  function ItemsTail(items: seq<Json>): (r: seq<Byte>)
    ensures |r| >= 1
    decreases items
  {
    if items == [] then [93] else [44] + Write(items[0]) + ItemsTail(items[1..])
  }

  function WriteMember(m: Member): seq<Byte>
    decreases m
  {
    WriteString(m.key) + [58] + Write(m.value)
  }

  function MembersTail(members: seq<Member>): (r: seq<Byte>)
    ensures |r| >= 1
    decreases members
  {
    if members == [] then [125] else [44] + WriteMember(members[0]) + MembersTail(members[1..])
  }

  function CanonicalBytes(v: Json): seq<Byte> { Write(v) + [10] }

  // ---------------------------------------------------------------- documents

  predicate Less(a: seq<Byte>, b: seq<Byte>) {
    b != [] && (a == [] || a[0] < b[0] || (a[0] == b[0] && Less(a[1..], b[1..])))
  }

  /** The keys share `n` bytes; then the first is over, or has the smaller byte. */
  ghost predicate Decided(a: seq<Byte>, b: seq<Byte>, n: nat) {
    && n <= |a| && n < |b| && a[..n] == b[..n]
    && (n == |a| || a[n] < b[n])
  }

  /** The order of keys: a proper prefix comes first, and otherwise the first different byte decides. */
  lemma {:induction false} LessMeans(a: seq<Byte>, b: seq<Byte>)
    ensures Less(a, b) <==> exists n: nat :: Decided(a, b, n)
  {
    if a != [] && b != [] && a[0] == b[0] {
      LessMeans(a[1..], b[1..]);
      if Less(a, b) {
        var n: nat :| Decided(a[1..], b[1..], n);
        assert a[..n + 1] == [a[0]] + a[1..][..n] && b[..n + 1] == [b[0]] + b[1..][..n];
        assert Decided(a, b, n + 1);
      }
      if n: nat :| Decided(a, b, n) {
        assert n > 0 && a[1..][..n - 1] == a[..n][1..] && b[1..][..n - 1] == b[..n][1..];
        assert Decided(a[1..], b[1..], n - 1);
      }
    } else if Less(a, b) {
      assert Decided(a, b, 0);
    } else if n: nat :| Decided(a, b, n) {
      SameStart(a, b, n);
    }
  }

  lemma SameStart(a: seq<Byte>, b: seq<Byte>, n: nat)
    requires Decided(a, b, n)
    ensures n > 0 ==> a != [] && a[0] == b[0]
  {
    if n > 0 { assert a[0] == a[..n][0] == b[..n][0] == b[0]; }
  }

  predicate Ascii(s: seq<Byte>) { forall i | 0 <= i < |s| :: s[i] < 128 }

  /** Keys ascend strictly from `prior` on. */
  predicate Ascending(prior: seq<Byte>, members: seq<Member>)
    decreases |members|
  {
    members == [] || (Less(prior, members[0].key) && Ascending(members[0].key, members[1..]))
  }

  predicate WellFormed(v: Json)
    decreases v
  {
    match v
    case Bool(_) => true
    case Integer(_) => true
    case String(s) => Ascii(s)
    case Array(items) => forall i | 0 <= i < |items| :: WellFormed(items[i])
    case Object(members) =>
      && (members == [] || Ascending(members[0].key, members[1..]))
      && forall i | 0 <= i < |members| :: Ascii(members[i].key) && WellFormed(members[i].value)
  }

  // ---------------------------------------------------------------- the strict parser

  datatype Parsed<T> = Ok(value: T, rest: seq<Byte>) | Bad

  function HexValue(b: Byte): nat {
    if 48 <= b <= 57 then b - 48 else if 97 <= b <= 102 then b - 87 else 16
  }

  /** One character of a string, escaped exactly as the writer would. */
  function ParseChar(b: seq<Byte>): (r: Parsed<Byte>)
    ensures r.Ok? ==> b == Escape(r.value) + r.rest && r.value < 128
  {
    if b == [] || b[0] == 34 || b[0] < 32 || b[0] >= 128 then Bad
    else if b[0] != 92 then
      assert b == [b[0]] + b[1..];
      Ok(b[0], b[1..])
    else if |b| < 2 then Bad
    else if b[1] == 117 then ParseUnicode(b)
    else
      var c := if b[1] == 34 || b[1] == 92 then b[1]
               else if b[1] == 98 then 8 else if b[1] == 116 then 9 else if b[1] == 110 then 10
               else if b[1] == 102 then 12 else if b[1] == 114 then 13 else 128;
      if c == 128 then Bad
      else
        assert b == [92, b[1]] + b[2..];
        Ok(c, b[2..])
  }

  function ParseUnicode(b: seq<Byte>): (r: Parsed<Byte>)
    requires |b| >= 2 && b[0] == 92 && b[1] == 117
    ensures r.Ok? ==> b == Escape(r.value) + r.rest && r.value < 32
  {
    if |b| < 6 || b[2] != 48 || b[3] != 48 then Bad
    else
      var high, low := HexValue(b[4]), HexValue(b[5]);
      if high > 1 || low > 15 then Bad
      else
        var c := high * 16 + low;
        if c == 8 || c == 9 || c == 10 || c == 12 || c == 13 then Bad
        else
          assert b == [92, 117, 48, 48, b[4], b[5]] + b[6..];
          assert c / 16 == high && c % 16 == low;
          Ok(c, b[6..])
  }

  lemma TextSpelling(c: Byte, s: seq<Byte>, more: seq<Byte>, rest: seq<Byte>)
    requires more == TextTail(s) + rest
    ensures Escape(c) + more == TextTail([c] + s) + rest
  {
    hide Escape;
    assert ([c] + s)[1..] == s;
  }

  function ParseText(b: seq<Byte>): (r: Parsed<seq<Byte>>)
    ensures r.Ok? ==> b == TextTail(r.value) + r.rest && Ascii(r.value)
    decreases |b|
  {
    if b == [] then Bad
    else if b[0] == 34 then
      assert b == [34] + b[1..];
      Ok([], b[1..])
    else
      match ParseChar(b)
      case Bad => Bad
      case Ok(c, more) =>
        match ParseText(more)
        case Bad => Bad
        case Ok(s, rest) =>
          TextSpelling(c, s, more, rest);
          Ok([c] + s, rest)
  }

  function ParseString(b: seq<Byte>): (r: Parsed<seq<Byte>>)
    ensures r.Ok? ==> b == WriteString(r.value) + r.rest && Ascii(r.value)
  {
    if b == [] || b[0] != 34 then Bad
    else
      assert b == [34] + b[1..];
      ParseText(b[1..])
  }

  predicate IsDigit(b: seq<Byte>) { b != [] && 48 <= b[0] <= 57 }

  /** Continues a number whose digits so far denote `n`. */
  function ParseDigits(b: seq<Byte>, n: nat): (r: Parsed<nat>)
    ensures r.Ok? && !IsDigit(r.rest)
    ensures n > 0 ==> Decimal(n) + b == Decimal(r.value) + r.rest
    decreases |b|
  {
    if !IsDigit(b) then Ok(n, b)
    else
      var next := 10 * n + (b[0] - 48);
      assert n > 0 ==> Decimal(next) == Decimal(n) + [b[0]];
      assert b == [b[0]] + b[1..];
      ParseDigits(b[1..], next)
  }

  function ParseInteger(b: seq<Byte>): (r: Parsed<nat>)
    requires IsDigit(b)
    ensures r.Ok? ==> b == Decimal(r.value) + r.rest && !IsDigit(r.rest)
  {
    assert b == [b[0]] + b[1..];
    if b[0] == 48 then (if IsDigit(b[1..]) then Bad else Ok(0, b[1..]))
    else ParseDigits(b[1..], b[0] - 48)
  }

  predicate AllWellFormed(items: seq<Json>) { forall i | 0 <= i < |items| :: WellFormed(items[i]) }

  predicate MemberOk(m: Member) { Ascii(m.key) && WellFormed(m.value) }

  predicate AllMembersOk(members: seq<Member>) { forall i | 0 <= i < |members| :: MemberOk(members[i]) }

  function ParseLiteral(b: seq<Byte>): (r: Parsed<Json>)
    ensures r.Ok? ==> r.value.Bool? && b == Write(r.value) + r.rest
  {
    if |b| >= 4 && b[..4] == [116, 114, 117, 101] then
      assert b == b[..4] + b[4..];
      Ok(Bool(true), b[4..])
    else if |b| >= 5 && b[..5] == [102, 97, 108, 115, 101] then
      assert b == b[..5] + b[5..];
      Ok(Bool(false), b[5..])
    else Bad
  }

  /** Accepts exactly the canonical spelling of one value. */
  function ParseValue(b: seq<Byte>): (r: Parsed<Json>)
    ensures r.Ok? ==> b == Write(r.value) + r.rest && WellFormed(r.value)
    decreases |b|, 0
  {
    if b == [] then Bad
    else if b[0] == 91 then
      match ParseArray(b[1..])
      case Bad => Bad
      case Ok(items, rest) => ArraySpelling(b, items, rest); Ok(Array(items), rest)
    else if b[0] == 123 then
      match ParseObject(b[1..])
      case Bad => Bad
      case Ok(members, rest) => ObjectSpelling(b, members, rest); Ok(Object(members), rest)
    else if b[0] == 34 then
      match ParseString(b)
      case Bad => Bad
      case Ok(s, rest) => Ok(String(s), rest)
    else if IsDigit(b) then
      match ParseInteger(b)
      case Bad => Bad
      case Ok(n, rest) => Ok(Integer(n), rest)
    else ParseLiteral(b)
  }

  /** What follows an opening bracket. */
  function ArrayBody(items: seq<Json>): seq<Byte> {
    if items == [] then [93] else Write(items[0]) + ItemsTail(items[1..])
  }

  function ObjectBody(members: seq<Member>): seq<Byte> {
    if members == [] then [125] else WriteMember(members[0]) + MembersTail(members[1..])
  }

  lemma ArraySpelling(b: seq<Byte>, items: seq<Json>, rest: seq<Byte>)
    requires b != [] && b[0] == 91 && b[1..] == ArrayBody(items) + rest && AllWellFormed(items)
    ensures b == Write(Array(items)) + rest && WellFormed(Array(items))
  {
    assert Write(Array(items)) == [91] + ArrayBody(items);
    assert b == [91] + b[1..];
  }

  lemma ObjectSpelling(b: seq<Byte>, members: seq<Member>, rest: seq<Byte>)
    requires b != [] && b[0] == 123 && b[1..] == ObjectBody(members) + rest && AllMembersOk(members)
    requires members == [] || Ascending(members[0].key, members[1..])
    ensures b == Write(Object(members)) + rest && WellFormed(Object(members))
  {
    assert Write(Object(members)) == [123] + ObjectBody(members);
    assert b == [123] + b[1..];
    assert forall i | 0 <= i < |members| :: MemberOk(members[i]);
  }

  function ParseArray(b: seq<Byte>): (r: Parsed<seq<Json>>)
    ensures r.Ok? ==> b == ArrayBody(r.value) + r.rest && AllWellFormed(r.value)
    decreases |b|, 1
  {
    if b != [] && b[0] == 93 then
      assert b == [93] + b[1..];
      Ok([], b[1..])
    else
      match ParseValue(b)
      case Bad => Bad
      case Ok(v, more) =>
        match ParseItems(more)
        case Bad => Bad
        case Ok(vs, rest) =>
          assert ([v] + vs)[1..] == vs;
          assert b == (Write(v) + ItemsTail(vs)) + rest;
          Ok([v] + vs, rest)
  }

  function ParseItems(b: seq<Byte>): (r: Parsed<seq<Json>>)
    ensures r.Ok? ==> b == ItemsTail(r.value) + r.rest && AllWellFormed(r.value)
    decreases |b|, 0
  {
    if b == [] then Bad
    else if b[0] == 93 then
      assert b == [93] + b[1..];
      Ok([], b[1..])
    else if b[0] != 44 then Bad
    else
      match ParseValue(b[1..])
      case Bad => Bad
      case Ok(v, more) =>
        match ParseItems(more)
        case Bad => Bad
        case Ok(vs, rest) =>
          assert ([v] + vs)[1..] == vs;
          assert b == [44] + b[1..];
          assert b == ([44] + Write(v) + ItemsTail(vs)) + rest;
          Ok([v] + vs, rest)
  }

  lemma MemberSpelling(b: seq<Byte>, key: seq<Byte>, more: seq<Byte>, v: Json, rest: seq<Byte>)
    requires b == WriteString(key) + more && more != [] && more[0] == 58 && more[1..] == Write(v) + rest
    ensures b == WriteMember(Member(key, v)) + rest
  {
    hide Write, WriteString;
    assert more == [58] + more[1..];
    assert WriteMember(Member(key, v)) == WriteString(key) + [58] + Write(v);
  }

  function ParseMember(b: seq<Byte>): (r: Parsed<Member>)
    ensures r.Ok? ==> b == WriteMember(r.value) + r.rest && MemberOk(r.value)
    decreases |b|, 1
  {
    match ParseString(b)
    case Bad => Bad
    case Ok(key, more) =>
      if more == [] || more[0] != 58 then Bad
      else
        match ParseValue(more[1..])
        case Bad => Bad
        case Ok(v, rest) =>
          MemberSpelling(b, key, more, v, rest);
          Ok(Member(key, v), rest)
  }

  function ParseObject(b: seq<Byte>): (r: Parsed<seq<Member>>)
    ensures r.Ok? ==> b == ObjectBody(r.value) + r.rest && AllMembersOk(r.value)
    ensures r.Ok? && r.value != [] ==> Ascending(r.value[0].key, r.value[1..])
    decreases |b|, 2
  {
    if b != [] && b[0] == 125 then
      assert b == [125] + b[1..];
      Ok([], b[1..])
    else
      match ParseMember(b)
      case Bad => Bad
      case Ok(m, more) =>
        match ParseMembers(more, m.key)
        case Bad => Bad
        case Ok(ms, rest) =>
          assert ([m] + ms)[1..] == ms;
          assert b == (WriteMember(m) + MembersTail(ms)) + rest;
          Ok([m] + ms, rest)
  }

  lemma MembersSpelling(b: seq<Byte>, m: Member, ms: seq<Member>, more: seq<Byte>, rest: seq<Byte>)
    requires b != [] && b[0] == 44 && b[1..] == WriteMember(m) + more && more == MembersTail(ms) + rest
    ensures b == MembersTail([m] + ms) + rest && ([m] + ms)[1..] == ms
  {
    assert ([m] + ms)[1..] == ms;
    assert b == [44] + b[1..];
    assert b == ([44] + WriteMember(m) + MembersTail(ms)) + rest;
  }

  function ParseMembers(b: seq<Byte>, prior: seq<Byte>): (r: Parsed<seq<Member>>)
    ensures r.Ok? ==> b == MembersTail(r.value) + r.rest && AllMembersOk(r.value) && Ascending(prior, r.value)
    decreases |b|, 0
  {
    if b == [] then Bad
    else if b[0] == 125 then
      assert b == [125] + b[1..];
      Ok([], b[1..])
    else if b[0] != 44 then Bad
    else
      match ParseMember(b[1..])
      case Bad => Bad
      case Ok(m, more) =>
        if !Less(prior, m.key) then Bad
        else
          match ParseMembers(more, m.key)
          case Bad => Bad
          case Ok(ms, rest) =>
            MembersSpelling(b, m, ms, more, rest);
            Ok([m] + ms, rest)
  }

  function ParseDocument(b: seq<Byte>): (r: Parsed<Json>)
    ensures r.Ok? ==> b == CanonicalBytes(r.value) && WellFormed(r.value)
  {
    match ParseValue(b)
    case Bad => Bad
    case Ok(v, rest) => if rest == [10] then Ok(v, []) else Bad
  }

  // ---------------------------------------------------------------- parsing undoes writing

  lemma CharRoundTrip(c: Byte, rest: seq<Byte>)
    requires c < 128
    ensures ParseChar(Escape(c) + rest) == Ok(c, rest) && Escape(c)[0] != 34
  {
    var b := Escape(c) + rest;
    assert b[|Escape(c)|..] == rest;
    if c < 32 && c != 8 && c != 9 && c != 10 && c != 12 && c != 13 {
      assert HexValue(Hex(c / 16)) == c / 16 && HexValue(Hex(c % 16)) == c % 16;
    }
  }

  lemma {:induction false} TextRoundTrip(s: seq<Byte>, rest: seq<Byte>)
    requires Ascii(s)
    ensures ParseText(TextTail(s) + rest) == Ok(s, rest)
  {
    if s == [] {
      assert ([34] + rest)[1..] == rest;
    } else {
      var more := TextTail(s[1..]) + rest;
      assert TextTail(s) + rest == Escape(s[0]) + more;
      hide Escape;
      CharRoundTrip(s[0], more);
      TextRoundTrip(s[1..], rest);
      assert [s[0]] + s[1..] == s;
    }
  }

  lemma StringRoundTrip(s: seq<Byte>, rest: seq<Byte>)
    requires Ascii(s)
    ensures ParseString(WriteString(s) + rest) == Ok(s, rest)
  {
    assert WriteString(s) + rest == [34] + (TextTail(s) + rest);
    TextRoundTrip(s, rest);
  }

  lemma {:induction false} DigitsRoundTrip(n: nat, rest: seq<Byte>)
    requires n > 0
    ensures 49 <= Decimal(n)[0] <= 57
    ensures ParseDigits(Decimal(n)[1..] + rest, Decimal(n)[0] - 48) == ParseDigits(rest, n)
  {
    if n < 10 {
      assert Decimal(n)[1..] + rest == rest;
    } else {
      var d := Decimal(n / 10);
      var last: seq<Byte> := [48 + n % 10];
      DigitsRoundTrip(n / 10, last + rest);
      assert Decimal(n)[1..] + rest == d[1..] + (last + rest);
      assert (last + rest)[1..] == rest;
    }
  }

  lemma IntegerByDigits(b: seq<Byte>)
    requires IsDigit(b) && b[0] != 48
    ensures ParseInteger(b) == ParseDigits(b[1..], b[0] - 48)
  {
    hide ParseDigits;
  }

  lemma NoMoreDigits(rest: seq<Byte>, n: nat)
    requires !IsDigit(rest)
    ensures ParseDigits(rest, n) == Ok(n, rest)
  {}

  lemma IntegerRoundTrip(n: nat, rest: seq<Byte>)
    requires !IsDigit(rest)
    ensures IsDigit(Decimal(n) + rest) && ParseInteger(Decimal(n) + rest) == Ok(n, rest)
  {
    if n == 0 {
      ZeroRoundTrip(rest);
    } else {
      PositiveRoundTrip(n, rest);
    }
  }

  lemma ZeroRoundTrip(rest: seq<Byte>)
    requires !IsDigit(rest)
    ensures IsDigit(Decimal(0) + rest) && ParseInteger(Decimal(0) + rest) == Ok(0, rest)
  {
    assert Decimal(0) + rest == [48] + rest && ([48] + rest)[1..] == rest;
  }

  lemma PositiveRoundTrip(n: nat, rest: seq<Byte>)
    requires n > 0 && !IsDigit(rest)
    ensures IsDigit(Decimal(n) + rest) && ParseInteger(Decimal(n) + rest) == Ok(n, rest)
  {
    hide ParseInteger, ParseDigits, Decimal;
    var b := Decimal(n) + rest;
    DigitsRoundTrip(n, rest);
    assert b[1..] == Decimal(n)[1..] + rest;
    IntegerByDigits(b);
    NoMoreDigits(rest, n);
  }

  lemma FirstByte(v: Json)
    ensures v.Array? ==> Write(v)[0] == 91
    ensures v.Object? ==> Write(v)[0] == 123
    ensures v.String? ==> Write(v)[0] == 34
    ensures v.Integer? ==> 48 <= Write(v)[0] <= 57
    ensures v.Bool? ==> Write(v)[0] == 116 || Write(v)[0] == 102
  {
    if v.Integer? && v.number > 0 { DigitsRoundTrip(v.number, []); }
  }

  /** Whatever follows, the strict parser reads back exactly the written value; only a number
      must not be followed by another digit. */
  lemma {:induction false} ValueRoundTrip(v: Json, rest: seq<Byte>)
    requires WellFormed(v) && (v.Integer? ==> !IsDigit(rest))
    ensures ParseValue(Write(v) + rest) == Ok(v, rest)
    decreases v, 0
  {
    FirstByte(v);
    var b := Write(v) + rest;
    match v
    case Bool(t) =>
      assert b[..|Write(v)|] == Write(v) && b[|Write(v)|..] == rest;
    case Integer(n) => IntegerRoundTrip(n, rest);
    case String(s) => StringRoundTrip(s, rest);
    case Array(items) =>
      assert b[1..] == ArrayBody(items) + rest;
      ArrayRoundTrip(items, rest);
    case Object(members) =>
      assert b[1..] == ObjectBody(members) + rest;
      assert forall i | 0 <= i < |members| :: MemberOk(members[i]);
      ObjectRoundTrip(members, rest);
  }

  lemma {:induction false} ArrayRoundTrip(items: seq<Json>, rest: seq<Byte>)
    requires AllWellFormed(items)
    ensures ParseArray(ArrayBody(items) + rest) == Ok(items, rest)
    decreases items, 1
  {
    var b := ArrayBody(items) + rest;
    if items == [] {
      assert b[1..] == rest;
    } else {
      var more := ItemsTail(items[1..]) + rest;
      assert b == Write(items[0]) + more;
      FirstByte(items[0]);
      hide Write, ItemsTail, ParseArray, ParseItems, ParseValue;
      ValueRoundTrip(items[0], more);
      ItemsRoundTrip(items[1..], rest);
      ArrayHead(b, items[0], items[1..], more, rest);
      assert [items[0]] + items[1..] == items;
    }
  }

  lemma {:induction false} ObjectRoundTrip(members: seq<Member>, rest: seq<Byte>)
    requires AllMembersOk(members) && (members == [] || Ascending(members[0].key, members[1..]))
    ensures ParseObject(ObjectBody(members) + rest) == Ok(members, rest)
    decreases members, 1
  {
    var b := ObjectBody(members) + rest;
    if members == [] {
      EmptyObject(rest);
    } else {
      var more := MembersTail(members[1..]) + rest;
      assert b == WriteMember(members[0]) + more;
      hide WriteMember, MembersTail, ParseObject, ParseMembers, ParseMember;
      MemberRoundTrip(members[0], more);
      MembersRoundTrip(members[1..], members[0].key, rest);
      ObjectHead(b, members[0], members[1..], more, rest);
      assert [members[0]] + members[1..] == members;
    }
  }

  lemma ArrayHead(b: seq<Byte>, v: Json, vs: seq<Json>, more: seq<Byte>, rest: seq<Byte>)
    requires b != [] && b[0] != 93 && ParseValue(b) == Ok(v, more) && ParseItems(more) == Ok(vs, rest)
    ensures ParseArray(b) == Ok([v] + vs, rest)
  {
    hide ParseValue, ParseItems;
  }

  lemma ItemsHead(b: seq<Byte>, v: Json, vs: seq<Json>, more: seq<Byte>, rest: seq<Byte>)
    requires b != [] && b[0] == 44 && ParseValue(b[1..]) == Ok(v, more) && ParseItems(more) == Ok(vs, rest)
    ensures ParseItems(b) == Ok([v] + vs, rest)
  {
    hide ParseValue;
  }

  lemma MembersHead(b: seq<Byte>, prior: seq<Byte>, m: Member, ms: seq<Member>, more: seq<Byte>, rest: seq<Byte>)
    requires b != [] && b[0] == 44 && ParseMember(b[1..]) == Ok(m, more) && Less(prior, m.key)
    requires ParseMembers(more, m.key) == Ok(ms, rest)
    ensures ParseMembers(b, prior) == Ok([m] + ms, rest)
  {
    hide ParseMember, Less;
  }

  lemma EmptyObject(rest: seq<Byte>)
    ensures ParseObject(ObjectBody([]) + rest) == Ok([], rest)
  {
    assert ([125] + rest)[1..] == rest;
  }

  lemma ObjectHead(b: seq<Byte>, m: Member, ms: seq<Member>, more: seq<Byte>, rest: seq<Byte>)
    requires b == WriteMember(m) + more && ParseMember(b) == Ok(m, more) && ParseMembers(more, m.key) == Ok(ms, rest)
    ensures ParseObject(b) == Ok([m] + ms, rest)
  {
    assert b[0] == WriteString(m.key)[0] == 34;
  }

  lemma {:induction false} ItemsRoundTrip(items: seq<Json>, rest: seq<Byte>)
    requires AllWellFormed(items)
    ensures ParseItems(ItemsTail(items) + rest) == Ok(items, rest)
    decreases items, 0
  {
    var b := ItemsTail(items) + rest;
    if items == [] {
      assert b[1..] == rest;
    } else {
      var more := ItemsTail(items[1..]) + rest;
      assert b[0] == 44 && b[1..] == Write(items[0]) + more;
      hide Write, ItemsTail, ParseItems, ParseValue;
      ValueRoundTrip(items[0], more);
      ItemsRoundTrip(items[1..], rest);
      ItemsHead(b, items[0], items[1..], more, rest);
      assert [items[0]] + items[1..] == items;
    }
  }

  lemma {:induction false} MemberRoundTrip(m: Member, rest: seq<Byte>)
    requires MemberOk(m) && !IsDigit(rest)
    ensures ParseMember(WriteMember(m) + rest) == Ok(m, rest)
    decreases m, 1
  {
    var more := [58] + (Write(m.value) + rest);
    assert WriteMember(m) + rest == WriteString(m.key) + more;
    StringRoundTrip(m.key, more);
    assert more[1..] == Write(m.value) + rest;
    ValueRoundTrip(m.value, rest);
  }

  lemma {:induction false} MembersRoundTrip(members: seq<Member>, prior: seq<Byte>, rest: seq<Byte>)
    requires AllMembersOk(members) && Ascending(prior, members)
    ensures ParseMembers(MembersTail(members) + rest, prior) == Ok(members, rest)
    decreases members, 0
  {
    var b := MembersTail(members) + rest;
    if members == [] {
      assert b[1..] == rest;
    } else {
      var more := MembersTail(members[1..]) + rest;
      assert b[0] == 44 && b[1..] == WriteMember(members[0]) + more;
      hide WriteMember, MembersTail, ParseMembers, ParseMember;
      MemberRoundTrip(members[0], more);
      MembersRoundTrip(members[1..], members[0].key, rest);
      MembersHead(b, prior, members[0], members[1..], more, rest);
      assert [members[0]] + members[1..] == members;
    }
  }

  /** Parsing undoes writing on every document. */
  lemma DocumentRoundTrip(v: Json)
    requires WellFormed(v)
    ensures ParseDocument(CanonicalBytes(v)) == Ok(v, [])
  {
    ValueRoundTrip(v, [10]);
  }

  /** Distinct documents have distinct bytes. */
  lemma WriterInjective(v: Json, w: Json)
    requires WellFormed(v) && WellFormed(w) && CanonicalBytes(v) == CanonicalBytes(w)
    ensures v == w
  {
    DocumentRoundTrip(v);
    DocumentRoundTrip(w);
  }

  // ---------------------------------------------------------------- the byte-equality check

  /** The manifest check: some library parser reads a document and writing it gives the input back. */
  predicate Accepts(library: seq<Byte> -> Option<Json>, b: seq<Byte>) {
    library(b).Some? && CanonicalBytes(library(b).value) == b
  }

  /** Whatever lenient library parser is used, the accepted inputs are canonical documents, and the
      document read is the one the strict parser reads: there is one accepted spelling of each
      document and one document for each accepted spelling. */
  lemma AcceptanceIsStrict(library: seq<Byte> -> Option<Json>, b: seq<Byte>)
    requires library(b).Some? ==> WellFormed(library(b).value)
    ensures Accepts(library, b) <==> library(b).Some? && ParseDocument(b) == Ok(library(b).value, [])
  {
    if library(b).Some? { DocumentRoundTrip(library(b).value); }
  }

  /** Two programs with different library parsers agree: the inputs they accept denote the same
      document exactly when they are the same bytes. */
  lemma OneSpelling(one: seq<Byte> -> Option<Json>, other: seq<Byte> -> Option<Json>, a: seq<Byte>, b: seq<Byte>)
    requires Accepts(one, a) && Accepts(other, b)
    requires WellFormed(one(a).value) && WellFormed(other(b).value)
    ensures one(a) == other(b) <==> a == b
  {
    if a == b { WriterInjective(one(a).value, other(b).value); }
  }

  // ---------------------------------------------------------------- one printable line

  predicate Printable(b: seq<Byte>) { forall i | 0 <= i < |b| :: 32 <= b[i] < 128 }

  lemma PrintableConcat(a: seq<Byte>, b: seq<Byte>)
    requires Printable(a) && Printable(b)
    ensures Printable(a + b)
  {}

  lemma {:induction false} TextPrintable(s: seq<Byte>)
    requires Ascii(s)
    ensures Printable(TextTail(s))
  {
    if s != [] { TextPrintable(s[1..]); }
  }

  lemma {:induction false} DecimalPrintable(n: nat)
    ensures Printable(Decimal(n))
  {
    if n >= 10 { DecimalPrintable(n / 10); }
  }

  /** No control byte, and in particular no line feed, appears in a written value, so the final
      line feed is the only one. */
  lemma {:induction false} WrittenPrintable(v: Json)
    requires WellFormed(v)
    ensures Printable(Write(v))
    decreases v, 0
  {
    match v
    case Bool(_) =>
    case Integer(n) => DecimalPrintable(n);
    case String(s) =>
      TextPrintable(s);
      PrintableConcat([34], TextTail(s));
    case Array(items) =>
      ArrayPrintable(items);
      PrintableConcat([91], ArrayBody(items));
    case Object(members) =>
      assert forall i | 0 <= i < |members| :: MemberOk(members[i]);
      ObjectPrintable(members);
      PrintableConcat([123], ObjectBody(members));
  }

  lemma {:induction false} ArrayPrintable(items: seq<Json>)
    requires AllWellFormed(items)
    ensures Printable(ArrayBody(items))
    decreases items, 1
  {
    if items != [] {
      WrittenPrintable(items[0]);
      ItemsPrintable(items[1..]);
      PrintableConcat(Write(items[0]), ItemsTail(items[1..]));
    }
  }

  lemma {:induction false} ItemsPrintable(items: seq<Json>)
    requires AllWellFormed(items)
    ensures Printable(ItemsTail(items))
    decreases items, 0
  {
    if items != [] {
      WrittenPrintable(items[0]);
      ItemsPrintable(items[1..]);
      PrintableConcat([44], Write(items[0]));
      PrintableConcat([44] + Write(items[0]), ItemsTail(items[1..]));
    }
  }

  lemma {:induction false} MemberPrintable(m: Member)
    requires MemberOk(m)
    ensures Printable(WriteMember(m))
    decreases m, 0
  {
    TextPrintable(m.key);
    WrittenPrintable(m.value);
    PrintableConcat([34], TextTail(m.key));
    PrintableConcat(WriteString(m.key), [58]);
    PrintableConcat(WriteString(m.key) + [58], Write(m.value));
  }

  lemma {:induction false} ObjectPrintable(members: seq<Member>)
    requires AllMembersOk(members)
    ensures Printable(ObjectBody(members))
    decreases members, 1
  {
    if members != [] {
      MemberPrintable(members[0]);
      MembersPrintable(members[1..]);
      PrintableConcat(WriteMember(members[0]), MembersTail(members[1..]));
    }
  }

  lemma {:induction false} MembersPrintable(members: seq<Member>)
    requires AllMembersOk(members)
    ensures Printable(MembersTail(members))
    decreases members, 0
  {
    if members != [] {
      MemberPrintable(members[0]);
      MembersPrintable(members[1..]);
      PrintableConcat([44], WriteMember(members[0]));
      PrintableConcat([44] + WriteMember(members[0]), MembersTail(members[1..]));
    }
  }

  // ---------------------------------------------------------------- the appending writer

  /** What is still to be written when item `i` is next. */
  function RemainingItems(items: seq<Json>, i: nat): seq<Byte>
    requires i <= |items|
  {
    if i == 0 then ArrayBody(items) else ItemsTail(items[i..])
  }

  lemma ItemsMoved(before: seq<Byte>, items: seq<Json>, i: nat, after: seq<Byte>)
    requires i < |items| && after == (if i == 0 then before else before + [44]) + Write(items[i])
    ensures after + RemainingItems(items, i + 1) == before + RemainingItems(items, i)
  {
    assert items[i..][1..] == items[i + 1..];
    var w, t := Write(items[i]), ItemsTail(items[i + 1..]);
    if i == 0 { Joins(before, [], w, t); } else { Joins(before, [44], w, t); }
  }

  lemma Joins(a: seq<Byte>, c: seq<Byte>, w: seq<Byte>, t: seq<Byte>)
    ensures (a + c + w) + t == a + (c + w + t) && a + [] == a && [] + w == w
  {}

  function RemainingMembers(members: seq<Member>, i: nat): seq<Byte>
    requires i <= |members|
  {
    if i == 0 then ObjectBody(members) else MembersTail(members[i..])
  }

  lemma MembersMoved(before: seq<Byte>, members: seq<Member>, i: nat, after: seq<Byte>)
    requires i < |members| && after == (if i == 0 then before else before + [44]) + WriteMember(members[i])
    ensures after + RemainingMembers(members, i + 1) == before + RemainingMembers(members, i)
  {
    assert members[i..][1..] == members[i + 1..];
    var w, t := WriteMember(members[i]), MembersTail(members[i + 1..]);
    if i == 0 { Joins(before, [], w, t); } else { Joins(before, [44], w, t); }
  }

  lemma TextEnds(s: seq<Byte>)
    ensures s[0..] == s && TextTail(s[|s|..]) == [34]
  {}

  lemma TextMoved(before: seq<Byte>, s: seq<Byte>, i: nat)
    requires i < |s|
    ensures (before + Escape(s[i])) + TextTail(s[i + 1..]) == before + TextTail(s[i..])
  {
    hide Escape;
    assert s[i..][1..] == s[i + 1..];
  }

  lemma ItemsEnds(items: seq<Json>)
    ensures RemainingItems(items, 0) == ArrayBody(items) && RemainingItems(items, |items|) == [93]
  {
    assert items[|items|..] == [];
  }

  lemma MembersEnds(members: seq<Member>)
    ensures RemainingMembers(members, 0) == ObjectBody(members) && RemainingMembers(members, |members|) == [125]
  {
    assert members[|members|..] == [];
  }

  lemma Opened(a: seq<Byte>, open: Byte, body: seq<Byte>)
    ensures a + [open] + body == a + ([open] + body)
  {}

  class Output {
    var bytes: seq<Byte>

    constructor ()
      ensures bytes == []
    {
      bytes := [];
    }

    method PutString(s: seq<Byte>)
      modifies this
      ensures bytes == old(bytes) + WriteString(s)
    {
      hide TextTail, Escape;
      bytes := bytes + [34];
      TextEnds(s);
      for i := 0 to |s|
        invariant bytes + TextTail(s[i..]) == old(bytes) + [34] + TextTail(s)
      {
        TextMoved(bytes, s, i);
        bytes := bytes + Escape(s[i]);
      }
      bytes := bytes + [34];
      Opened(old(bytes), 34, TextTail(s));
    }

    method PutValue(v: Json)
      modifies this
      ensures bytes == old(bytes) + Write(v)
      decreases v, 0
    {
      match v
      case Bool(b) => bytes := bytes + if b then [116, 114, 117, 101] else [102, 97, 108, 115, 101];
      case Integer(n) => bytes := bytes + Decimal(n);
      case String(s) => PutString(s);
      case Array(items) => PutArray(items);
      case Object(members) => PutObject(members);
    }

    method PutArray(items: seq<Json>)
      modifies this
      ensures bytes == old(bytes) + ([91] + ArrayBody(items))
      decreases items, 1
    {
      hide Write, ArrayBody, RemainingItems;
      bytes := bytes + [91];
      ghost var start := bytes;
      ItemsEnds(items);
      for i := 0 to |items|
        invariant bytes + RemainingItems(items, i) == start + ArrayBody(items)
      {
        ghost var before := bytes;
        if i != 0 { bytes := bytes + [44]; }
        PutValue(items[i]);
        ItemsMoved(before, items, i, bytes);
      }
      bytes := bytes + [93];
      Opened(old(bytes), 91, ArrayBody(items));
    }

    method PutObject(members: seq<Member>)
      modifies this
      ensures bytes == old(bytes) + ([123] + ObjectBody(members))
      decreases members, 1
    {
      hide WriteMember, ObjectBody, RemainingMembers;
      bytes := bytes + [123];
      ghost var start := bytes;
      MembersEnds(members);
      for i := 0 to |members|
        invariant bytes + RemainingMembers(members, i) == start + ObjectBody(members)
      {
        ghost var before := bytes;
        if i != 0 { bytes := bytes + [44]; }
        PutMember(members[i]);
        MembersMoved(before, members, i, bytes);
      }
      bytes := bytes + [125];
      Opened(old(bytes), 123, ObjectBody(members));
    }

    method PutMember(m: Member)
      modifies this
      ensures bytes == old(bytes) + WriteMember(m)
      decreases m, 0
    {
      PutString(m.key);
      bytes := bytes + [58];
      PutValue(m.value);
    }
  }

  method Canonical(v: Json) returns (b: seq<Byte>)
    ensures b == CanonicalBytes(v)
    ensures WellFormed(v) ==> ParseDocument(b) == Ok(v, []) && Printable(b[..|b| - 1])
  {
    var output := new Output();
    output.PutValue(v);
    b := output.bytes + [10];
    if WellFormed(v) {
      DocumentRoundTrip(v);
      WrittenPrintable(v);
    }
  }
}
