/** The canonical bytes as text: the grammar of RFC 8259 without any whitespace, with the short escapes of
    its section 7 where there is one, members and items separated by single commas. */
module JsonSpelling {
  import opened Common
  import opened CanonicalJson
  import TraceText

  predicate Plain(s: string) { forall i | 0 <= i < |s| :: s[i] < 128 as char }

  /** The bytes of a text in ASCII. */
  function Codes(s: string): (b: seq<Byte>)
    requires Plain(s)
    ensures |b| == |s| && forall i | 0 <= i < |s| :: b[i] == s[i] as nat
  {
    seq(|s|, i requires 0 <= i < |s| => s[i] as nat)
  }

  lemma Joins(a: string, b: string)
    requires Plain(a) && Plain(b)
    ensures Plain(a + b) && Codes(a + b) == Codes(a) + Codes(b)
  {}

  // ---------------------------------------------------------------- the text of a value

  /** The escapes of two characters: backspace, tab, line feed, form feed, carriage return, quote and
      backslash. */
  const SHORT: map<nat, string> :=
    map[8 := "b", 9 := "t", 10 := "n", 12 := "f", 13 := "r", 34 := "\"", 92 := "\\"]

  function HexDigit(n: nat): (s: string)
    requires n < 16
    ensures Plain(s) && |s| == 1
  {
    "0123456789abcdef"[n..n + 1]
  }

  function Escaped(b: Byte): (s: string)
    requires b < 128
    ensures Plain(s)
  {
    if b in SHORT then "\\" + SHORT[b]
    else if b < 32 then "\\u00" + HexDigit(b / 16) + HexDigit(b % 16)
    else [b as char]
  }

  function Text(s: seq<Byte>): (t: string)
    requires Ascii(s)
    ensures Plain(t)
  {
    if s == [] then "" else Text(s[..|s| - 1]) + Escaped(s[|s| - 1])
  }

  function Quoted(s: seq<Byte>): (t: string)
    requires Ascii(s)
    ensures Plain(t)
  {
    "\"" + Text(s) + "\""
  }

  /** Parts with a comma between any two. */
  function Separated(parts: seq<string>): string {
    if parts == [] then ""
    else if |parts| == 1 then parts[0]
    else Separated(parts[..|parts| - 1]) + "," + parts[|parts| - 1]
  }

  lemma {:induction false} SeparatedPlain(parts: seq<string>)
    requires forall p | p in parts :: Plain(p)
    ensures Plain(Separated(parts))
  {
    if parts != [] {
      var n := |parts| - 1;
      SeparatedPlain(parts[..n]);
      assert parts[n] in parts;
      Joins(Separated(parts[..n]) + ",", parts[n]);
    }
  }

  lemma {:induction false} DigitsPlain(n: nat)
    ensures Plain(TraceText.Digits(n))
  {
    if n >= 10 { DigitsPlain(n / 10); }
  }

  ghost function Spelling(v: Json): (t: string)
    requires WellFormed(v)
    ensures Plain(t)
    decreases v
  {
    match v
    case Bool(b) => if b then "true" else "false"
    case Integer(n) => DigitsPlain(n); TraceText.Digits(n)
    case String(s) => Quoted(s)
    case Array(items) => SeparatedPlain(Items(items)); "[" + Separated(Items(items)) + "]"
    case Object(members) => SeparatedPlain(Entries(members)); "{" + Separated(Entries(members)) + "}"
  }

  ghost function Items(items: seq<Json>): (t: seq<string>)
    requires forall i | 0 <= i < |items| :: WellFormed(items[i])
    ensures |t| == |items| && forall p | p in t :: Plain(p)
    decreases items
  {
    if items == [] then [] else [Spelling(items[0])] + Items(items[1..])
  }

  ghost function Entries(members: seq<Member>): (t: seq<string>)
    requires forall i | 0 <= i < |members| :: Ascii(members[i].key) && WellFormed(members[i].value)
    ensures |t| == |members| && forall p | p in t :: Plain(p)
    decreases members
  {
    if members == [] then []
    else [Entry(members[0])] + Entries(members[1..])
  }

  ghost function Entry(m: Member): (t: string)
    requires Ascii(m.key) && WellFormed(m.value)
    ensures Plain(t)
    decreases m
  {
    Quoted(m.key) + ":" + Spelling(m.value)
  }

  // ---------------------------------------------------------------- the bytes spell the text

  lemma EscapeSpells(b: Byte)
    requires b < 128
    ensures Escape(b) == Codes(Escaped(b))
  {
    if b < 32 && b !in SHORT {
      HexSpells(b / 16);
      HexSpells(b % 16);
      Joins("\\u00" + HexDigit(b / 16), HexDigit(b % 16));
      Joins("\\u00", HexDigit(b / 16));
      assert Codes("\\u00") == [92, 117, 48, 48];
    }
  }

  lemma HexSpells(n: nat)
    requires n < 16
    ensures Codes(HexDigit(n)) == [Hex(n)]
  {}

  lemma {:induction false} TextFront(s: seq<Byte>)
    requires Ascii(s) && s != []
    ensures Text(s) == Escaped(s[0]) + Text(s[1..])
  {
    hide Escaped;
    if |s| > 1 {
      var n := |s| - 1;
      TextFront(s[..n]);
      assert s[..n][1..] == s[1..][..n - 1];
    } else {
      assert s[..0] == [];
    }
  }

  lemma {:induction false} TextSpells(s: seq<Byte>)
    requires Ascii(s)
    ensures TextTail(s) == Codes(Text(s)) + [34]
  {
    hide Escape, Escaped;
    if s != [] {
      TextSpells(s[1..]);
      TextFront(s);
      EscapeSpells(s[0]);
      Joins(Escaped(s[0]), Text(s[1..]));
    }
  }

  lemma QuotedSpells(s: seq<Byte>)
    requires Ascii(s)
    ensures WriteString(s) == Codes(Quoted(s))
  {
    hide Text;
    TextSpells(s);
    Joins("\"" + Text(s), "\"");
    Joins("\"", Text(s));
    assert Codes("\"") == [34];
  }

  lemma {:induction false} DecimalSpells(n: nat)
    ensures Plain(TraceText.Digits(n)) && Decimal(n) == Codes(TraceText.Digits(n))
  {
    DigitsPlain(n);
    if n >= 10 {
      DecimalSpells(n / 10);
      Joins(TraceText.Digits(n / 10), [TraceText.Digit(n % 10)]);
    }
  }

  lemma Regroup(a: string, b: string, c: string)
    ensures a + "," + b + "," + c == a + "," + (b + "," + c)
  {}

  lemma {:induction false} SeparatedFront(p: string, rest: seq<string>)
    ensures Separated([p] + rest) == if rest == [] then p else p + "," + Separated(rest)
  {
    var parts := [p] + rest;
    if |rest| > 1 {
      var n := |rest| - 1;
      SeparatedFront(p, rest[..n]);
      assert parts[..|parts| - 1] == [p] + rest[..n];
      Regroup(p, Separated(rest[..n]), rest[n]);
    } else if |rest| == 1 {
      assert parts[..1] == [p];
    }
  }

  /** One more part in front, in text and in bytes. */
  lemma OneInFront(first: seq<Byte>, p: string, more: seq<Byte>, tail: string, close: Byte)
    requires Plain(p) && Plain(tail) && first == Codes(p) && more == Codes(tail) + [close]
    ensures Plain(p + "," + tail) && first + ([44] + more) == Codes(p + "," + tail) + [close]
  {
    Joins(p + ",", tail);
    Joins(p, ",");
    assert Codes(",") == [44];
  }

  lemma ItemsTailStep(items: seq<Json>)
    requires items != []
    ensures ItemsTail(items) == [44] + (Write(items[0]) + ItemsTail(items[1..]))
  {
    hide Write;
  }

  lemma MembersTailStep(members: seq<Member>)
    requires members != []
    ensures MembersTail(members) == [44] + (WriteMember(members[0]) + MembersTail(members[1..]))
  {
    hide WriteMember;
  }

  lemma NoItems()
    ensures ItemsTail([]) == [93] && MembersTail([]) == [125]
  {}

  lemma ItemsStep(items: seq<Json>)
    requires items != [] && forall i | 0 <= i < |items| :: WellFormed(items[i])
    ensures Items(items) == [Spelling(items[0])] + Items(items[1..])
  {
    hide Spelling;
  }

  lemma {:induction false} ItemsSpell(items: seq<Json>)
    requires items != [] && forall i | 0 <= i < |items| :: WellFormed(items[i])
    ensures Plain(Separated(Items(items)))
    ensures Write(items[0]) + ItemsTail(items[1..]) == Codes(Separated(Items(items))) + [93]
    decreases items, 0
  {
    hide Write, Spelling, ItemsTail, Items, Separated;
    SeparatedPlain(Items(items));
    var rest := items[1..];
    ValueSpells(items[0]);
    ItemsStep(items);
    SeparatedFront(Spelling(items[0]), Items(rest));
    if rest == [] {
      NoItems();
      NothingListed();
    } else {
      ItemsSpell(rest);
      ItemsTailStep(rest);
      OneInFront(Write(items[0]), Spelling(items[0]), Write(rest[0]) + ItemsTail(rest[1..]), Separated(Items(rest)),
                 93);
    }
  }

  lemma NothingListed()
    ensures Items([]) == [] && Entries([]) == []
  {}

  lemma EntriesStep(members: seq<Member>)
    requires members != []
    requires forall i | 0 <= i < |members| :: Ascii(members[i].key) && WellFormed(members[i].value)
    ensures Entries(members) == [Entry(members[0])] + Entries(members[1..])
  {
    hide Entry;
  }

  lemma {:induction false} EntriesSpell(members: seq<Member>)
    requires members != []
    requires forall i | 0 <= i < |members| :: Ascii(members[i].key) && WellFormed(members[i].value)
    ensures Plain(Separated(Entries(members)))
    ensures WriteMember(members[0]) + MembersTail(members[1..]) == Codes(Separated(Entries(members))) + [125]
    decreases members, 0
  {
    hide WriteMember, Entry, MembersTail, Entries, Separated;
    SeparatedPlain(Entries(members));
    var rest := members[1..];
    MemberSpells(members[0]);
    EntriesStep(members);
    SeparatedFront(Entry(members[0]), Entries(rest));
    if rest == [] {
      NoItems();
      NothingListed();
    } else {
      EntriesSpell(rest);
      MembersTailStep(rest);
      OneInFront(WriteMember(members[0]), Entry(members[0]), WriteMember(rest[0]) + MembersTail(rest[1..]),
                 Separated(Entries(rest)), 125);
    }
  }

  lemma {:induction false} MemberSpells(m: Member)
    requires Ascii(m.key) && WellFormed(m.value)
    ensures WriteMember(m) == Codes(Entry(m))
    decreases m, 0
  {
    hide Write, Spelling, Quoted, WriteString;
    QuotedSpells(m.key);
    ValueSpells(m.value);
    Joins(Quoted(m.key) + ":", Spelling(m.value));
    Joins(Quoted(m.key), ":");
    assert Codes(":") == [58];
  }

  /** The writer's bytes are the text of the value. */
  lemma {:induction false} ValueSpells(v: Json)
    requires WellFormed(v)
    ensures Write(v) == Codes(Spelling(v))
    decreases v, 1
  {
    match v
    case Bool(b) =>
    case Integer(n) => DecimalSpells(n);
    case String(s) => QuotedSpells(s);
    case Array(items) => ArraySpells(items);
    case Object(members) => ObjectSpells(members);
  }

  lemma Between(open: string, t: string, close: string)
    requires Plain(open) && Plain(t) && Plain(close)
    ensures Plain(open + t + close) && Codes(open + t + close) == Codes(open) + (Codes(t) + Codes(close))
  {
    Joins(open + t, close);
    Joins(open, t);
  }

  lemma {:induction false} ArraySpells(items: seq<Json>)
    requires forall i | 0 <= i < |items| :: WellFormed(items[i])
    ensures Plain("[" + Separated(Items(items)) + "]")
    ensures Write(Array(items)) == Codes("[" + Separated(Items(items)) + "]")
    decreases items, 1
  {
    hide Items, Separated, ItemsTail;
    SeparatedPlain(Items(items));
    Between("[", Separated(Items(items)), "]");
    assert Codes("[") == [91] && Codes("]") == [93];
    if items == [] {
      NothingSeparated();
    } else {
      ItemsSpell(items);
    }
  }

  lemma NothingSeparated()
    ensures Separated(Items([])) == "" && Separated(Entries([])) == ""
  {}

  lemma {:induction false} ObjectSpells(members: seq<Member>)
    requires forall i | 0 <= i < |members| :: Ascii(members[i].key) && WellFormed(members[i].value)
    ensures Plain("{" + Separated(Entries(members)) + "}")
    ensures Write(Object(members)) == Codes("{" + Separated(Entries(members)) + "}")
    decreases members, 1
  {
    hide Entries, Separated, MembersTail, WriteMember;
    SeparatedPlain(Entries(members));
    Between("{", Separated(Entries(members)), "}");
    assert Codes("{") == [123] && Codes("}") == [125];
    if members == [] {
      NothingSeparated();
    } else {
      EntriesSpell(members);
    }
  }
}
