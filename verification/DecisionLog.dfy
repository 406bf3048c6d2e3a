/** The byte stream fed to the decision digest: two record layouts behind length-prefixed tags.
    A total decoder inverts the encoder, so a stream names exactly one sequence of decisions. */
module DecisionLog {
  import opened Common

  /** A decoded prefix and what follows it. */
  datatype Parsed<T> = Reject | Read(value: T, rest: seq<Byte>)

  datatype EventKind =
    | UsefulHit | Hit | MissBypass | MissAdmit
    | SignalIgnored | SignalEmpty | SignalAdmissionOnly

  datatype PrefetchKind = Redundant | DropPages | DropBytes | DropAdmission | Admit

  datatype Record =
    | Event(sequence: nat, kind: EventKind, page: Option<nat>, victims: seq<nat>)
    | Prefetch(sequence: nat, move: PrefetchKind, offered: seq<nat>, redundant: seq<nat>, moved: seq<nat>,
               victims: seq<nat>)

  // ---------------------------------------------------------------- encoding

  function Power(width: nat): (p: nat)
    ensures p > 0
  {
    if width == 0 then 1 else 256 * Power(width - 1)
  }

  /** Little-endian words. */
  function Word(n: nat, width: nat): (b: seq<Byte>)
    ensures |b| == width
  {
    if width == 0 then [] else [n % 256] + Word(n / 256, width - 1)
  }

  /** Little-endian: byte `i` counts how many times 256 to the power `i` is in the number. */
  lemma {:induction false} WordIsLittleEndian(n: nat, width: nat, i: nat)
    requires i < width
    ensures Word(n, width)[i] == n / Power(i) % 256
  {
    if i > 0 {
      WordIsLittleEndian(n / 256, width - 1, i - 1);
      DivideTwice(n, Power(i - 1));
    }
  }

  lemma DivideTwice(n: nat, p: nat)
    requires p > 0
    ensures n / 256 / p == n / (256 * p)
  {
    var q, r := n / (256 * p), n % (256 * p);
    assert n == 256 * p * q + r;
    assert n / 256 == p * q + r / 256;
    Quotient(q, p, r / 256);
  }

  lemma Quotient(q: nat, p: nat, r: nat)
    requires r < p
    ensures (p * q + r) / p == q
  {
    var x := (p * q + r) / p;
    if x < q { Steps(x + 1, q, p); }
    if q < x { Steps(q + 1, x, p); }
  }

  lemma Steps(a: nat, b: nat, p: nat)
    requires a <= b
    ensures p * a <= p * b
  {}

  function Code(c: char): Byte
    requires c as int < 256
  {
    c as int
  }

  function Label(tag: string): (b: seq<Byte>)
    requires forall i | 0 <= i < |tag| :: tag[i] as int < 256
    ensures |b| == |tag| && forall i | 0 <= i < |tag| :: b[i] == tag[i] as int
  {
    seq<Byte>(|tag|, i requires 0 <= i < |tag| && tag[i] as int < 256 => Code(tag[i]))
  }

  function EventTag(kind: EventKind): (tag: string)
    ensures forall i | 0 <= i < |tag| :: tag[i] as int < 256
    ensures 10 <= |tag| <= 26
  {
    match kind
    case UsefulHit => "demand-useful-prefetch-hit"
    case Hit => "demand-hit"
    case MissBypass => "demand-miss-bypass"
    case MissAdmit => "demand-miss-admit"
    case SignalIgnored => "signal-ignored"
    case SignalEmpty => "signal-empty"
    case SignalAdmissionOnly => "signal-admission-only"
  }

  function PrefetchTag(move: PrefetchKind): (tag: string)
    ensures forall i | 0 <= i < |tag| :: tag[i] as int < 256
    ensures 14 <= |tag| <= 24
  {
    match move
    case Redundant => "prefetch-redundant"
    case DropPages => "prefetch-drop-page-limit"
    case DropBytes => "prefetch-drop-byte-limit"
    case DropAdmission => "prefetch-drop-admission"
    case Admit => "prefetch-admit"
  }

  function Words(pages: seq<nat>): seq<Byte> {
    if pages == [] then [] else Word(pages[0], 4) + Words(pages[1..])
  }

  function PageList(pages: seq<nat>): seq<Byte> { Word(|pages|, 8) + Words(pages) }

  function PageOption(page: Option<nat>): seq<Byte> {
    match page case Some(id) => [1] + Word(id, 4) case None => [0]
  }

  function Tagged(sequence: nat, tag: seq<Byte>): seq<Byte> { Word(sequence, 8) + (Word(|tag|, 8) + tag) }

  function Encode(r: Record): seq<Byte> {
    match r
    case Event(sequence, kind, page, victims) =>
      Tagged(sequence, Label(EventTag(kind))) + (PageOption(page) + PageList(victims))
    case Prefetch(sequence, move, offered, redundant, moved, victims) =>
      Tagged(sequence, Label(PrefetchTag(move)))
      + (PageList(offered) + (PageList(redundant) + (PageList(moved) + PageList(victims))))
  }

  function EncodeAll(log: seq<Record>): seq<Byte> {
    if log == [] then [] else Encode(log[0]) + EncodeAll(log[1..])
  }

  /** Page identifiers are 32-bit, sequence numbers and list lengths 64-bit. */
  predicate Ids(pages: seq<nat>) { |pages| < Power(8) && forall p | p in pages :: p < Power(4) }

  predicate Representable(r: Record) {
    && r.sequence < Power(8) && Ids(r.victims)
    && match r
       case Event(_, _, page, _) => page.Some? ==> page.value < Power(4)
       case Prefetch(_, _, offered, redundant, moved, _) => Ids(offered) && Ids(redundant) && Ids(moved)
  }

  /** What a record takes over from its trace fits the trace's own widths. */
  predicate Sized(r: Record) {
    && r.sequence <= MAX_U64
    && match r
       case Event(_, _, page, _) => page.Some? ==> page.value <= MAX_U32
       case Prefetch(_, _, offered, _, _, _) => forall p | p in offered :: p <= MAX_U32
  }

  // ---------------------------------------------------------------- decoding

  /** Reads a word of the given width; accepts exactly the encodings of numbers that fit. */
  function ReadWord(b: seq<Byte>, width: nat): (r: Parsed<nat>)
    ensures r.Read? <==> |b| >= width
    ensures r.Read? ==> r.value < Power(width) && b == Word(r.value, width) + r.rest
  {
    if |b| < width then Reject
    else if width == 0 then Read(0, b)
    else
      var tail := ReadWord(b[1..], width - 1);
      assert (b[0] + 256 * tail.value) % 256 == b[0] && (b[0] + 256 * tail.value) / 256 == tail.value;
      assert b == [b[0]] + b[1..];
      Read(b[0] + 256 * tail.value, tail.rest)
  }

  lemma Regroup(a: seq<Byte>, b: seq<Byte>, c: seq<Byte>)
    ensures a + b + c == a + (b + c)
  {}

  function ReadWords(b: seq<Byte>, count: nat): (r: Parsed<seq<nat>>)
    ensures r.Read? ==> |r.value| == count && (forall p | p in r.value :: p < Power(4)) && b == Words(r.value) + r.rest
    decreases count
  {
    if count == 0 then Read([], b)
    else
      match ReadWord(b, 4)
      case Reject => Reject
      case Read(first, more) =>
        match ReadWords(more, count - 1)
        case Reject => Reject
        case Read(others, rest) =>
          assert ([first] + others)[1..] == others;
          Regroup(Word(first, 4), Words(others), rest);
          Read([first] + others, rest)
  }

  function ReadList(b: seq<Byte>): (r: Parsed<seq<nat>>)
    ensures r.Read? ==> Ids(r.value) && b == PageList(r.value) + r.rest
  {
    match ReadWord(b, 8)
    case Reject => Reject
    case Read(count, more) =>
      match ReadWords(more, count)
      case Reject => Reject
      case Read(pages, rest) =>
        Regroup(Word(count, 8), Words(pages), rest);
        Read(pages, rest)
  }

  function ReadOption(b: seq<Byte>): (r: Parsed<Option<nat>>)
    ensures r.Read? ==> (r.value.Some? ==> r.value.value < Power(4)) && b == PageOption(r.value) + r.rest
  {
    if b == [] then Reject
    else if b[0] == 0 then
      assert b == [0] + b[1..];
      Read(None, b[1..])
    else if b[0] == 1 then
      match ReadWord(b[1..], 4)
      case Reject => Reject
      case Read(id, rest) =>
        assert b == [1] + b[1..] == [1] + Word(id, 4) + rest;
        Read(Some(id), rest)
    else Reject
  }

  datatype Kind = OfEvent(kind: EventKind) | OfPrefetch(move: PrefetchKind)

  function KindLabel(k: Kind): seq<Byte> {
    match k case OfEvent(kind) => Label(EventTag(kind)) case OfPrefetch(move) => Label(PrefetchTag(move))
  }

  /** The only kind a tag of this length, first byte and fifteenth byte could be. */
  function Guess(tag: seq<Byte>): Option<Kind> {
    match |tag|
    case 10 => Some(OfEvent(Hit))
    case 12 => Some(OfEvent(SignalEmpty))
    case 14 => Some(if tag[0] == 's' as int then OfEvent(SignalIgnored) else OfPrefetch(Admit))
    case 17 => Some(OfEvent(MissAdmit))
    case 18 => Some(if tag[0] == 'd' as int then OfEvent(MissBypass) else OfPrefetch(Redundant))
    case 21 => Some(OfEvent(SignalAdmissionOnly))
    case 23 => Some(OfPrefetch(DropAdmission))
    case 24 => Some(OfPrefetch(if tag[14] == 'p' as int then DropPages else DropBytes))
    case 26 => Some(OfEvent(UsefulHit))
    case _ => None
  }

  function FindKind(tag: seq<Byte>): (r: Option<Kind>)
    ensures r.Some? ==> KindLabel(r.value) == tag
  {
    var guess := Guess(tag);
    if guess.Some? && KindLabel(guess.value) == tag then guess else None
  }

  lemma TaggedFrom(b: seq<Byte>, b1: seq<Byte>, b2: seq<Byte>, sequence: nat, length: nat)
    requires b == Word(sequence, 8) + b1 && b1 == Word(length, 8) + b2 && length <= |b2|
    ensures b == Tagged(sequence, b2[..length]) + b2[length..]
  {
    hide Word;
    assert b2 == b2[..length] + b2[length..];
  }

  function ReadTagged(b: seq<Byte>): (r: Parsed<(nat, Kind)>)
    ensures r.Read? ==> r.value.0 < Power(8) && b == Tagged(r.value.0, KindLabel(r.value.1)) + r.rest
  {
    match ReadWord(b, 8)
    case Reject => Reject
    case Read(sequence, b1) =>
      match ReadWord(b1, 8)
      case Reject => Reject
      case Read(length, b2) =>
        if length > |b2| then Reject
        else
          match FindKind(b2[..length])
          case None => Reject
          case Some(k) =>
            TaggedFrom(b, b1, b2, sequence, length);
            Read((sequence, k), b2[length..])
  }

  function ReadEventBody(sequence: nat, kind: EventKind, b: seq<Byte>): (r: Parsed<Record>)
    requires sequence < Power(8)
    ensures r.Read? ==>
      Representable(r.value) && Tagged(sequence, Label(EventTag(kind))) + b == Encode(r.value) + r.rest
  {
    match ReadOption(b)
    case Reject => Reject
    case Read(page, b1) =>
      match ReadList(b1)
      case Reject => Reject
      case Read(victims, rest) =>
        Regroup(PageOption(page), PageList(victims), rest);
        Regroup(Tagged(sequence, Label(EventTag(kind))), PageOption(page) + PageList(victims), rest);
        Read(Event(sequence, kind, page, victims), rest)
  }

  function ReadPrefetchBody(sequence: nat, move: PrefetchKind, b: seq<Byte>): (r: Parsed<Record>)
    requires sequence < Power(8)
    ensures r.Read? ==>
      Representable(r.value) && Tagged(sequence, Label(PrefetchTag(move))) + b == Encode(r.value) + r.rest
  {
    match ReadList(b)
    case Reject => Reject
    case Read(offered, b1) =>
      match ReadList(b1)
      case Reject => Reject
      case Read(redundant, b2) =>
        match ReadList(b2)
        case Reject => Reject
        case Read(moved, b3) =>
          match ReadList(b3)
          case Reject => Reject
          case Read(victims, rest) =>
            FourLists(Tagged(sequence, Label(PrefetchTag(move))), PageList(offered), PageList(redundant),
                      PageList(moved), PageList(victims), rest);
            Read(Prefetch(sequence, move, offered, redundant, moved, victims), rest)
  }

  lemma FourLists(t: seq<Byte>, a: seq<Byte>, b: seq<Byte>, c: seq<Byte>, d: seq<Byte>, rest: seq<Byte>)
    ensures t + (a + (b + (c + (d + rest)))) == t + (a + (b + (c + d))) + rest
  {}

  function ReadRecord(b: seq<Byte>): (r: Parsed<Record>)
    ensures r.Read? ==> Representable(r.value) && b == Encode(r.value) + r.rest
  {
    match ReadTagged(b)
    case Reject => Reject
    case Read(head, rest) =>
      match head.1
      case OfEvent(kind) => ReadEventBody(head.0, kind, rest)
      case OfPrefetch(move) => ReadPrefetchBody(head.0, move, rest)
  }

  /** The decisions of a stream; None unless the stream is exactly a run of whole records. */
  function Decode(b: seq<Byte>): (r: Option<seq<Record>>)
    ensures r.Some? ==> EncodeAll(r.value) == b && forall x | x in r.value :: Representable(x)
    decreases |b|
  {
    if b == [] then Some([])
    else
      match ReadRecord(b)
      case Reject => None
      case Read(first, rest) =>
        EncodeLonger(first);
        match Decode(rest)
        case None => None
        case Some(others) =>
          assert ([first] + others)[1..] == others;
          Some([first] + others)
  }

  lemma EncodeLonger(r: Record)
    ensures |Encode(r)| >= 16
  {}

  // ---------------------------------------------------------------- the decoder inverts the encoder

  lemma {:induction false} WordBack(n: nat, width: nat, rest: seq<Byte>)
    requires n < Power(width)
    ensures ReadWord(Word(n, width) + rest, width) == Read(n, rest)
  {
    var b := Word(n, width) + rest;
    if width == 0 {
      assert b == rest;
    } else {
      WordBack(n / 256, width - 1, rest);
      assert b[1..] == Word(n / 256, width - 1) + rest;
    }
  }

  lemma {:induction false} WordsUnfold(pages: seq<nat>, rest: seq<Byte>)
    requires pages != []
    ensures Words(pages) + rest == Word(pages[0], 4) + (Words(pages[1..]) + rest)
  {
    hide Word;
    Associate(Word(pages[0], 4), Words(pages[1..]), rest);
  }

  lemma Associate(a: seq<Byte>, b: seq<Byte>, c: seq<Byte>)
    ensures (a + b) + c == a + (b + c)
  {}

  lemma {:induction false} WordsBack(pages: seq<nat>, rest: seq<Byte>)
    requires forall p | p in pages :: p < Power(4)
    ensures ReadWords(Words(pages) + rest, |pages|) == Read(pages, rest)
  {
    if pages == [] {
      assert Words(pages) + rest == rest;
    } else {
      hide Word, ReadWord, Power;
      var more := Words(pages[1..]) + rest;
      assert pages[0] in pages && pages == [pages[0]] + pages[1..];
      assert forall p | p in pages[1..] :: p in pages;
      WordsUnfold(pages, rest);
      WordBack(pages[0], 4, more);
      WordsBack(pages[1..], rest);
    }
  }

  lemma ListBack(pages: seq<nat>, rest: seq<Byte>)
    requires Ids(pages)
    ensures ReadList(PageList(pages) + rest) == Read(pages, rest)
  {
    assert PageList(pages) + rest == Word(|pages|, 8) + (Words(pages) + rest);
    WordBack(|pages|, 8, Words(pages) + rest);
    WordsBack(pages, rest);
  }

  lemma OptionBack(page: Option<nat>, rest: seq<Byte>)
    requires page.Some? ==> page.value < Power(4)
    ensures ReadOption(PageOption(page) + rest) == Read(page, rest)
  {
    match page
    case None => assert ([0] + rest)[1..] == rest;
    case Some(id) =>
      assert (PageOption(page) + rest)[1..] == Word(id, 4) + rest;
      WordBack(id, 4, rest);
  }

  /** Every tag is found, and found as its own kind: no two kinds share one. */
  lemma KindBack(k: Kind)
    ensures FindKind(KindLabel(k)) == Some(k)
  {
    match k
    case OfEvent(kind) => match kind { case UsefulHit => case Hit => case MissBypass => case MissAdmit =>
      case SignalIgnored => case SignalEmpty => case SignalAdmissionOnly => }
    case OfPrefetch(move) =>
      match move { case Redundant => case DropPages => case DropBytes => case DropAdmission => case Admit => }
  }

  lemma TaggedBack(sequence: nat, k: Kind, rest: seq<Byte>)
    requires sequence < Power(8)
    ensures ReadTagged(Tagged(sequence, KindLabel(k)) + rest) == Read((sequence, k), rest)
  {
    var tag := KindLabel(k);
    assert Tagged(sequence, tag) + rest == Word(sequence, 8) + (Word(|tag|, 8) + (tag + rest));
    WordBack(sequence, 8, Word(|tag|, 8) + (tag + rest));
    assert |tag| <= 26 < Power(8);
    WordBack(|tag|, 8, tag + rest);
    assert (tag + rest)[..|tag|] == tag && (tag + rest)[|tag|..] == rest;
    KindBack(k);
  }

  lemma EventBack(r: Record, rest: seq<Byte>)
    requires r.Event? && Representable(r)
    ensures ReadRecord(Encode(r) + rest) == Read(r, rest)
  {
    var lists := PageList(r.victims) + rest;
    assert Encode(r) + rest == Tagged(r.sequence, Label(EventTag(r.kind))) + (PageOption(r.page) + lists);
    TaggedBack(r.sequence, OfEvent(r.kind), PageOption(r.page) + lists);
    OptionBack(r.page, lists);
    ListBack(r.victims, rest);
  }

  lemma PrefetchBack(r: Record, rest: seq<Byte>)
    requires r.Prefetch? && Representable(r)
    ensures ReadRecord(Encode(r) + rest) == Read(r, rest)
  {
    var t := Tagged(r.sequence, Label(PrefetchTag(r.move)));
    var d := PageList(r.victims) + rest;
    var c := PageList(r.moved) + d;
    var b := PageList(r.redundant) + c;
    var a := PageList(r.offered) + b;
    FourLists(t, PageList(r.offered), PageList(r.redundant), PageList(r.moved), PageList(r.victims), rest);
    TaggedBack(r.sequence, OfPrefetch(r.move), a);
    ListBack(r.offered, b);
    ListBack(r.redundant, c);
    ListBack(r.moved, d);
    ListBack(r.victims, rest);
  }

  /** Decoding gives back every decision, with its sequence number, pages and victims. */
  lemma {:induction false} DecodeEncode(log: seq<Record>)
    requires forall r | r in log :: Representable(r)
    ensures Decode(EncodeAll(log)) == Some(log)
  {
    if log != [] {
      var first, rest := log[0], EncodeAll(log[1..]);
      assert first in log && log == [first] + log[1..];
      EncodeLonger(first);
      if first.Event? { EventBack(first, rest); } else { PrefetchBack(first, rest); }
      DecodeEncode(log[1..]);
    }
  }

  /** The stream determines the decisions, across both record layouts. */
  lemma StreamDetermines(a: seq<Record>, b: seq<Record>)
    requires (forall r | r in a :: Representable(r)) && forall r | r in b :: Representable(r)
    ensures EncodeAll(a) == EncodeAll(b) <==> a == b
  {
    DecodeEncode(a);
    DecodeEncode(b);
  }
}
