/** The canonical JSONL form of a trace (`crates/runnel-sim/src/trace.rs`): one compact record per
    line. The text can be split back into its lines and each line names one record, so different
    traces have different texts; the serializer writes exactly the valid traces within its two ceilings. */
module TraceText {
  import opened Common
  import opened CacheModel
  import opened TraceParser

  const MAX_TRACE_BYTES: nat := 5_242_880
  const MAX_LINE_BYTES: nat := 16_384
  const TRACE_SCHEMA := "runnel.cache-trace/1"
  const PREFETCH_MODEL := "instant-between-events-v1"

  // ---------------------------------------------------------------- numbers

  function Digit(n: nat): char
    requires n < 10
  {
    '0' + n as char
  }

  predicate IsDigit(c: char) { '0' <= c <= '9' }

  function Digits(n: nat): (d: string)
    ensures d != "" && forall c | c in d :: IsDigit(c)
  {
    if n < 10 then [Digit(n)] else Digits(n / 10) + [Digit(n % 10)]
  }

  function Ten(k: nat): nat { if k == 0 then 1 else 10 * Ten(k - 1) }

  lemma {:induction false} DigitsShort(n: nat, k: nat)
    requires k > 0 && n < Ten(k)
    ensures |Digits(n)| <= k
  {
    if n >= 10 { DigitsShort(n / 10, k - 1); }
  }

  lemma {:induction false} DigitsDiffer(a: nat, b: nat)
    requires Digits(a) == Digits(b)
    ensures a == b
  {
    var d, e := Digits(a), Digits(b);
    assert d[|d| - 1] == Digit(a % 10) && e[|e| - 1] == Digit(b % 10);
    if a >= 10 && b >= 10 {
      assert d[..|d| - 1] == Digits(a / 10) && e[..|e| - 1] == Digits(b / 10);
      DigitsDiffer(a / 10, b / 10);
    }
  }

  predicate EndsNumber(rest: string) { rest != "" && !IsDigit(rest[0]) }

  lemma NotShorter(d: string, e: string, x: string, y: string)
    requires EndsNumber(x) && (forall c | c in e :: IsDigit(c)) && d + x == e + y
    ensures |d| >= |e|
  {
    assert (d + x)[|d|] == x[0];
    assert forall i | 0 <= i < |e| :: (e + y)[i] == e[i] && e[i] in e;
  }

  /** A number is read up to the first character that is no digit. */
  lemma NumberRead(a: nat, b: nat, x: string, y: string)
    requires EndsNumber(x) && EndsNumber(y) && Digits(a) + x == Digits(b) + y
    ensures a == b && x == y
  {
    var d, e := Digits(a), Digits(b);
    var s, t := d + x, e + y;
    NotShorter(d, e, x, y);
    NotShorter(e, d, y, x);
    assert s[..|d|] == d && t[..|e|] == e && s[|d|..] == x && t[|e|..] == y;
    DigitsDiffer(a, b);
  }

  lemma Skip(text: string, x: string, y: string)
    requires text + x == text + y
    ensures x == y
  {
    assert (text + x)[|text|..] == x && (text + y)[|text|..] == y;
  }

  // ---------------------------------------------------------------- records

  function PredictionText(p: Prediction, rest: string): string {
    "{\"expert\":" + (Digits(p.expert) + (",\"score_ppm\":" + (Digits(p.score) + ("}" + rest))))
  }

  /** The predictions from the second on, each after a comma, and the end of the record. */
  function PredictionsTail(list: seq<Prediction>): (t: string)
    ensures t != ""
  {
    if list == [] then "]}" else "," + PredictionText(list[0], PredictionsTail(list[1..]))
  }

  function PredictionsText(list: seq<Prediction>): string {
    if list == [] then "]}" else PredictionText(list[0], PredictionsTail(list[1..]))
  }

  function DemandText(sequence: nat, request: nat, step: nat, page: nat): string {
    "{\"kind\":\"demand\",\"sequence\":"
    + (Digits(sequence) + (",\"request\":"
    + (Digits(request) + (",\"step\":"
    + (Digits(step) + (",\"page\":"
    + (Digits(page) + "}")))))))
  }

  function SignalText(sequence: nat, request: nat, target: nat, layer: nat, predictions: seq<Prediction>): string {
    "{\"kind\":\"router_signal\",\"sequence\":"
    + (Digits(sequence) + (",\"request\":"
    + (Digits(request) + (",\"target_step\":"
    + (Digits(target) + (",\"layer\":"
    + (Digits(layer) + (",\"predictions\":[" + PredictionsText(predictions)))))))))
  }

  function EventText(r: EventRecord): string {
    match r.event
    case Demand(request, step, page) => DemandText(r.sequence, request, step, page)
    case Signal(request, target, layer, predictions) => SignalText(r.sequence, request, target, layer, predictions)
  }

  function ClassText(role: PageClass): string {
    match role
    case Shared => "{\"kind\":\"shared\"}}"
    case Expert(layer, expert, ordinal) =>
      "{\"kind\":\"expert\",\"layer\":"
      + (Digits(layer) + (",\"expert\":"
      + (Digits(expert) + (",\"ordinal\":"
      + (Digits(ordinal) + "}}")))))
  }

  function PageText(r: PageRecord): string {
    "{\"id\":"
    + (Digits(r.id) + (",\"logical_bytes\":"
    + (Digits(r.page.logical) + (",\"charge_bytes\":"
    + (Digits(r.page.charge) + (",\"class\":" + ClassText(r.page.role)))))))
  }

  // ---------------------------------------------------------------- one record per text

  lemma PredictionRead(p: Prediction, q: Prediction, x: string, y: string)
    requires PredictionText(p, x) == PredictionText(q, y)
    ensures p == q && x == y
  {
    hide Digits;
    var px, qy := Digits(p.score) + ("}" + x), Digits(q.score) + ("}" + y);
    Skip("{\"expert\":", Digits(p.expert) + (",\"score_ppm\":" + px), Digits(q.expert) + (",\"score_ppm\":" + qy));
    NumberRead(p.expert, q.expert, ",\"score_ppm\":" + px, ",\"score_ppm\":" + qy);
    Skip(",\"score_ppm\":", px, qy);
    NumberRead(p.score, q.score, "}" + x, "}" + y);
    Skip("}", x, y);
  }

  lemma {:induction false} PredictionsRead(a: seq<Prediction>, b: seq<Prediction>)
    requires PredictionsTail(a) == PredictionsTail(b)
    ensures a == b
  {
    hide PredictionText;
    assert a == [] ==> PredictionsTail(a)[0] == ']';
    assert b == [] ==> PredictionsTail(b)[0] == ']';
    assert a != [] ==> PredictionsTail(a)[0] == ',';
    assert b != [] ==> PredictionsTail(b)[0] == ',';
    if a != [] {
      Skip(",", PredictionText(a[0], PredictionsTail(a[1..])), PredictionText(b[0], PredictionsTail(b[1..])));
      PredictionRead(a[0], b[0], PredictionsTail(a[1..]), PredictionsTail(b[1..]));
      PredictionsRead(a[1..], b[1..]);
      assert a == [a[0]] + a[1..] && b == [b[0]] + b[1..];
    }
  }

  lemma PredictionsReadAll(a: seq<Prediction>, b: seq<Prediction>)
    requires PredictionsText(a) == PredictionsText(b)
    ensures a == b
  {
    hide PredictionText;
    FirstCharacter(a);
    FirstCharacter(b);
    if a != [] {
      PredictionRead(a[0], b[0], PredictionsTail(a[1..]), PredictionsTail(b[1..]));
      PredictionsRead(a[1..], b[1..]);
      assert a == [a[0]] + a[1..] && b == [b[0]] + b[1..];
    }
  }

  lemma FirstCharacter(list: seq<Prediction>)
    ensures |PredictionsText(list)| > 0 && (PredictionsText(list)[0] == if list == [] then ']' else '{')
  {}

  lemma DemandRead(s: nat, r: nat, t: nat, p: nat, s': nat, r': nat, t': nat, p': nat)
    requires DemandText(s, r, t, p) == DemandText(s', r', t', p')
    ensures s == s' && r == r' && t == t' && p == p'
  {
    hide Digits;
    var x1, y1 := Digits(p) + "}", Digits(p') + "}";
    var x2, y2 := Digits(t) + (",\"page\":" + x1), Digits(t') + (",\"page\":" + y1);
    var x3, y3 := Digits(r) + (",\"step\":" + x2), Digits(r') + (",\"step\":" + y2);
    var x4, y4 := Digits(s) + (",\"request\":" + x3), Digits(s') + (",\"request\":" + y3);
    Skip("{\"kind\":\"demand\",\"sequence\":", x4, y4);
    FieldRead(s, s', ",\"request\":", x3, y3);
    FieldRead(r, r', ",\"step\":", x2, y2);
    FieldRead(t, t', ",\"page\":", x1, y1);
    NumberRead(p, p', "}", "}");
  }

  lemma FieldRead(a: nat, b: nat, text: string, x: string, y: string)
    requires EndsNumber(text) && Digits(a) + (text + x) == Digits(b) + (text + y)
    ensures a == b && x == y
  {
    hide Digits;
    NumberRead(a, b, text + x, text + y);
    Skip(text, x, y);
  }

  lemma SignalRead(s: nat, r: nat, t: nat, l: nat, p: seq<Prediction>, s': nat, r': nat, t': nat, l': nat,
                   p': seq<Prediction>)
    requires SignalText(s, r, t, l, p) == SignalText(s', r', t', l', p')
    ensures s == s' && r == r' && t == t' && l == l' && p == p'
  {
    hide Digits, PredictionsText;
    var x1, y1 := PredictionsText(p), PredictionsText(p');
    var x2, y2 := Digits(l) + (",\"predictions\":[" + x1), Digits(l') + (",\"predictions\":[" + y1);
    var x3, y3 := Digits(t) + (",\"layer\":" + x2), Digits(t') + (",\"layer\":" + y2);
    var x4, y4 := Digits(r) + (",\"target_step\":" + x3), Digits(r') + (",\"target_step\":" + y3);
    var x5, y5 := Digits(s) + (",\"request\":" + x4), Digits(s') + (",\"request\":" + y4);
    Skip("{\"kind\":\"router_signal\",\"sequence\":", x5, y5);
    FieldRead(s, s', ",\"request\":", x4, y4);
    FieldRead(r, r', ",\"target_step\":", x3, y3);
    FieldRead(t, t', ",\"layer\":", x2, y2);
    FieldRead(l, l', ",\"predictions\":[", x1, y1);
    PredictionsReadAll(p, p');
  }

  lemma KindShows(r: EventRecord)
    ensures |EventText(r)| > 9 && EventText(r)[9] == if r.event.Demand? then 'd' else 'r'
  {}

  /** A line names one event. */
  lemma EventRead(a: EventRecord, b: EventRecord)
    requires EventText(a) == EventText(b)
    ensures a == b
  {
    hide DemandText, SignalText;
    KindShows(a);
    KindShows(b);
    match a.event
    case Demand(r, t, p) =>
      DemandRead(a.sequence, r, t, p, b.sequence, b.event.request, b.event.step, b.event.page);
    case Signal(r, t, l, p) =>
      SignalRead(a.sequence, r, t, l, p, b.sequence, b.event.request, b.event.targetStep, b.event.layer,
                 b.event.predictions);
  }

  lemma ClassShows(role: PageClass)
    ensures |ClassText(role)| > 9 && ClassText(role)[9] == if role.Shared? then 's' else 'e'
  {}

  lemma ClassRead(a: PageClass, b: PageClass)
    requires ClassText(a) == ClassText(b)
    ensures a == b
  {
    ClassShows(a);
    ClassShows(b);
    if a.Expert? {
      hide Digits;
      var x1, y1 := Digits(a.ordinal) + "}}", Digits(b.ordinal) + "}}";
      var x2, y2 := Digits(a.expert) + (",\"ordinal\":" + x1), Digits(b.expert) + (",\"ordinal\":" + y1);
      var x3, y3 := Digits(a.layer) + (",\"expert\":" + x2), Digits(b.layer) + (",\"expert\":" + y2);
      Skip("{\"kind\":\"expert\",\"layer\":", x3, y3);
      FieldRead(a.layer, b.layer, ",\"expert\":", x2, y2);
      FieldRead(a.expert, b.expert, ",\"ordinal\":", x1, y1);
      NumberRead(a.ordinal, b.ordinal, "}}", "}}");
    }
  }

  /** A line names one page. */
  lemma PageRead(a: PageRecord, b: PageRecord)
    requires PageText(a) == PageText(b)
    ensures a == b
  {
    hide Digits, ClassText;
    var x1, y1 := ClassText(a.page.role), ClassText(b.page.role);
    var x2, y2 := Digits(a.page.charge) + (",\"class\":" + x1), Digits(b.page.charge) + (",\"class\":" + y1);
    var x3 := Digits(a.page.logical) + (",\"charge_bytes\":" + x2);
    var y3 := Digits(b.page.logical) + (",\"charge_bytes\":" + y2);
    var x4, y4 := Digits(a.id) + (",\"logical_bytes\":" + x3), Digits(b.id) + (",\"logical_bytes\":" + y3);
    Skip("{\"id\":", x4, y4);
    FieldRead(a.id, b.id, ",\"logical_bytes\":", x3, y3);
    FieldRead(a.page.logical, b.page.logical, ",\"charge_bytes\":", x2, y2);
    FieldRead(a.page.charge, b.page.charge, ",\"class\":", x1, y1);
    ClassRead(a.page.role, b.page.role);
  }

  // ---------------------------------------------------------------- the header

  datatype Header = Header(id: string, pageCount: nat, eventCount: nat, quantum: nat)

  predicate IdStart(c: char) { 'a' <= c <= 'z' || IsDigit(c) }

  predicate IdRest(c: char) { IdStart(c) || c == '.' || c == '_' || c == '-' }

  /** 1 to 64 characters of a small alphabet. */
  predicate TraceIdOk(id: string) {
    1 <= |id| <= 64 && IdStart(id[0]) && forall i | 0 <= i < |id| :: IdRest(id[i])
  }

  function HeaderText(h: Header): string {
    HeaderStart()
    + (h.id + ("\",\"page_count\":"
    + (Digits(h.pageCount) + (",\"event_count\":"
    + (Digits(h.eventCount) + (",\"charge_quantum\":"
    + (Digits(h.quantum) + HeaderEnd())))))))
  }

  function HeaderStart(): string {
    "{\"kind\":\"header\",\"schema\":\"" + (TRACE_SCHEMA + "\",\"trace_id\":\"")
  }

  function HeaderEnd(): string { ",\"prefetch_model\":\"" + (PREFETCH_MODEL + "\"}") }

  /** What stands before a mark that cannot occur in it is read up to the mark. */
  lemma UpTo(a: string, b: string, mark: char, x: string, y: string)
    requires mark !in a && mark !in b && a + ([mark] + x) == b + ([mark] + y)
    ensures a == b && x == y
  {
    var s, t := a + ([mark] + x), b + ([mark] + y);
    assert s[|a|] == mark && t[|b|] == mark;
    assert forall i | 0 <= i < |a| :: s[i] == a[i] && a[i] in a;
    assert forall i | 0 <= i < |b| :: t[i] == b[i] && b[i] in b;
    assert s[..|a|] == a && t[..|b|] == b && s[|a| + 1..] == x && t[|b| + 1..] == y;
  }

  lemma HeaderRead(a: Header, b: Header)
    requires TraceIdOk(a.id) && TraceIdOk(b.id) && HeaderText(a) == HeaderText(b)
    ensures a == b
  {
    hide Digits;
    var end := HeaderEnd();
    var x1, y1 := Digits(a.quantum) + end, Digits(b.quantum) + end;
    var x2 := Digits(a.eventCount) + (",\"charge_quantum\":" + x1);
    var y2 := Digits(b.eventCount) + (",\"charge_quantum\":" + y1);
    var x3, y3 := Digits(a.pageCount) + (",\"event_count\":" + x2), Digits(b.pageCount) + (",\"event_count\":" + y2);
    var x4, y4 := ",\"page_count\":" + x3, ",\"page_count\":" + y3;
    assert "\",\"page_count\":" + x3 == ['\"'] + x4 && "\",\"page_count\":" + y3 == ['\"'] + y4;
    Skip(HeaderStart(), a.id + (['\"'] + x4), b.id + (['\"'] + y4));
    UpTo(a.id, b.id, '\"', x4, y4);
    Skip(",\"page_count\":", x3, y3);
    FieldRead(a.pageCount, b.pageCount, ",\"event_count\":", x2, y2);
    FieldRead(a.eventCount, b.eventCount, ",\"charge_quantum\":", x1, y1);
    NumberRead(a.quantum, b.quantum, end, end);
  }

  // ---------------------------------------------------------------- lines

  /** Printable ASCII: neither a line end nor a control character. */
  predicate Plain(s: string) { forall i | 0 <= i < |s| :: ' ' <= s[i] <= '~' }

  lemma PlainDigits(n: nat)
    ensures Plain(Digits(n))
  {
    hide Digits;
    var d := Digits(n);
    assert forall i | 0 <= i < |d| :: d[i] in d;
  }

  lemma PlainField(text: string, n: nat, rest: string)
    requires Plain(text) && Plain(rest)
    ensures Plain(text + (Digits(n) + rest))
  {
    hide Digits;
    PlainDigits(n);
  }

  lemma PlainJoin(text: string, rest: string)
    requires Plain(text) && Plain(rest)
    ensures Plain(text + rest)
  {}

  lemma PlainMarks()
    ensures Plain("}") && Plain("}}") && Plain(",") && Plain("]}") && Plain("{\"expert\":") && Plain(",\"score_ppm\":")
  {}

  lemma PlainDemandLabels()
    ensures Plain("{\"kind\":\"demand\",\"sequence\":") && Plain(",\"request\":") && Plain(",\"step\":")
    ensures Plain(",\"page\":")
  {}

  lemma PlainSignalLabels()
    ensures Plain("{\"kind\":\"router_signal\",\"sequence\":") && Plain(",\"target_step\":") && Plain(",\"layer\":")
    ensures Plain(",\"predictions\":[")
  {}

  lemma PlainPageLabels()
    ensures Plain("{\"id\":") && Plain(",\"logical_bytes\":") && Plain(",\"charge_bytes\":") && Plain(",\"class\":")
    ensures Plain("{\"kind\":\"shared\"}}") && Plain("{\"kind\":\"expert\",\"layer\":") && Plain(",\"expert\":")
    ensures Plain(",\"ordinal\":")
  {}

  lemma PlainHeaderLabels()
    ensures Plain("{\"kind\":\"header\",\"schema\":\"") && Plain(TRACE_SCHEMA) && Plain("\",\"trace_id\":\"")
  {}

  lemma PlainHeaderFields()
    ensures Plain("\",\"page_count\":") && Plain(",\"event_count\":") && Plain(",\"charge_quantum\":")
    ensures Plain(",\"prefetch_model\":\"") && Plain(PREFETCH_MODEL) && Plain("\"}")
  {}

  lemma PlainPrediction(p: Prediction, rest: string)
    requires Plain(rest)
    ensures Plain(PredictionText(p, rest))
  {
    hide Digits, Plain;
    PlainMarks();
    PlainJoin("}", rest);
    PlainField(",\"score_ppm\":", p.score, "}" + rest);
    PlainField("{\"expert\":", p.expert, ",\"score_ppm\":" + (Digits(p.score) + ("}" + rest)));
  }

  lemma {:induction false} PlainPredictions(list: seq<Prediction>)
    ensures Plain(PredictionsTail(list)) && Plain(PredictionsText(list))
  {
    hide PredictionText, Plain;
    PlainMarks();
    if list != [] {
      PlainPredictions(list[1..]);
      PlainPrediction(list[0], PredictionsTail(list[1..]));
      PlainJoin(",", PredictionText(list[0], PredictionsTail(list[1..])));
    }
  }

  lemma PlainDemand(sequence: nat, request: nat, step: nat, page: nat)
    ensures Plain(DemandText(sequence, request, step, page))
  {
    hide Digits, Plain;
    PlainMarks();
    PlainDemandLabels();
    var x1 := ",\"page\":" + (Digits(page) + "}");
    var x2 := ",\"step\":" + (Digits(step) + x1);
    var x3 := ",\"request\":" + (Digits(request) + x2);
    PlainField(",\"page\":", page, "}");
    PlainField(",\"step\":", step, x1);
    PlainField(",\"request\":", request, x2);
    PlainField("{\"kind\":\"demand\",\"sequence\":", sequence, x3);
  }

  lemma PlainSignal(sequence: nat, request: nat, target: nat, layer: nat, predictions: seq<Prediction>)
    ensures Plain(SignalText(sequence, request, target, layer, predictions))
  {
    hide Digits, Plain, PredictionsText;
    PlainDemandLabels();
    PlainSignalLabels();
    PlainPredictions(predictions);
    var x1 := ",\"predictions\":[" + PredictionsText(predictions);
    var x2 := ",\"layer\":" + (Digits(layer) + x1);
    var x3 := ",\"target_step\":" + (Digits(target) + x2);
    var x4 := ",\"request\":" + (Digits(request) + x3);
    PlainJoin(",\"predictions\":[", PredictionsText(predictions));
    PlainField(",\"layer\":", layer, x1);
    PlainField(",\"target_step\":", target, x2);
    PlainField(",\"request\":", request, x3);
    PlainField("{\"kind\":\"router_signal\",\"sequence\":", sequence, x4);
  }

  lemma PlainEvent(r: EventRecord)
    ensures Plain(EventText(r))
  {
    hide DemandText, SignalText, Plain;
    match r.event
    case Demand(request, step, page) => PlainDemand(r.sequence, request, step, page);
    case Signal(request, target, layer, predictions) => PlainSignal(r.sequence, request, target, layer, predictions);
  }

  lemma PlainPage(r: PageRecord)
    ensures Plain(PageText(r))
  {
    hide Digits, Plain, ClassText;
    PlainPageLabels();
    PlainClass(r.page.role);
    var x1 := ",\"class\":" + ClassText(r.page.role);
    var x2 := ",\"charge_bytes\":" + (Digits(r.page.charge) + x1);
    var x3 := ",\"logical_bytes\":" + (Digits(r.page.logical) + x2);
    PlainJoin(",\"class\":", ClassText(r.page.role));
    PlainField(",\"charge_bytes\":", r.page.charge, x1);
    PlainField(",\"logical_bytes\":", r.page.logical, x2);
    PlainField("{\"id\":", r.id, x3);
  }

  lemma PlainClass(role: PageClass)
    ensures Plain(ClassText(role))
  {
    hide Digits, Plain;
    PlainMarks();
    PlainPageLabels();
    if role.Expert? {
      var x1 := ",\"ordinal\":" + (Digits(role.ordinal) + "}}");
      var x2 := ",\"expert\":" + (Digits(role.expert) + x1);
      PlainField(",\"ordinal\":", role.ordinal, "}}");
      PlainField(",\"expert\":", role.expert, x1);
      PlainField("{\"kind\":\"expert\",\"layer\":", role.layer, x2);
    }
  }

  lemma PlainId(id: string)
    requires TraceIdOk(id)
    ensures Plain(id)
  {}

  lemma PlainHeader(h: Header)
    requires TraceIdOk(h.id)
    ensures Plain(HeaderText(h))
  {
    hide Digits, Plain;
    PlainHeaderLabels();
    PlainHeaderFields();
    PlainId(h.id);
    var x1 := HeaderEnd();
    PlainJoin(PREFETCH_MODEL, "\"}");
    PlainJoin(",\"prefetch_model\":\"", PREFETCH_MODEL + "\"}");
    PlainJoin(TRACE_SCHEMA, "\",\"trace_id\":\"");
    PlainJoin("{\"kind\":\"header\",\"schema\":\"", TRACE_SCHEMA + "\",\"trace_id\":\"");
    var x2 := ",\"charge_quantum\":" + (Digits(h.quantum) + x1);
    var x3 := ",\"event_count\":" + (Digits(h.eventCount) + x2);
    var x4 := "\",\"page_count\":" + (Digits(h.pageCount) + x3);
    PlainField(",\"charge_quantum\":", h.quantum, x1);
    PlainField(",\"event_count\":", h.eventCount, x2);
    PlainField("\",\"page_count\":", h.pageCount, x3);
    PlainJoin(h.id, x4);
    PlainJoin(HeaderStart(), h.id + x4);
  }

  // ---------------------------------------------------------------- the whole text

  /** Every line with its line end. */
  function TextOf(lines: seq<string>): string {
    if lines == [] then "" else lines[0] + ("\n" + TextOf(lines[1..]))
  }

  /** A text of plain lines has one list of lines. */
  lemma {:induction false} LinesRead(a: seq<string>, b: seq<string>)
    requires (forall i | 0 <= i < |a| :: Plain(a[i])) && forall i | 0 <= i < |b| :: Plain(b[i])
    requires TextOf(a) == TextOf(b)
    ensures a == b
  {
    if a != [] && b != [] {
      assert Plain(a[0]) && Plain(b[0]);
      UpTo(a[0], b[0], '\n', TextOf(a[1..]), TextOf(b[1..]));
      LinesRead(a[1..], b[1..]);
      assert a == [a[0]] + a[1..] && b == [b[0]] + b[1..];
    }
  }

  function PageTexts(pages: seq<PageRecord>): (t: seq<string>)
    ensures |t| == |pages| && forall i | 0 <= i < |pages| :: t[i] == PageText(pages[i])
  {
    seq(|pages|, i requires 0 <= i < |pages| => PageText(pages[i]))
  }

  function EventTexts(events: seq<EventRecord>): (t: seq<string>)
    ensures |t| == |events| && forall i | 0 <= i < |events| :: t[i] == EventText(events[i])
  {
    seq(|events|, i requires 0 <= i < |events| => EventText(events[i]))
  }

  function TraceLines(h: Header, pages: seq<PageRecord>, events: seq<EventRecord>): seq<string> {
    [HeaderText(h)] + PageTexts(pages) + EventTexts(events)
  }

  /** A header that declares what follows it. */
  predicate Declares(h: Header, pages: seq<PageRecord>, events: seq<EventRecord>) {
    TraceIdOk(h.id) && h.pageCount == |pages| && h.eventCount == |events|
  }

  /** The canonical text is unique: traces with the same text are the same. */
  lemma TextDetermines(h: Header, pages: seq<PageRecord>, events: seq<EventRecord>, h': Header, pages': seq<PageRecord>,
                       events': seq<EventRecord>)
    requires Declares(h, pages, events) && Declares(h', pages', events')
    requires TextOf(TraceLines(h, pages, events)) == TextOf(TraceLines(h', pages', events'))
    ensures h == h' && pages == pages' && events == events'
  {
    hide TextOf, HeaderText, PageText, EventText, Plain, TraceIdOk;
    var a, b := TraceLines(h, pages, events), TraceLines(h', pages', events');
    PlainLines(h, pages, events);
    PlainLines(h', pages', events');
    LinesRead(a, b);
    assert a[0] == HeaderText(h) && b[0] == HeaderText(h');
    HeaderRead(h, h');
    forall i | 0 <= i < |pages| ensures pages[i] == pages'[i] {
      assert a[1 + i] == PageText(pages[i]) && b[1 + i] == PageText(pages'[i]);
      PageRead(pages[i], pages'[i]);
    }
    forall i | 0 <= i < |events| ensures events[i] == events'[i] {
      assert a[1 + |pages| + i] == EventText(events[i]) && b[1 + |pages| + i] == EventText(events'[i]);
      EventRead(events[i], events'[i]);
    }
  }

  lemma PlainLines(h: Header, pages: seq<PageRecord>, events: seq<EventRecord>)
    requires TraceIdOk(h.id)
    ensures
      var lines := TraceLines(h, pages, events);
      forall i | 0 <= i < |lines| :: Plain(lines[i])
  {
    hide HeaderText, PageText, EventText, Plain, TraceIdOk;
    var lines := TraceLines(h, pages, events);
    PlainHeader(h);
    forall i | 0 <= i < |pages| ensures Plain(PageTexts(pages)[i]) { PlainPage(pages[i]); }
    forall i | 0 <= i < |events| ensures Plain(EventTexts(events)[i]) { PlainEvent(events[i]); }
  }

  // ---------------------------------------------------------------- the serializer

  lemma {:induction false} TextAppend(lines: seq<string>, line: string)
    ensures TextOf(lines + [line]) == TextOf(lines) + line + "\n"
  {
    if lines == [] {
      assert lines + [line] == [line] && [line][1..] == [];
    } else {
      TextAppend(lines[1..], line);
      assert (lines + [line])[1..] == lines[1..] + [line];
    }
  }

  lemma {:induction false} TextGrows(lines: seq<string>, n: nat)
    requires n <= |lines|
    ensures |TextOf(lines[..n])| <= |TextOf(lines)|
    decreases |lines| - n
  {
    if n == |lines| {
      assert lines[..n] == lines;
    } else {
      TextAppend(lines[..n], lines[n]);
      assert lines[..n] + [lines[n]] == lines[..n + 1];
      TextGrows(lines, n + 1);
    }
  }

  /** Both ceilings of the format. */
  predicate WithinCeilings(lines: seq<string>) {
    (forall i | 0 <= i < |lines| :: |lines[i]| <= MAX_LINE_BYTES) && |TextOf(lines)| <= MAX_TRACE_BYTES
  }

  /** Appends the records one by one and refuses a line or a text that is too long. */
  method AppendRecords(lines: seq<string>) returns (r: Option<string>)
    ensures r == if WithinCeilings(lines) then Some(TextOf(lines)) else None
  {
    hide TextOf;
    var output := "";
    assert TextOf(lines[..0]) == "" by { NoLines(); }
    for i := 0 to |lines|
      invariant output == TextOf(lines[..i]) && |output| <= MAX_TRACE_BYTES
      invariant forall k | 0 <= k < i :: |lines[k]| <= MAX_LINE_BYTES
    {
      if |lines[i]| > MAX_LINE_BYTES { return None; }
      TextAppend(lines[..i], lines[i]);
      assert lines[..i] + [lines[i]] == lines[..i + 1];
      TextGrows(lines, i + 1);
      if |output| + |lines[i]| + 1 > MAX_TRACE_BYTES { return None; }
      output := output + lines[i] + "\n";
    }
    assert lines[..|lines|] == lines;
    r := Some(output);
  }

  function Pages(records: seq<PageRecord>): seq<Page> {
    seq(|records|, i requires 0 <= i < |records| => records[i].page)
  }

  /** A header that declares what follows, a valid catalogue and valid events. */
  ghost predicate Acceptable(h: Header, pages: seq<PageRecord>, events: seq<EventRecord>) {
    Declares(h, pages, events) && CatalogueOk(h.quantum, pages) && EventsOk(Pages(pages), events)
  }

  /** The serializer writes exactly the traces that the parser accepts and that fit its ceilings. */
  method SerializeTrace(h: Header, pages: seq<PageRecord>, events: seq<EventRecord>) returns (r: Option<string>)
    ensures r.Some? <==> Acceptable(h, pages, events) && WithinCeilings(TraceLines(h, pages, events))
    ensures r.Some? ==> r.value == TextOf(TraceLines(h, pages, events))
  {
    hide CatalogueOk, EventsOk, TraceLines, TextOf, TraceIdOk, WithinCeilings, Pages;
    if !Declares(h, pages, events) { return None; }
    var text := AppendRecords(TraceLines(h, pages, events));
    if text.None? { return None; }
    // The written text determines its records, so reading it back can only refuse invalid ones.
    var catalogue := CheckCatalogue(h.quantum, pages);
    if !catalogue { return None; }
    var valid := CheckEvents(Pages(pages), events);
    r := if valid then text else None;
  }

  lemma NoLines()
    ensures TextOf([]) == ""
  {}

  // ---------------------------------------------------------------- sizes

  lemma Tens()
    ensures Ten(1) == 10 && Ten(3) == 1_000 && Ten(4) == 10_000 && Ten(5) == 100_000 && Ten(7) == 10_000_000
  {
    assert Ten(2) == 100 && Ten(6) == 1_000_000;
  }

  lemma {:induction false} TextSize(lines: seq<string>, bound: nat)
    requires forall i | 0 <= i < |lines| :: |lines[i]| < bound
    ensures |TextOf(lines)| <= bound * |lines|
  {
    if lines != [] {
      TextSize(lines[1..], bound);
      assert bound * |lines| == bound * |lines[1..]| + bound;
    }
  }

  lemma {:induction false} TextConcat(a: seq<string>, b: seq<string>)
    ensures |TextOf(a + b)| == |TextOf(a)| + |TextOf(b)|
  {
    if a == [] {
      assert a + b == b;
    } else {
      assert (a + b)[1..] == a[1..] + b;
      TextConcat(a[1..], b);
    }
  }

  lemma DemandShort(sequence: nat, step: nat, page: nat)
    requires sequence < 100_000 && step < 10_000 && page < 1_000
    ensures |DemandText(sequence, 0, step, page)| < 80
  {
    hide Digits, Ten;
    Tens();
    DigitsShort(sequence, 5);
    DigitsShort(0, 1);
    DigitsShort(step, 4);
    DigitsShort(page, 3);
  }

  lemma PredictionShort(p: Prediction, rest: string)
    requires p.expert < 1_000 && p.score < 10_000_000
    ensures |PredictionText(p, rest)| <= |rest| + 40
  {
    hide Digits, Ten;
    Tens();
    DigitsShort(p.expert, 3);
    DigitsShort(p.score, 7);
  }

  lemma PredictionsShort(list: seq<Prediction>)
    requires |list| <= 2 && forall i | 0 <= i < |list| :: list[i].expert < 1_000 && list[i].score < 10_000_000
    ensures |PredictionsText(list)| <= 83
  {
    hide PredictionText;
    if |list| == 1 {
      PredictionShort(list[0], PredictionsTail(list[1..]));
    } else if |list| == 2 {
      assert list[1..][1..] == [] && list[1..][0] == list[1];
      PredictionShort(list[1], PredictionsTail([]));
      PredictionShort(list[0], PredictionsTail(list[1..]));
    }
  }

  lemma SignalShort(sequence: nat, target: nat, predictions: seq<Prediction>)
    requires sequence < 100_000 && target < 10_000 && |predictions| <= 2
    requires forall i | 0 <= i < |predictions| :: predictions[i].expert < 1_000 && predictions[i].score < 10_000_000
    ensures |SignalText(sequence, 0, target, 0, predictions)| < 200
  {
    hide Digits, Ten, PredictionsText;
    Tens();
    DigitsShort(sequence, 5);
    DigitsShort(0, 1);
    DigitsShort(target, 4);
    PredictionsShort(predictions);
  }

  lemma PageShort(r: PageRecord)
    requires r.id < 1_000 && r.page.logical < 100_000 && r.page.charge < 100_000 && r.page.role.Expert?
    requires r.page.role.layer == 0 && r.page.role.expert < 1_000 && r.page.role.ordinal < 10
    ensures |PageText(r)| < 200
  {
    hide Digits, Ten;
    Tens();
    DigitsShort(r.id, 3);
    DigitsShort(r.page.logical, 5);
    DigitsShort(r.page.charge, 5);
    DigitsShort(0, 1);
    DigitsShort(r.page.role.expert, 3);
    DigitsShort(r.page.role.ordinal, 1);
  }

  lemma HeaderShort(h: Header)
    requires |h.id| <= 64 && h.pageCount < 100_000 && h.eventCount < 100_000 && h.quantum < 100_000
    ensures |HeaderText(h)| < 300
  {
    hide Digits, Ten;
    Tens();
    DigitsShort(h.pageCount, 5);
    DigitsShort(h.eventCount, 5);
    DigitsShort(h.quantum, 5);
  }
}
