/** Reading a cast file back (cmd/cternal/play.go, loadCast), and the round trip with Cast. */
module LoadCast {
  import opened Events
  import opened Clamp
  import opened Json
  import opened Decimal
  import opened Cast
  import opened Scanner
  import opened Wrappers

  /** bufio.MaxScanTokenSize */
  const MAX_TOKEN: nat := 65536

  // ---- Trimming --------------------------------------------------------------------

  /** unicode.IsSpace */
  predicate IsSpace(c: char) {
    || c == ' ' || '\t' <= c <= '\r' || c == '\U{0085}' || c == '\U{00A0}' || c == '\U{1680}'
    || '\U{2000}' <= c <= '\U{200A}' || c == '\U{2028}' || c == '\U{2029}' || c == '\U{202F}'
    || c == '\U{205F}' || c == '\U{3000}'
  }

  function TrimLeft(s: string): string {
    if s != "" && IsSpace(s[0]) then TrimLeft(s[1..]) else s
  }

  function TrimRight(s: string): string {
    if s != "" && IsSpace(s[|s| - 1]) then TrimRight(s[..|s| - 1]) else s
  }

  function TrimSpace(s: string): string {
    TrimRight(TrimLeft(s))
  }

  // ---- Rows ------------------------------------------------------------------------

  /** JSON whitespace. */
  function SkipBlanks(t: string): (u: string)
    ensures |u| <= |t|
  {
    if t != "" && t[0] in " \t\r\n" then SkipBlanks(t[1..]) else t
  }

  /** Only a row of exactly three numbers, strings or nulls can become an event: json.Unmarshal
      refuses every other element for a float64 or a string, and takes null for both. */
  datatype Scalar = Num(n: Number) | Str(s: string) | Null

  function ReadScalar(t: string): Parsed<Scalar> {
    if t == "" then Bad
    else if t[0] == '"' then
      match ReadString(t) { case Bad => Bad case Parsed(s, rest) => Parsed(Str(s), rest) }
    else if |t| >= 4 && t[..4] == "null" then Parsed(Null, t[4..])
    else match ReadNumber(t) { case Bad => Bad case Parsed(n, rest) => Parsed(Num(n), rest) }
  }

  /** One array item after its opening bracket or comma. */
  function ReadItem(before: char, t: string): Parsed<Scalar> {
    var u := SkipBlanks(t);
    if u == "" || u[0] != before then Bad else ReadScalar(SkipBlanks(u[1..]))
  }

  /** Whether only a closing bracket is left. */
  predicate Closes(t: string) {
    var u := SkipBlanks(t);
    u != "" && u[0] == ']' && SkipBlanks(u[1..]) == ""
  }

  function TimeOf(x: Scalar): Option<int> {
    match x case Num(n) => Some(Nanos(n)) case Null => Some(0) case Str(_) => None
  }

  function TextOf(x: Scalar): Option<string> {
    match x case Str(s) => Some(s) case Null => Some("") case Num(_) => None
  }

  function EventOf(a: Scalar, b: Scalar, c: Scalar): Option<Event> {
    match (TimeOf(a), TextOf(b), TextOf(c))
    case (Some(time), Some(typ), Some(data)) => Some(Event(time, typ, data))
    case _ => None
  }

  function ReadRow(line: string): Option<Event> {
    match ReadItem('[', line)
    case Bad => None
    case Parsed(a, t) =>
      match ReadItem(',', t)
      case Bad => None
      case Parsed(b, u) =>
        match ReadItem(',', u)
        case Bad => None
        case Parsed(c, v) => if Closes(v) then EventOf(a, b, c) else None
  }

  // ---- The loader ------------------------------------------------------------------

  /** The events of the scanned lines; `first` says the header is still to come. */
  function LoadLines(lines: seq<string>, first: bool): seq<Event> {
    if lines == [] then []
    else
      var line := TrimSpace(lines[0]);
      if line == "" then LoadLines(lines[1..], first)
      else if first then LoadLines(lines[1..], false)
      else
        match ReadRow(line)
        case None => LoadLines(lines[1..], false)
        case Some(e) => [e] + LoadLines(lines[1..], false)
  }

  datatype Loaded = Loaded(events: seq<Event>, tooLong: bool)

  function Load(text: string): Loaded {
    Loaded(LoadLines(Scan(text, MAX_TOKEN).lines, true), Scan(text, MAX_TOKEN).tooLong)
  }

  /** The second result is scanner.Err(). */
  method LoadCast(text: string) returns (events: seq<Event>, tooLong: bool)
    ensures Loaded(events, tooLong) == Load(text)
  {
    hide ReadRow, TrimSpace, Utf8Length, LineEnd;
    var rest := text;
    var first := true;
    events := [];
    tooLong := false;
    while rest != ""
      invariant Load(text) ==
                Loaded(events + LoadLines(Scan(rest, MAX_TOKEN).lines, first), Scan(rest, MAX_TOKEN).tooLong)
      decreases |rest|
    {
      var raw := rest[..LineEnd(rest)];
      if Utf8Length(raw) >= MAX_TOKEN {
        tooLong := true;
        return;
      }
      var line := TrimSpace(DropCR(raw));
      ghost var later := Scan(AfterLine(rest), MAX_TOKEN).lines;
      assert Scan(rest, MAX_TOKEN).lines[1..] == later;
      rest := AfterLine(rest);
      if line == "" {
        continue;
      }
      if first {
        first := false;
        continue;
      }
      var row := ReadRow(line);
      if row.None? {
        continue;
      }
      events := events + [row.value];
    }
  }

  // ---- Round trip ------------------------------------------------------------------

  lemma TrimKeeps(s: string)
    requires s != "" && !IsSpace(s[0]) && !IsSpace(s[|s| - 1])
    ensures TrimSpace(s) == s
  {
  }

  lemma ItemRoundTrip(before: char, text: string, x: Scalar, t: string)
    requires before == '[' || before == ','
    requires text + t != "" && (text + t)[0] !in " \t\r\n" && ReadScalar(text + t) == Parsed(x, t)
    ensures ReadItem(before, [before] + text + t) == Parsed(x, t)
  {
    hide ReadScalar;
    var w := [before] + text + t;
    assert w[1..] == text + t;
  }

  lemma NumberItem(ns: int, t: string) returns (n: Number)
    requires t != "" && t[0] == ','
    ensures ReadItem('[', "[" + Seconds(ns) + t) == Parsed(Num(n), t) && Nanos(n) == ns
  {
    hide Seconds, ReadNumber, ReadScalar, ReadItem;
    SecondsRoundTrip(ns, t);
    NumberStart(ns);
    n := ReadNumber(Seconds(ns) + t).value;
    ScalarNumber(Seconds(ns), t);
    ItemRoundTrip('[', Seconds(ns), Num(n), t);
  }

  lemma ScalarNumber(text: string, t: string)
    requires text != "" && (IsDigit(text[0]) || text[0] == '-') && ReadNumber(text + t).Parsed?
    ensures var p := ReadNumber(text + t); ReadScalar(text + t) == Parsed(Num(p.value), p.rest)
    ensures (text + t)[0] !in " \t\r\n"
  {
    hide ReadNumber;
    var w := text + t;
    assert w[0] == text[0];
    assert |w| >= 4 ==> w[..4][0] == w[0];
  }

  lemma NumberStart(ns: int)
    ensures Seconds(ns) != "" && (IsDigit(Seconds(ns)[0]) || Seconds(ns)[0] == '-')
  {
    hide Digits;
    var a: nat := if ns < 0 then -ns else ns;
    MagnitudeDigit(a);
  }

  lemma MagnitudeDigit(a: nat)
    ensures Magnitude(a) != "" && IsDigit(Magnitude(a)[0])
  {
    DigitsValue(a);
    DigitsValue(a / 1_000_000_000);
    TrimValue(Digits(a));
  }

  lemma StringItem(s: string, t: string)
    ensures ReadItem(',', "," + Quote(s) + t) == Parsed(Str(s), t)
  {
    StringRoundTrip(s, t);
    assert (Quote(s) + t)[0] == '"';
    ItemRoundTrip(',', Quote(s), Str(s), t);
  }

  /** Every event, whatever its type and data, survives printing as a row and reading back. */
  lemma RowRoundTrip(e: Event)
    ensures ReadRow(RowLine(e)) == Some(e)
  {
    hide Quote, Seconds, ReadItem;
    var v := "]";
    var u := "," + Quote(e.data) + v;
    var t := "," + Quote(e.typ) + u;
    var n := NumberItem(e.time, t);
    StringItem(e.typ, u);
    StringItem(e.data, v);
    assert RowLine(e) == "[" + Seconds(e.time) + t;
    assert v[1..] == "";
  }

  /** A row with a fourth field is no event. */
  lemma ExtraFieldSkips(e: Event, extra: string)
    ensures ReadRow("[" + Seconds(e.time) + "," + Quote(e.typ) + "," + Quote(e.data) + "," + extra + "]") == None
  {
    hide Quote, Seconds, ReadItem;
    var v := "," + extra + "]";
    var u := "," + Quote(e.data) + v;
    var t := "," + Quote(e.typ) + u;
    var n := NumberItem(e.time, t);
    StringItem(e.typ, u);
    StringItem(e.data, v);
    assert "[" + Seconds(e.time) + "," + Quote(e.typ) + "," + Quote(e.data) + "," + extra + "]" ==
           "[" + Seconds(e.time) + t;
  }

  /** Nor is a row with anything but blanks after its closing bracket. */
  lemma TrailingTextSkips(e: Event, extra: string)
    requires SkipBlanks(extra) != ""
    ensures ReadRow(RowLine(e) + extra) == None
  {
    hide Quote, Seconds, ReadItem, SkipBlanks;
    var v := "]" + extra;
    var u := "," + Quote(e.data) + v;
    var t := "," + Quote(e.typ) + u;
    var n := NumberItem(e.time, t);
    StringItem(e.typ, u);
    StringItem(e.data, v);
    assert RowLine(e) + extra == "[" + Seconds(e.time) + t by {
      assert "," + Quote(e.data) + "]" + extra == u;
    }
    BracketFirst(extra);
    assert v[1..] == extra;
  }

  lemma BracketFirst(extra: string)
    ensures SkipBlanks("]" + extra) == "]" + extra
  {
  }

  /** Nor is a row without data. */
  lemma MissingFieldSkips(time: int, typ: string)
    ensures ReadRow("[" + Seconds(time) + "," + Quote(typ) + "]") == None
  {
    var u := "]";
    NoItem(u);
    hide Quote, Seconds, ReadItem;
    var t := "," + Quote(typ) + u;
    var n := NumberItem(time, t);
    StringItem(typ, u);
    assert "[" + Seconds(time) + "," + Quote(typ) + "]" == "[" + Seconds(time) + t;
  }

  lemma NoItem(t: string)
    requires t == "]"
    ensures ReadItem(',', t) == Bad
  {
  }

  lemma RowShape(e: Event)
    ensures Printable(RowLine(e)) && TrimSpace(RowLine(e)) == RowLine(e) != ""
  {
    SecondsHasNoControls(e.time);
    QuoteIsPrintable(e.typ);
    QuoteIsPrintable(e.data);
    hide Quote, Seconds;
    TrimKeeps(RowLine(e));
  }

  lemma QuoteIsPrintable(s: string)
    ensures Printable(Quote(s))
  {
    EscapeHasNoControls(s);
  }

  lemma IntIsPrintable(n: int)
    ensures Printable(IntText(n))
  {
    DigitsValue(if n < 0 then -n else n);
  }

  ghost predicate AllPrintable(ts: seq<string>) {
    forall i :: 0 <= i < |ts| ==> Printable(ts[i])
  }

  lemma {:induction false} ConcatIsPrintable(ts: seq<string>)
    requires AllPrintable(ts)
    ensures Printable(Concat(ts))
  {
    if ts != [] {
      ConcatIsPrintable(ts[..|ts| - 1]);
    }
  }

  lemma AppendPrintable(a: seq<string>, b: seq<string>)
    requires AllPrintable(a) && AllPrintable(b)
    ensures AllPrintable(a + b)
  {
  }

  lemma FieldPrintable(present: bool, name: string, value: string)
    requires Printable(name) && Printable(value)
    ensures AllPrintable(Field(present, name, value))
  {
  }

  lemma EnvFieldPrintable(env: Option<Env>)
    ensures AllPrintable(EnvField(env))
  {
    hide Quote, Field, AllPrintable;
    match env
    case None => AllPrintableNone();
    case Some(Env(shell, term)) =>
      QuoteIsPrintable(shell);
      QuoteIsPrintable(term);
      var name := (if shell == "" then "" else ",") + "\"TERM\":";
      FieldPrintable(true, ",\"env\":{", "");
      FieldPrintable(shell != "", "\"SHELL\":", Quote(shell));
      FieldPrintable(term != "", name, Quote(term));
      FieldPrintable(true, "}", "");
      var start, one := Field(true, ",\"env\":{", ""), Field(shell != "", "\"SHELL\":", Quote(shell));
      var two := Field(term != "", name, Quote(term));
      AppendPrintable(start, one);
      AppendPrintable(start + one, two);
      AppendPrintable(start + one + two, Field(true, "}", ""));
  }

  lemma AllPrintableNone()
    ensures AllPrintable([])
  {
  }

  lemma HeaderFieldsPrintable(h: Header)
    ensures AllPrintable(HeaderFields(h))
  {
    IntIsPrintable(h.width);
    IntIsPrintable(h.height);
    IntIsPrintable(h.timestamp);
    QuoteIsPrintable(h.title);
    SecondsHasNoControls(Truncated(h.idleTimeLimit));
    EnvFieldPrintable(h.env);
    hide Quote, Seconds, IntText, EnvField;
    var size := Field(true, "\"version\":2,\"width\":", IntText(h.width))
                + Field(true, ",\"height\":", IntText(h.height));
    var time := Field(h.timestamp != 0, ",\"timestamp\":", IntText(h.timestamp));
    var title := Field(h.title != "", ",\"title\":", Quote(h.title));
    var idle := Field(h.idleTimeLimit != 0.0, ",\"idle_time_limit\":", Seconds(Truncated(h.idleTimeLimit)));
    AppendPrintable(size, time);
    AppendPrintable(size + time, title);
    AppendPrintable(size + time + title, idle);
    AppendPrintable(size + time + title + idle, EnvField(h.env));
  }

  lemma HeaderShape(h: Header)
    ensures Printable(HeaderLine(h)) && TrimSpace(HeaderLine(h)) == HeaderLine(h) != ""
  {
    HeaderFieldsPrintable(h);
    ConcatIsPrintable(HeaderFields(h));
    hide HeaderFields, Concat, Printable, TrimSpace;
    BracedShape(Concat(HeaderFields(h)));
  }

  lemma BracedShape(body: string)
    requires Printable(body)
    ensures var line := "{" + body + "}"; Printable(line) && TrimSpace(line) == line != ""
  {
    TrimKeeps("{" + body + "}");
  }

  lemma {:induction false} LoadRows(rows: seq<Event>)
    ensures LoadLines(RowLines(rows), false) == rows
  {
    hide ReadRow, RowLine, TrimSpace;
    if rows != [] {
      RowShape(rows[0]);
      RowRoundTrip(rows[0]);
      assert RowLines(rows)[1..] == RowLines(rows[1..]);
      LoadRows(rows[1..]);
    }
  }

  /** Loading what Marshal wrote returns exactly the rows, in order, with the same data and the
      clamped times, up to the first line the scanner finds too long; with an error if and only
      if there is one. */
  lemma CastRoundTrip(h: Header, rows: seq<Event>)
    ensures var k := ShortPrefix(CastLines(h, rows), MAX_TOKEN);
            Load(CastText(h, rows)) == Loaded(if k == 0 then [] else rows[..k - 1], k <= |rows|)
  {
    hide HeaderLine, RowLine, Scan, LoadLines, ShortPrefix, RowLines;
    var ls := CastLines(h, rows);
    LinesArePrintable(h, rows);
    ScanLines(ls, MAX_TOKEN);
    var k := ShortPrefix(ls, MAX_TOKEN);
    if k == 0 {
      assert LoadLines([], true) == [] by { NothingToLoad(); }
    } else {
      RowLinesPrefix(rows, k - 1);
      assert ls[..k] == [HeaderLine(h)] + RowLines(rows[..k - 1]);
      LoadAfterHeader(h, rows[..k - 1]);
    }
  }

  lemma NothingToLoad()
    ensures LoadLines([], true) == []
  {
  }

  lemma RowLinesPrefix(rows: seq<Event>, k: nat)
    requires k <= |rows|
    ensures RowLines(rows)[..k] == RowLines(rows[..k])
  {
    hide RowLine;
  }

  lemma LinesArePrintable(h: Header, rows: seq<Event>)
    ensures forall l :: l in CastLines(h, rows) ==> Printable(l)
  {
    hide HeaderLine, RowLine;
    var ls := CastLines(h, rows);
    HeaderShape(h);
    forall l | l in ls ensures Printable(l) {
      var i :| 0 <= i < |ls| && ls[i] == l;
      if i > 0 { RowShape(rows[i - 1]); }
    }
  }

  lemma LoadAfterHeader(h: Header, rows: seq<Event>)
    ensures LoadLines([HeaderLine(h)] + RowLines(rows), true) == rows
  {
    hide HeaderLine, RowLines, TrimSpace;
    HeaderShape(h);
    LoadRows(rows);
    assert ([HeaderLine(h)] + RowLines(rows))[1..] == RowLines(rows);
  }

  /** The recording comes back whole exactly when every line is under the scanner's limit. */
  lemma WholeRecordingLoads(h: Header, es: seq<Event>)
    ensures var rows := Exported(es, LimitOf(h.idleTimeLimit));
            Load(CastText(h, rows)) == Loaded(rows, false) <==>
            forall l :: l in CastLines(h, rows) ==> Utf8Length(l) < MAX_TOKEN
  {
    var rows := Exported(es, LimitOf(h.idleTimeLimit));
    CastRoundTrip(h, rows);
    AllShort(CastLines(h, rows), MAX_TOKEN);
  }

  /** Exporting a loaded export again gives the file one export with the tighter limit gives. */
  lemma ReexportText(h1: Header, h2: Header, es: seq<Event>)
    requires forall l :: l in CastLines(h1, Exported(es, LimitOf(h1.idleTimeLimit))) ==> Utf8Length(l) < MAX_TOKEN
    ensures var l1, l2 := LimitOf(h1.idleTimeLimit), LimitOf(h2.idleTimeLimit);
            CastText(h2, Exported(Load(CastText(h1, Exported(es, l1))).events, l2)) ==
            CastText(h2, Exported(es, Tighter(l1, l2)))
  {
    WholeRecordingLoads(h1, es);
    ExportTwice(es, LimitOf(h1.idleTimeLimit), LimitOf(h2.idleTimeLimit));
  }

  lemma {:induction false} Utf8AtLeast(s: string)
    ensures Utf8Length(s) >= |s|
  {
    if s != "" {
      Utf8AtLeast(s[1..]);
    }
  }

  lemma {:induction false} EscapeAtLeast(s: string)
    ensures |Escape(s)| >= |s|
  {
    if s != "" {
      EscapeAtLeast(s[1..]);
    }
  }

  /** One output of 64 Ki characters, whatever they are, and the recording does not come back. */
  lemma LongOutputLost(h: Header, data: string)
    requires |data| >= MAX_TOKEN
    ensures var rows := Exported([Event(0, OUTPUT, data)], LimitOf(h.idleTimeLimit));
            Load(CastText(h, rows)) == Loaded([], true)
  {
    var es := [Event(0, OUTPUT, data)];
    var rows := Exported(es, LimitOf(h.idleTimeLimit));
    OutputRows(es, LimitOf(h.idleTimeLimit), 0);
    var line := RowLine(rows[0]);
    LongRow(rows[0]);
    hide RowLine, HeaderLine, Exported, Utf8Length, Load, CastText, Scan;
    CastRoundTrip(h, rows);
    assert CastLines(h, rows)[1] == line;
    SecondLineStops(CastLines(h, rows), MAX_TOKEN);
    assert rows[..0] == [];
  }

  lemma LongRow(e: Event)
    requires |e.data| >= MAX_TOKEN
    ensures Utf8Length(RowLine(e)) >= MAX_TOKEN
  {
    hide Utf8Length, Escape, Seconds;
    EscapeAtLeast(e.data);
    Utf8AtLeast(RowLine(e));
  }

  lemma SecondLineStops(ls: seq<string>, max: nat)
    requires |ls| >= 2 && Utf8Length(ls[1]) >= max
    ensures ShortPrefix(ls, max) <= 1
  {
    hide Utf8Length;
    assert ls[1..][0] == ls[1];
  }

  /** In particular this one, 65536 times the letter x. */
  lemma LongOutputWitness(h: Header)
    ensures var data := seq(MAX_TOKEN, i => 'x');
            var rows := Exported([Event(0, OUTPUT, data)], LimitOf(h.idleTimeLimit));
            |rows| == 1 && Load(CastText(h, rows)) == Loaded([], true) != Loaded(rows, false)
  {
    var data := seq(MAX_TOKEN, i => 'x');
    OutputRows([Event(0, OUTPUT, data)], LimitOf(h.idleTimeLimit), 0);
    LongOutputLost(h, data);
    hide Exported, Load, CastText;
  }

  // ---- Files written by others -----------------------------------------------------

  predicate AllBlank(b: string) {
    forall i :: 0 <= i < |b| ==> b[i] in " \t\r\n"
  }

  lemma {:induction false} BlanksSkipped(b: string, t: string)
    requires AllBlank(b) && (t != "" ==> t[0] !in " \t\r\n")
    ensures SkipBlanks(b + t) == t
  {
    if b == "" {
      assert b + t == t;
    } else {
      assert (b + t)[1..] == b[1..] + t;
      BlanksSkipped(b[1..], t);
    }
  }

  lemma BlankItem(before: char, b: string, b': string, u: string, x: Scalar, t: string)
    requires (before == '[' || before == ',') && AllBlank(b) && AllBlank(b')
    requires u != "" && u[0] !in " \t\r\n" && ReadScalar(u) == Parsed(x, t)
    ensures ReadItem(before, b + ([before] + (b' + u))) == Parsed(x, t)
  {
    hide ReadScalar;
    var v := [before] + (b' + u);
    BlanksSkipped(b, v);
    BlanksSkipped(b', u);
    assert v[1..] == b' + u;
  }

  lemma BlankClose(b: string, b': string)
    requires AllBlank(b) && AllBlank(b')
    ensures Closes(b + ("]" + b'))
  {
    BlanksSkipped(b, "]" + b');
    BlanksSkipped(b', "");
    assert ("]" + b')[1..] == b' + "";
  }

  lemma TimeScalar(ns: int, t: string) returns (n: Number)
    requires EndsNumber(t)
    ensures ReadScalar(Seconds(ns) + t) == Parsed(Num(n), t) && Nanos(n) == ns
    ensures Seconds(ns) + t != "" && (Seconds(ns) + t)[0] !in " \t\r\n"
  {
    hide Seconds, ReadNumber, ReadScalar;
    SecondsRoundTrip(ns, t);
    NumberStart(ns);
    n := ReadNumber(Seconds(ns) + t).value;
    ScalarNumber(Seconds(ns), t);
  }

  lemma TextScalar(s: string, t: string)
    ensures ReadScalar(Quote(s) + t) == Parsed(Str(s), t)
    ensures Quote(s) + t != "" && (Quote(s) + t)[0] == '"'
  {
    StringRoundTrip(s, t);
    hide Escape, ReadString;
    assert (Quote(s) + t)[0] == '"';
  }

  lemma BlankEndsNumber(b: string, t: string)
    requires AllBlank(b) && EndsNumber(t)
    ensures EndsNumber(b + t)
  {
    if b != "" {
      assert (b + t)[0] == b[0];
    } else {
      assert b + t == t;
    }
  }

  /** Blanks before, between and after the items of a row change nothing. */
  lemma BlanksChangeNothing(e: Event, b: seq<string>)
    requires |b| == 8 && forall i :: 0 <= i < 8 ==> AllBlank(b[i])
    ensures var end := b[6] + ("]" + b[7]);
            var data := b[4] + ("," + (b[5] + (Quote(e.data) + end)));
            var typ := b[2] + ("," + (b[3] + (Quote(e.typ) + data)));
            ReadRow(b[0] + ("[" + (b[1] + (Seconds(e.time) + typ)))) == Some(e)
  {
    hide Quote, Seconds, ReadItem, ReadScalar, Closes, AllBlank;
    var end := b[6] + ("]" + b[7]);
    var data := b[4] + ("," + (b[5] + (Quote(e.data) + end)));
    var typ := b[2] + ("," + (b[3] + (Quote(e.typ) + data)));
    BlankEndsNumber(b[2], "," + (b[3] + (Quote(e.typ) + data)));
    var n := TimeScalar(e.time, typ);
    TextScalar(e.typ, data);
    TextScalar(e.data, end);
    BlankItem('[', b[0], b[1], Seconds(e.time) + typ, Num(n), typ);
    BlankItem(',', b[2], b[3], Quote(e.typ) + data, Str(e.typ), data);
    BlankItem(',', b[4], b[5], Quote(e.data) + end, Str(e.data), end);
    BlankClose(b[6], b[7]);
  }

  /** Which three scalars make an event: a number or null, then strings or nulls; null is zero. */
  lemma ScalarsMakeEvent(a: Scalar, b: Scalar, c: Scalar)
    ensures EventOf(a, b, c).Some? <==> !a.Str? && !b.Num? && !c.Num?
    ensures EventOf(a, b, c).Some? ==>
              var e := EventOf(a, b, c).value;
              && e.time == (if a.Num? then Nanos(a.n) else 0)
              && e.typ == (if b.Str? then b.s else "") && e.data == (if c.Str? then c.s else "")
  {
    hide Nanos;
  }

  lemma NullReads(t: string)
    ensures ReadScalar("null" + t) == Parsed(Null, t)
  {
    assert ("null" + t)[..4] == "null" && ("null" + t)[4..] == t;
  }

  /** A row that is no event, or a blank line, loses itself and nothing else, wherever it is; of
      the lines before the header only blank ones are lost so. */
  lemma {:induction false} BadLineLosesItself(a: seq<string>, bad: string, b: seq<string>, first: bool)
    requires TrimSpace(bad) == "" || (!first && ReadRow(TrimSpace(bad)) == None)
    ensures LoadLines(a + [bad] + b, first) == LoadLines(a + b, first)
  {
    hide TrimSpace, ReadRow;
    if a == [] {
      assert (a + [bad] + b)[1..] == b && a + b == b;
    } else {
      var w, v := a + [bad] + b, a + b;
      assert w[0] == v[0] == a[0] && w[1..] == a[1..] + [bad] + b && v[1..] == a[1..] + b;
      BadLineLosesItself(a[1..], bad, b, if TrimSpace(a[0]) == "" then first else false);
    }
  }

  /** The header is the first line that is not blank, whatever it says. */
  lemma HeaderIsSkipped(header: string, lines: seq<string>)
    requires TrimSpace(header) != ""
    ensures LoadLines([header] + lines, true) == LoadLines(lines, false)
  {
    hide TrimSpace;
    assert ([header] + lines)[1..] == lines;
  }

  predicate AllSpace(s: string) {
    forall i :: 0 <= i < |s| ==> IsSpace(s[i])
  }

  lemma {:induction false} TrimLeftIs(s: string) returns (a: string)
    ensures s == a + TrimLeft(s) && AllSpace(a) && (TrimLeft(s) != "" ==> !IsSpace(TrimLeft(s)[0]))
  {
    hide IsSpace;
    if s != "" && IsSpace(s[0]) {
      a := TrimLeftIs(s[1..]);
      assert s == [s[0]] + s[1..];
      a := [s[0]] + a;
    } else {
      a := "";
    }
  }

  lemma {:induction false} TrimRightIs(s: string) returns (b: string)
    ensures s == TrimRight(s) + b && AllSpace(b)
    ensures TrimRight(s) != "" ==> !IsSpace(TrimRight(s)[|TrimRight(s)| - 1]) && s != "" && TrimRight(s)[0] == s[0]
  {
    hide IsSpace;
    if s != "" && IsSpace(s[|s| - 1]) {
      var n := |s| - 1;
      b := TrimRightIs(s[..n]);
      assert s == s[..n] + [s[n]];
      b := b + [s[n]];
    } else {
      b := "";
    }
  }

  /** Trimming takes off white space at both ends, all of it and nothing else. */
  lemma TrimSpaceIs(s: string) returns (a: string, b: string)
    ensures s == a + TrimSpace(s) + b && AllSpace(a) && AllSpace(b)
    ensures var t := TrimSpace(s); t != "" ==> !IsSpace(t[0]) && !IsSpace(t[|t| - 1])
  {
    a := TrimLeftIs(s);
    b := TrimRightIs(TrimLeft(s));
    hide TrimLeft, TrimRight, IsSpace;
    assert a + (TrimSpace(s) + b) == a + TrimSpace(s) + b;
  }
}
