/**
 Reading a cast file's header line back, as any player does: a reader for JSON objects of
 numbers, strings and objects (section 4 of RFC 8259) without white space, which is how
 json.Marshal writes the header (internal/recorder/cast.go).
 */
module Headers {
  import opened Events
  import opened Json
  import opened Decimal
  import opened Cast
  import opened Wrappers

  datatype JsonValue = Numeric(n: Number) | Text(s: string) | Object(members: seq<Member>)

  datatype Member = Member(name: string, value: JsonValue)

  function ReadValue(t: string): (p: Parsed<JsonValue>)
    ensures p.Parsed? ==> |p.rest| < |t|
    decreases |t|, 1
  {
    if t == "" then Bad
    else if t[0] == '{' then
      match ReadMembers(t[1..], true) { case Bad => Bad case Parsed(ms, rest) => Parsed(Object(ms), rest) }
    else if t[0] == '"' then
      match ReadString(t) { case Bad => Bad case Parsed(s, rest) => Parsed(Text(s), rest) }
    else match ReadNumber(t) { case Bad => Bad case Parsed(n, rest) => Parsed(Numeric(n), rest) }
  }

  /** The members up to and past the closing brace; all but the first follow a comma. */
  function ReadMembers(t: string, first: bool): (p: Parsed<seq<Member>>)
    ensures p.Parsed? ==> |p.rest| < |t|
    decreases |t|, 0
  {
    if t == "" then Bad
    else if t[0] == '}' then Parsed([], t[1..])
    else if !first && t[0] != ',' then Bad
    else
      match ReadString(if first then t else t[1..])
      case Bad => Bad
      case Parsed(name, u) =>
        if u == "" || u[0] != ':' then Bad
        else match ReadValue(u[1..])
          case Bad => Bad
          case Parsed(value, v) =>
            match ReadMembers(v, false)
            case Bad => Bad
            case Parsed(ms, rest) => Parsed([Member(name, value)] + ms, rest)
  }

  function Find(ms: seq<Member>, name: string): Option<JsonValue> {
    if ms == [] then None else if ms[0].name == name then Some(ms[0].value) else Find(ms[1..], name)
  }

  // ---- One member ------------------------------------------------------------------

  predicate Plain(name: string) {
    forall i :: 0 <= i < |name| ==> 'a' <= name[i] <= 'z' || 'A' <= name[i] <= 'Z' || name[i] == '_'
  }

  lemma {:induction false} PlainEscape(name: string)
    requires Plain(name)
    ensures Escape(name) == name
  {
    if name != "" {
      PlainEscape(name[1..]);
      assert EscapeChar(name[0]) == [name[0]];
    }
  }

  function Named(first: bool, name: string, text: string): string {
    (if first then "" else ",") + ("\"" + name + "\":" + text)
  }

  lemma MemberReads(
    first: bool, name: string, text: string, value: JsonValue, rest: string, ms: seq<Member>, end: string)
    requires Plain(name) && ReadValue(text) == Parsed(value, rest) && ReadMembers(rest, false) == Parsed(ms, end)
    ensures ReadMembers(Named(first, name, text), first) == Parsed([Member(name, value)] + ms, end)
  {
    hide ReadValue, ReadString, Escape;
    PlainEscape(name);
    StringRoundTrip(name, ":" + text);
    var t := Named(first, name, text);
    var u := "\"" + name + "\":" + text;
    assert u == Quote(name) + (":" + text);
    assert (":" + text)[1..] == text;
    assert t[0] == if first then '"' else ',';
    assert (if first then t else t[1..]) == u;
  }

  lemma TextReads(s: string, rest: string)
    ensures ReadValue(Quote(s) + rest) == Parsed(Text(s), rest)
  {
    hide Escape, ReadString, ReadMembers;
    StringRoundTrip(s, rest);
    assert (Quote(s) + rest)[0] == '"';
  }

  function IntNumber(n: int): Number {
    Number(n < 0, if n < 0 then -n else n, 0)
  }

  lemma IntReads(n: int, rest: string)
    requires EndsNumber(rest)
    ensures ReadValue(IntText(n) + rest) == Parsed(Numeric(IntNumber(n)), rest)
  {
    hide ReadUnsigned, Value, ReadMembers, ReadString;
    var a := if n < 0 then -n else n;
    var ds := Digits(a);
    DigitsValue(a);
    assert ReadExponent(rest) == Parsed(0, rest);
    UnsignedRoundTrip(n < 0, ds, "", rest, 0, rest);
    assert ds + (Fraction("") + rest) == ds + rest && ds + "" == ds;
    var w := IntText(n) + rest;
    if n < 0 {
      assert w == "-" + (ds + rest) && w[1..] == ds + rest;
    } else {
      assert w[0] == ds[0];
    }
  }

  lemma SecondsReads(ns: int, rest: string) returns (n: Number)
    requires EndsNumber(rest)
    ensures ReadValue(Seconds(ns) + rest) == Parsed(Numeric(n), rest) && Nanos(n) == ns
  {
    SecondsRoundTrip(ns, rest);
    SecondsStart(ns);
    hide Seconds, ReadNumber, ReadMembers, ReadString, Nanos;
    var w := Seconds(ns) + rest;
    n := ReadNumber(w).value;
    assert w[0] == Seconds(ns)[0];
  }

  lemma SecondsStart(ns: int)
    ensures Seconds(ns) != "" && (IsDigit(Seconds(ns)[0]) || Seconds(ns)[0] == '-')
  {
    if ns >= 0 {
      hide Digits;
      DigitsValue(ns);
      DigitsValue(ns / 1_000_000_000);
      TrimValue(Digits(ns));
    }
  }

  // ---- The header ------------------------------------------------------------------

  function Optional(present: bool, name: string, value: JsonValue): seq<Member> {
    if present then [Member(name, value)] else []
  }

  function EnvMembers(env: Env): seq<Member> {
    Optional(env.shell != "", "SHELL", Text(env.shell)) + Optional(env.term != "", "TERM", Text(env.term))
  }

  /** What the header line says; `limit` is the idle limit as written. */
  function Members(h: Header, limit: Number): seq<Member> {
    [Member("version", Numeric(IntNumber(2))), Member("width", Numeric(IntNumber(h.width)))]
    + ([Member("height", Numeric(IntNumber(h.height)))] + AfterSize(h, limit))
  }

  function AfterSize(h: Header, limit: Number): seq<Member> {
    Optional(h.timestamp != 0, "timestamp", Numeric(IntNumber(h.timestamp)))
    + (Optional(h.title != "", "title", Text(h.title))
       + (Optional(h.idleTimeLimit != 0.0, "idle_time_limit", Numeric(limit))
          + if h.env.Some? then [Member("env", Object(EnvMembers(h.env.value)))] else []))
  }

  /** The text of one field. */
  function Piece(present: bool, name: string, value: string): string {
    if present then name + value else ""
  }

  lemma FieldPiece(fields: seq<string>, present: bool, name: string, value: string)
    ensures Concat(fields + Field(present, name, value)) == Concat(fields) + Piece(present, name, value)
  {
    ConcatAppend(fields, Field(present, name, value));
    PieceConcat(present, name, value);
    hide Concat, Field, Piece;
  }

  lemma PieceConcat(present: bool, name: string, value: string)
    ensures Concat(Field(present, name, value)) == Piece(present, name, value)
  {
    if present {
      assert [name, value][..1] == [name] && [name][..0] == [];
      assert Concat([name]) == "" + name == name;
    }
  }

  predicate Continues(rest: string) {
    rest != "" && (rest[0] == ',' || rest[0] == '}')
  }

  /** Reading on past an optional field. */
  lemma OptionalReads(
    present: bool, name: string, text: string, value: JsonValue, rest: string, ms: seq<Member>, end: string)
    requires Plain(name) && Continues(rest) && ReadMembers(rest, false) == Parsed(ms, end)
    requires present ==> ReadValue(text + rest) == Parsed(value, rest)
    ensures var t := Piece(present, ",\"" + name + "\":", text) + rest;
            Continues(t) && ReadMembers(t, false) == Parsed(Optional(present, name, value) + ms, end)
  {
    hide ReadValue, ReadMembers;
    if present {
      MemberReads(false, name, text + rest, value, rest, ms, end);
      assert Piece(present, ",\"" + name + "\":", text) + rest == Named(false, name, text + rest);
    } else {
      assert "" + rest == rest && [] + ms == ms;
    }
  }

  lemma ClosingReads(end: string)
    ensures ReadMembers("}" + end, false) == Parsed([], end) && Continues("}" + end)
  {
    assert ("}" + end)[1..] == end;
  }

  /** A text member, or nothing, at the start of an object. */
  lemma FirstReads(present: bool, name: string, s: string, rest: string, ms: seq<Member>, end: string)
    requires Plain(name) && ReadMembers(rest, !present) == Parsed(ms, end)
    ensures ReadMembers(Piece(present, "\"" + name + "\":", Quote(s)) + rest, true) ==
            Parsed(Optional(present, name, Text(s)) + ms, end)
  {
    hide ReadValue, ReadMembers, Quote;
    if present {
      TextReads(s, rest);
      MemberReads(true, name, Quote(s) + rest, Text(s), rest, ms, end);
      assert Piece(present, "\"" + name + "\":", Quote(s)) + rest == Named(true, name, Quote(s) + rest);
    } else {
      assert "" + rest == rest && [] + ms == ms;
    }
  }

  lemma TermReads(env: Env, rest: string)
    ensures var term := Piece(env.term != "", (if env.shell == "" then "" else ",") + "\"TERM\":", Quote(env.term));
            ReadMembers(term + ("}" + rest), env.shell == "") ==
            Parsed(Optional(env.term != "", "TERM", Text(env.term)), rest)
  {
    hide ReadValue, ReadMembers, Quote, Piece;
    var close := "}" + rest;
    ClosingReads(rest);
    ClosingFirst(rest);
    TextReads(env.term, close);
    assert "\"" + "TERM" + "\":" == "\"TERM\":" && ",\"" + "TERM" + "\":" == ",\"TERM\":";
    assert "" + "\"TERM\":" == "\"TERM\":" && "," + "\"TERM\":" == ",\"TERM\":";
    var ms := Optional(env.term != "", "TERM", Text(env.term));
    assert ms + [] == ms;
    if env.shell == "" {
      FirstReads(env.term != "", "TERM", env.term, close, [], rest);
    } else {
      OptionalReads(env.term != "", "TERM", Quote(env.term), Text(env.term), close, [], rest);
    }
  }

  /** The members inside an env object, and the brace that ends it. */
  lemma EnvReads(env: Env, rest: string)
    ensures var shell := Piece(env.shell != "", "\"SHELL\":", Quote(env.shell));
            var term := Piece(env.term != "", (if env.shell == "" then "" else ",") + "\"TERM\":", Quote(env.term));
            ReadMembers(shell + (term + ("}" + rest)), true) == Parsed(EnvMembers(env), rest)
  {
    hide ReadValue, ReadMembers, Quote, Piece;
    TermReads(env, rest);
    var term := Piece(env.term != "", (if env.shell == "" then "" else ",") + "\"TERM\":", Quote(env.term));
    assert "\"" + "SHELL" + "\":" == "\"SHELL\":";
    FirstReads(env.shell != "", "SHELL", env.shell, term + ("}" + rest),
               Optional(env.term != "", "TERM", Text(env.term)), rest);
  }

  lemma ClosingFirst(end: string)
    ensures ReadMembers("}" + end, true) == Parsed([], end)
  {
    assert ("}" + end)[1..] == end;
  }

  function EnvText(env: Option<Env>): string {
    match env
    case None => ""
    case Some(e) =>
      ",\"env\":{" + Piece(e.shell != "", "\"SHELL\":", Quote(e.shell))
      + Piece(e.term != "", (if e.shell == "" then "" else ",") + "\"TERM\":", Quote(e.term)) + "}"
  }

  lemma EnvFieldText(fields: seq<string>, env: Option<Env>)
    ensures Concat(fields + EnvField(env)) == Concat(fields) + EnvText(env)
  {
    hide Quote, Concat, Field, Piece;
    match env
    case None => assert fields + [] == fields && Concat(fields) + "" == Concat(fields);
    case Some(Env(shell, term)) =>
      var a, b := Field(true, ",\"env\":{", ""), Field(shell != "", "\"SHELL\":", Quote(shell));
      var c := Field(term != "", (if shell == "" then "" else ",") + "\"TERM\":", Quote(term));
      var d := Field(true, "}", "");
      FieldPiece([], true, ",\"env\":{", "");
      FieldPiece(a, shell != "", "\"SHELL\":", Quote(shell));
      FieldPiece(a + b, term != "", (if shell == "" then "" else ",") + "\"TERM\":", Quote(term));
      FieldPiece(a + b + c, true, "}", "");
      assert [] + a == a;
      EnvPieces();
      ConcatAppend(fields, EnvField(env));
  }

  lemma EnvPieces()
    ensures Concat([]) == "" && "" + Piece(true, ",\"env\":{", "") == ",\"env\":{" && Piece(true, "}", "") == "}"
  {
  }

  lemma EnvRegroups(shell: string, term: string, close: string)
    ensures ",\"env\":{" + shell + term + "}" + close == Named(false, "env", "{" + (shell + (term + ("}" + close))))
  {
    var inner := shell + (term + ("}" + close));
    assert ",\"env\":{" + shell + term + "}" + close == ",\"env\":{" + inner by {
      assert ",\"env\":{" + shell + term + ("}" + close) == ",\"env\":{" + shell + (term + ("}" + close));
    }
    assert "," + ("\"" + "env" + "\":" + ("{" + inner)) == ",\"env\":{" + inner;
  }

  lemma EnvMemberReads(env: Option<Env>, end: string)
    ensures var t := EnvText(env) + ("}" + end);
            && Continues(t)
            && ReadMembers(t, false) ==
               Parsed(if env.Some? then [Member("env", Object(EnvMembers(env.value)))] else [], end)
  {
    hide Quote, Piece, EnvMembers;
    var close := "}" + end;
    ClosingReads(end);
    match env
    case None => assert "" + close == close;
    case Some(e) =>
      var shell := Piece(e.shell != "", "\"SHELL\":", Quote(e.shell));
      var term := Piece(e.term != "", (if e.shell == "" then "" else ",") + "\"TERM\":", Quote(e.term));
      var text := "{" + (shell + (term + ("}" + close)));
      EnvReads(e, close);
      assert text[1..] == shell + (term + ("}" + close));
      assert ReadValue(text) == Parsed(Object(EnvMembers(e)), close);
      MemberReads(false, "env", text, Object(EnvMembers(e)), close, [], end);
      EnvRegroups(shell, term, close);
      assert [Member("env", Object(EnvMembers(e)))] + [] == [Member("env", Object(EnvMembers(e)))];
  }

  lemma AfterSizeReads(h: Header, end: string) returns (limit: Number)
    ensures var title := Piece(h.title != "", ",\"title\":", Quote(h.title));
            var idle := Piece(h.idleTimeLimit != 0.0, ",\"idle_time_limit\":", Seconds(Truncated(h.idleTimeLimit)));
            var time := Piece(h.timestamp != 0, ",\"timestamp\":", IntText(h.timestamp));
            var t := time + (title + (idle + (EnvText(h.env) + ("}" + end))));
            Continues(t) && ReadMembers(t, false) == Parsed(AfterSize(h, limit), end)
    ensures Nanos(limit) == Truncated(h.idleTimeLimit)
  {
    hide Quote, Seconds, IntText, ReadMembers, ReadValue, EnvText, Truncated, Nanos, Piece, Optional;
    var env := EnvText(h.env) + ("}" + end);
    EnvMemberReads(h.env, end);
    var ms := if h.env.Some? then [Member("env", Object(EnvMembers(h.env.value)))] else [];
    limit := SecondsReads(Truncated(h.idleTimeLimit), env);
    Literals();
    OptionalReads(h.idleTimeLimit != 0.0, "idle_time_limit", Seconds(Truncated(h.idleTimeLimit)), Numeric(limit),
                  env, ms, end);
    var idle := Piece(h.idleTimeLimit != 0.0, ",\"idle_time_limit\":", Seconds(Truncated(h.idleTimeLimit))) + env;
    ms := Optional(h.idleTimeLimit != 0.0, "idle_time_limit", Numeric(limit)) + ms;
    TextReads(h.title, idle);
    OptionalReads(h.title != "", "title", Quote(h.title), Text(h.title), idle, ms, end);
    var title := Piece(h.title != "", ",\"title\":", Quote(h.title)) + idle;
    ms := Optional(h.title != "", "title", Text(h.title)) + ms;
    IntReads(h.timestamp, title);
    OptionalReads(h.timestamp != 0, "timestamp", IntText(h.timestamp), Numeric(IntNumber(h.timestamp)), title, ms, end);
  }

  lemma Literals()
    ensures ",\"" + "idle_time_limit" + "\":" == ",\"idle_time_limit\":" && ",\"" + "title" + "\":" == ",\"title\":"
    ensures ",\"" + "timestamp" + "\":" == ",\"timestamp\":" && ",\"" + "height" + "\":" == ",\"height\":"
  {
  }

  lemma SizeReads(h: Header, t: string, ms: seq<Member>, end: string)
    requires Continues(t) && ReadMembers(t, false) == Parsed(ms, end)
    ensures var height := ",\"height\":" + IntText(h.height);
            ReadMembers("\"version\":2,\"width\":" + (IntText(h.width) + (height + t)), true) ==
            Parsed([Member("version", Numeric(IntNumber(2))), Member("width", Numeric(IntNumber(h.width)))]
                   + ([Member("height", Numeric(IntNumber(h.height)))] + ms), end)
  {
    hide IntText, ReadMembers, ReadValue, IntNumber;
    Literals();
    IntReads(h.height, t);
    var t1 := ",\"height\":" + (IntText(h.height) + t);
    MemberReads(false, "height", IntText(h.height) + t, Numeric(IntNumber(h.height)), t, ms, end);
    assert Named(false, "height", IntText(h.height) + t) == t1;
    assert t1 == ",\"height\":" + IntText(h.height) + t;
    var ms1 := [Member("height", Numeric(IntNumber(h.height)))] + ms;
    IntReads(h.width, t1);
    var t2 := ",\"width\":" + (IntText(h.width) + t1);
    MemberReads(false, "width", IntText(h.width) + t1, Numeric(IntNumber(h.width)), t1, ms1, end);
    assert Named(false, "width", IntText(h.width) + t1) == t2;
    var ms2 := [Member("width", Numeric(IntNumber(h.width)))] + ms1;
    TwoText();
    IntReads(2, t2);
    MemberReads(true, "version", "2" + t2, Numeric(IntNumber(2)), t2, ms2, end);
    assert Named(true, "version", "2" + t2) == "\"version\":2,\"width\":" + (IntText(h.width) + t1);
    assert [Member("version", Numeric(IntNumber(2)))] + ms2 ==
           [Member("version", Numeric(IntNumber(2))), Member("width", Numeric(IntNumber(h.width)))] + ms1;
  }

  lemma TwoText()
    ensures IntText(2) == "2"
  {
  }

  /** The header line is its size, its optional fields and the closing brace, in that order. */
  lemma HeaderText(h: Header)
    ensures var size := "\"version\":2,\"width\":" + IntText(h.width);
            var height := ",\"height\":" + IntText(h.height);
            var time := Piece(h.timestamp != 0, ",\"timestamp\":", IntText(h.timestamp));
            var title := Piece(h.title != "", ",\"title\":", Quote(h.title));
            var idle := Piece(h.idleTimeLimit != 0.0, ",\"idle_time_limit\":", Seconds(Truncated(h.idleTimeLimit)));
            Concat(HeaderFields(h)) == size + height + time + title + idle + EnvText(h.env)
  {
    hide Quote, Seconds, IntText, EnvField, EnvText, Concat, Truncated, Field, Piece;
    var a := Field(true, "\"version\":2,\"width\":", IntText(h.width));
    var b := Field(true, ",\"height\":", IntText(h.height));
    var c := Field(h.timestamp != 0, ",\"timestamp\":", IntText(h.timestamp));
    var d := Field(h.title != "", ",\"title\":", Quote(h.title));
    var e := Field(h.idleTimeLimit != 0.0, ",\"idle_time_limit\":", Seconds(Truncated(h.idleTimeLimit)));
    FieldPiece([], true, "\"version\":2,\"width\":", IntText(h.width));
    FieldPiece(a, true, ",\"height\":", IntText(h.height));
    FieldPiece(a + b, h.timestamp != 0, ",\"timestamp\":", IntText(h.timestamp));
    FieldPiece(a + b + c, h.title != "", ",\"title\":", Quote(h.title));
    FieldPiece(a + b + c + d, h.idleTimeLimit != 0.0, ",\"idle_time_limit\":", Seconds(Truncated(h.idleTimeLimit)));
    EnvFieldText(a + b + c + d + e, h.env);
    assert [] + a == a;
    SizePieces(h);
  }

  lemma SizePieces(h: Header)
    ensures Concat([]) == ""
    ensures "" + Piece(true, "\"version\":2,\"width\":", IntText(h.width)) ==
            "\"version\":2,\"width\":" + IntText(h.width)
    ensures Piece(true, ",\"height\":", IntText(h.height)) == ",\"height\":" + IntText(h.height)
  {
    hide IntText;
  }

  lemma Nest(v: string, w: string, b: string, c: string, d: string, e: string, f: string, g: string)
    ensures v + w + b + c + d + e + f + g == v + (w + (b + (c + (d + (e + (f + g))))))
  {
    assert v + w + b + c + d + e + f + g == v + w + b + c + d + e + (f + g);
    assert v + w + b + c + d + e + (f + g) == v + w + b + c + d + (e + (f + g));
    assert v + w + b + c + d + (e + (f + g)) == v + w + b + c + (d + (e + (f + g)));
    assert v + w + b + c + (d + (e + (f + g))) == v + w + b + (c + (d + (e + (f + g))));
    assert v + w + b + (c + (d + (e + (f + g)))) == v + w + (b + (c + (d + (e + (f + g)))));
  }

  /** Reading a header line gives every field with its value, and none that was left out. */
  lemma HeaderReads(h: Header) returns (limit: Number)
    ensures ReadValue(HeaderLine(h)) == Parsed(Object(Members(h, limit)), "")
    ensures Nanos(limit) == Truncated(h.idleTimeLimit)
  {
    limit := AfterSizeReads(h, "");
    HeaderText(h);
    hide Quote, Seconds, IntText, ReadMembers, EnvText, Truncated, Nanos, Piece, HeaderFields, Concat, AfterSize;
    var height := ",\"height\":" + IntText(h.height);
    var time := Piece(h.timestamp != 0, ",\"timestamp\":", IntText(h.timestamp));
    var title := Piece(h.title != "", ",\"title\":", Quote(h.title));
    var idle := Piece(h.idleTimeLimit != 0.0, ",\"idle_time_limit\":", Seconds(Truncated(h.idleTimeLimit)));
    var t := time + (title + (idle + (EnvText(h.env) + ("}" + ""))));
    SizeReads(h, t, AfterSize(h, limit), "");
    var start := "\"version\":2,\"width\":";
    Nest(start, IntText(h.width), height, time, title, idle, EnvText(h.env), "}");
    assert "}" + "" == "}";
    var body := start + (IntText(h.width) + (height + t));
    assert HeaderLine(h) == "{" + body;
    assert HeaderLine(h)[1..] == body;
  }

  // ---- Looking fields up -----------------------------------------------------------

  lemma FindCons(m: Member, ms: seq<Member>, name: string)
    ensures Find([m] + ms, name) == if m.name == name then Some(m.value) else Find(ms, name)
  {
    assert ([m] + ms)[1..] == ms;
  }

  lemma FindOptional(present: bool, own: string, value: JsonValue, ms: seq<Member>, name: string)
    ensures Find(Optional(present, own, value) + ms, name) ==
            if present && own == name then Some(value) else Find(ms, name)
  {
    hide Find;
    if present {
      FindCons(Member(own, value), ms, name);
    } else {
      assert [] + ms == ms;
    }
  }

  function Present(h: Header, limit: Number, name: string): Option<JsonValue> {
    if name == "version" then Some(Numeric(IntNumber(2)))
    else if name == "width" then Some(Numeric(IntNumber(h.width)))
    else if name == "height" then Some(Numeric(IntNumber(h.height)))
    else if name == "timestamp" && h.timestamp != 0 then Some(Numeric(IntNumber(h.timestamp)))
    else if name == "title" && h.title != "" then Some(Text(h.title))
    else if name == "idle_time_limit" && h.idleTimeLimit != 0.0 then Some(Numeric(limit))
    else if name == "env" && h.env.Some? then Some(Object(EnvMembers(h.env.value)))
    else None
  }

  /** So a player finds the version 2 and each field under its own name, the idle limit to
      within a nanosecond; fields that are zero, empty or absent it does not find. */
  lemma HeaderFieldsFound(h: Header, name: string) returns (limit: Number)
    ensures ReadValue(HeaderLine(h)).Parsed? && ReadValue(HeaderLine(h)).value.Object?
    ensures Find(ReadValue(HeaderLine(h)).value.members, name) == Present(h, limit, name)
    ensures Nanos(limit) == Truncated(h.idleTimeLimit)
  {
    limit := HeaderReads(h);
    hide ReadValue, HeaderLine, Nanos, Truncated, IntNumber, EnvMembers, Find, Optional;
    var env: seq<Member> := if h.env.Some? then [Member("env", Object(EnvMembers(h.env.value)))] else [];
    var idle := Optional(h.idleTimeLimit != 0.0, "idle_time_limit", Numeric(limit)) + env;
    var title := Optional(h.title != "", "title", Text(h.title)) + idle;
    var time := Optional(h.timestamp != 0, "timestamp", Numeric(IntNumber(h.timestamp))) + title;
    var height, width := Member("height", Numeric(IntNumber(h.height))), Member("width", Numeric(IntNumber(h.width)));
    var version := Member("version", Numeric(IntNumber(2)));
    assert Members(h, limit) == [version] + ([width] + ([height] + time));
    FindCons(version, [width] + ([height] + time), name);
    FindCons(width, [height] + time, name);
    FindCons(height, time, name);
    FindOptional(h.timestamp != 0, "timestamp", Numeric(IntNumber(h.timestamp)), title, name);
    FindOptional(h.title != "", "title", Text(h.title), idle, name);
    FindOptional(h.idleTimeLimit != 0.0, "idle_time_limit", Numeric(limit), env, name);
    FindEnv(h.env, name);
  }

  lemma FindEnv(env: Option<Env>, name: string)
    ensures var ms: seq<Member> := if env.Some? then [Member("env", Object(EnvMembers(env.value)))] else [];
            Find(ms, name) == if name == "env" && env.Some? then Some(Object(EnvMembers(env.value))) else None
  {
    if env.Some? {
      assert [Member("env", Object(EnvMembers(env.value)))][1..] == [];
    }
  }
}
