/** Writing a recording as an asciicast v2 file (internal/recorder/cast.go). */
module Cast {
  import opened Events
  import opened Clamp
  import opened Json
  import opened Decimal
  import opened Scanner
  import opened Wrappers

  datatype Env = Env(shell: string, term: string)

  datatype Header = Header(
    width: int, height: int, timestamp: int, title: string, idleTimeLimit: real, env: Option<Env>)

  /** time.Duration(x * 1e9): truncated toward zero, so off by less than a nanosecond. */
  function Truncated(seconds: real): (ns: int)
    ensures seconds >= 0.0 ==> ns as real <= seconds * 1000000000.0 < ns as real + 1.0
    ensures seconds <= 0.0 ==> ns as real - 1.0 < seconds * 1000000000.0 <= ns as real
  {
    if seconds >= 0.0 then (seconds * 1000000000.0).Floor else -(-seconds * 1000000000.0).Floor
  }

  /** The limit in nanoseconds; zero means no limit. */
  function LimitOf(idle: real): (limit: int)
    ensures limit >= 0
    ensures idle > 0.0 ==> limit as real <= idle * 1000000000.0 < limit as real + 1.0
    ensures idle <= 0.0 ==> limit == 0
  {
    if idle > 0.0 then Truncated(idle) else 0
  }

  // ---- Text ------------------------------------------------------------------------

  function IntText(n: int): string {
    if n < 0 then "-" + Digits(-n) else Digits(n)
  }

  /** json.Marshal of the header: the fields tagged omitempty vanish when zero. */
  function HeaderLine(h: Header): string {
    "{" + Concat(HeaderFields(h)) + "}"
  }

  function HeaderFields(h: Header): seq<string> {
    Field(true, "\"version\":2,\"width\":", IntText(h.width))
    + Field(true, ",\"height\":", IntText(h.height))
    + Field(h.timestamp != 0, ",\"timestamp\":", IntText(h.timestamp))
    + Field(h.title != "", ",\"title\":", Quote(h.title))
    + Field(h.idleTimeLimit != 0.0, ",\"idle_time_limit\":", Seconds(Truncated(h.idleTimeLimit)))
    + EnvField(h.env)
  }

  function Field(present: bool, name: string, value: string): seq<string> {
    if present then [name, value] else []
  }

  function EnvField(env: Option<Env>): seq<string> {
    match env
    case None => []
    case Some(Env(shell, term)) =>
      Field(true, ",\"env\":{", "")
      + Field(shell != "", "\"SHELL\":", Quote(shell))
      + Field(term != "", (if shell == "" then "" else ",") + "\"TERM\":", Quote(term))
      + Field(true, "}", "")
  }

  /** json.Marshal of [seconds, type, data]. */
  function RowLine(e: Event): string {
    "[" + Seconds(e.time) + "," + Quote(e.typ) + "," + Quote(e.data) + "]"
  }

  function RowLines(rows: seq<Event>): (ls: seq<string>)
    ensures |ls| == |rows|
  {
    seq(|rows|, i requires 0 <= i < |rows| => RowLine(rows[i]))
  }

  function CastLines(h: Header, rows: seq<Event>): seq<string> {
    [HeaderLine(h)] + RowLines(rows)
  }

  function CastText(h: Header, rows: seq<Event>): string {
    Lines(CastLines(h, rows))
  }

  // ---- Marshal ---------------------------------------------------------------------

  /** The two running cursors of the loop are the last adjusted and the last raw time. */
  ghost predicate CursorsAt(ts: seq<int>, limit: int, cursor: int, prevRaw: int) {
    if ts == [] then cursor == 0 && prevRaw == 0
    else cursor == Cursor(ts, limit, |ts| - 1) && prevRaw == ts[|ts| - 1]
  }

  method Marshal(hdr: Header, events: seq<Event>) returns (result: string)
    ensures result == CastText(hdr, Exported(events, LimitOf(hdr.idleTimeLimit)))
  {
    hide HeaderLine, RowLine, Outputs, CursorsAt, CastText, Rows, Times;
    result := HeaderLine(hdr) + "\n";
    var limit := 0;
    if hdr.idleTimeLimit > 0.0 {
      limit := Truncated(hdr.idleTimeLimit);
    }
    var cursor := 0;
    var prevRaw := 0;
    var i := 0;
    NoRows(hdr, limit);
    ghost var os: seq<Event> := [];
    OutputsStart(events);
    while i < |events|
      invariant 0 <= i <= |events|
      invariant os == Outputs(events[..i])
      invariant CursorsAt(Times(os), limit, cursor, prevRaw)
      invariant result == CastText(hdr, Rows(os, limit))
    {
      var ev := events[i];
      OutputsStep(events, i);
      i := i + 1;
      if ev.typ == OUTPUT {
        RowAdded(hdr, os, ev, limit, cursor, prevRaw);
        var gap := ev.time - prevRaw;
        if limit > 0 && gap > limit {
          gap := limit;
        }
        cursor := cursor + gap;
        prevRaw := ev.time;
        result := result + RowLine(Event(cursor, ev.typ, ev.data)) + "\n";
        os := os + [ev];
      }
    }
    assert events[..i] == events;
  }

  lemma OutputsStart(es: seq<Event>)
    ensures Outputs(es[..0]) == []
  {
  }

  lemma OutputsStep(es: seq<Event>, i: nat)
    requires i < |es|
    ensures Outputs(es[..i + 1]) == if es[i].typ == OUTPUT then Outputs(es[..i]) + [es[i]] else Outputs(es[..i])
  {
    assert es[..i + 1][..i] == es[..i];
  }

  lemma NoRows(hdr: Header, limit: int)
    ensures CastText(hdr, Rows([], limit)) == HeaderLine(hdr) + "\n" && CursorsAt(Times([]), limit, 0, 0)
  {
    hide HeaderLine;
    var ls := [HeaderLine(hdr)];
    assert CastLines(hdr, Rows([], limit)) == ls;
    assert ls[..0] == [] && Lines(ls[..0]) == "";
    assert Lines(ls) == Lines(ls[..0]) + ls[0] + "\n";
    assert "" + ls[0] == ls[0];
  }

  lemma RowAdded(hdr: Header, os: seq<Event>, e: Event, limit: int, cursor: int, prevRaw: int)
    requires CursorsAt(Times(os), limit, cursor, prevRaw)
    ensures var next := cursor + ClampGap(e.time - prevRaw, limit);
            && CursorsAt(Times(os + [e]), limit, next, e.time)
            && CastText(hdr, Rows(os + [e], limit)) ==
               CastText(hdr, Rows(os, limit)) + RowLine(Event(next, OUTPUT, e.data)) + "\n"
  {
    hide HeaderLine, RowLine;
    var ts := Times(os);
    assert Times(os + [e]) == ts + [e.time];
    forall i | 0 <= i < |os| ensures Cursor(ts + [e.time], limit, i) == Cursor(ts, limit, i) {
      CursorPrefix(ts, [e.time], limit, i);
    }
    var row := Event(cursor + ClampGap(e.time - prevRaw, limit), OUTPUT, e.data);
    assert Rows(os + [e], limit) == Rows(os, limit) + [row];
    var ls := CastLines(hdr, Rows(os, limit));
    assert CastLines(hdr, Rows(os + [e], limit)) == ls + [RowLine(row)];
    assert (ls + [RowLine(row)])[..|ls|] == ls;
  }

  /** The header's limit at work on any recording: a gap between two outputs, or before the
      first, is exported as it is if it is no longer than the limit, and cut to the limit, to
      within a nanosecond, if it is. A limit of zero or less, or below one nanosecond, cuts
      nothing. */
  lemma LimitAtWork(h: Header, es: seq<Event>, i: nat)
    requires i < |Outputs(es)|
    ensures var os, rows := Outputs(es), Exported(es, LimitOf(h.idleTimeLimit));
            var gap := os[i].time - if i == 0 then 0 else os[i - 1].time;
            var step := rows[i].time - if i == 0 then 0 else rows[i - 1].time;
            var limit := h.idleTimeLimit * 1000000000.0;
            && |rows| == |os| && rows[i].data == os[i].data
            && (limit < 1.0 || gap as real <= limit ==> step == gap)
            && (limit >= 1.0 && gap as real > limit ==> limit - 1.0 < step as real <= limit)
  {
    hide Outputs, Exported;
    RowSteps(es, LimitOf(h.idleTimeLimit), i);
  }
}
