/**
 Turning timestamped container logs into a recording: the CLI converter
 (cmd/cternal/logscast.go, runLogscast) and the logs-mode handler (internal/api/ws.go,
 runLogsWS). Instants are nanoseconds since the zero time.Time, so `epoch == 0` is IsZero.
 */
module Logs {
  import opened Events
  import opened Clamp
  import opened Crlf
  import opened Scanner
  import opened Cast
  import opened Wrappers

  /** Both loops give the scanner a 1 MiB buffer. */
  const MAX_LINE: nat := 1048576

  /** time.Parse(time.RFC3339Nano, .) as a partial function. */
  type Parser = string -> Option<int>

  /** time.Time.Sub saturates at the ends of a 64-bit duration. */
  function Sub(t: int, u: int): (d: int)
    ensures -0x8000_0000_0000_0000 <= d <= 0x7FFF_FFFF_FFFF_FFFF
    ensures (t - u > d ==> d == 0x7FFF_FFFF_FFFF_FFFF) && (t - u < d ==> d == -0x8000_0000_0000_0000)
  {
    if t - u > 0x7FFF_FFFF_FFFF_FFFF then 0x7FFF_FFFF_FFFF_FFFF
    else if t - u < -0x8000_0000_0000_0000 then -0x8000_0000_0000_0000
    else t - u
  }

  function IndexOfSpace(line: string): (k: nat)
    ensures k <= |line| && (k < |line| ==> line[k] == ' ')
    ensures forall j :: 0 <= j < k ==> line[j] != ' '
  {
    if line == "" || line[0] == ' ' then 0 else 1 + IndexOfSpace(line[1..])
  }

  datatype Stamped = Stamped(ts: int, message: string)

  /** The timestamp before the first space, if there is one and it parses. */
  function SplitStamp(line: string, parse: Parser): Option<Stamped> {
    var k := IndexOfSpace(line);
    if 0 < k < |line| && parse(line[..k]).Some? then Some(Stamped(parse(line[..k]).value, line[k + 1..])) else None
  }

  /** A line splits exactly at its first space, and only if what precedes it is a timestamp. */
  lemma SplitAtFirstSpace(stamp: string, message: string, parse: Parser)
    requires ' ' !in stamp
    ensures SplitStamp(stamp + " " + message, parse) ==
            if stamp != "" && parse(stamp).Some? then Some(Stamped(parse(stamp).value, message)) else None
    ensures SplitStamp(stamp, parse) == None
  {
    var line := stamp + " " + message;
    assert line[|stamp|] == ' ';
    forall j | 0 <= j < |stamp| ensures line[j] != ' ' { assert line[j] == stamp[j]; }
    assert IndexOfSpace(line) == |stamp|;
    assert line[..|stamp|] == stamp && line[|stamp| + 1..] == message;
    hide IndexOfSpace;
  }

  /** `epoch` is the first timestamp seen, or zero. */
  datatype State = State(epoch: int, events: seq<Event>)

  /** Converting one line; `now` is the clock reading Add would take. */
  function Next(s: State, line: string, parse: Parser, now: int): State {
    var stamp := SplitStamp(line, parse);
    var epoch := if stamp.Some? && s.epoch == 0 then stamp.value.ts else s.epoch;
    var elapsed := if stamp.Some? then Sub(stamp.value.ts, epoch) else 0;
    var display := if stamp.Some? then stamp.value.message else line;
    State(epoch, s.events + [Event(if epoch != 0 then elapsed else now, OUTPUT, NormalizeLF(display + "\n"))])
  }

  function Converted(lines: seq<string>, parse: Parser, clock: nat -> int): (s: State)
    ensures |s.events| == |lines|
  {
    if lines == [] then State(0, [])
    else
      var n := |lines| - 1;
      Next(Converted(lines[..n], parse, clock), lines[n], parse, clock(n))
  }

  // ---- The two loops ---------------------------------------------------------------

  lemma ConvertedSnoc(lines: seq<string>, line: string, parse: Parser, clock: nat -> int)
    ensures Converted(lines + [line], parse, clock) == Next(Converted(lines, parse, clock), line, parse, clock(|lines|))
  {
    assert (lines + [line])[..|lines|] == lines;
  }

  /** The line loop of runLogscast; a scanner error loses everything. */
  method RecordLogs(logs: string, parse: Parser, clock: nat -> int) returns (recorded: Option<seq<Event>>)
    ensures recorded == if Scan(logs, MAX_LINE).tooLong then None
                        else Some(Converted(Scan(logs, MAX_LINE).lines, parse, clock).events)
  {
    hide Utf8Length, NormalizeLF, SplitStamp, Scan, LineEnd, AfterLine, DropCR, Converted;
    var rest := logs;
    var epoch := 0;
    var events: seq<Event> := [];
    ghost var done: seq<string> := [];
    NothingConverted(parse, clock);
    while rest != ""
      invariant Scan(logs, MAX_LINE) == Scanned(done + Scan(rest, MAX_LINE).lines, Scan(rest, MAX_LINE).tooLong)
      invariant State(epoch, events) == Converted(done, parse, clock)
      decreases |rest|
    {
      var raw := rest[..LineEnd(rest)];
      if Utf8Length(raw) >= MAX_LINE {
        ScanStops(rest, MAX_LINE);
        return None;
      }
      var line := DropCR(raw);
      ScanStep(rest, MAX_LINE);
      rest := AfterLine(rest);
      var display := line;
      var elapsed := 0;
      var stamp := SplitStamp(line, parse);
      if stamp.Some? {
        if epoch == 0 {
          epoch := stamp.value.ts;
        }
        elapsed := Sub(stamp.value.ts, epoch);
        display := stamp.value.message;
      }
      var data := NormalizeLF(display + "\n");
      ConvertedSnoc(done, line, parse, clock);
      if epoch != 0 {
        events := events + [Event(elapsed, OUTPUT, data)];
      } else {
        events := events + [Event(clock(|events|), OUTPUT, data)];
      }
      done := done + [line];
    }
    NothingToScan(MAX_LINE);
    assert done + [] == done;
    recorded := Some(events);
  }

  lemma NothingConverted(parse: Parser, clock: nat -> int)
    ensures Converted([], parse, clock) == State(0, [])
  {
  }

  /** runLogscast: the recording exported under the CLI's fixed terminal size. */
  method RunLogscast(logs: string, parse: Parser, clock: nat -> int, idleLimit: real) returns (cast: Option<string>)
    ensures cast.None? <==> Scan(logs, MAX_LINE).tooLong
    ensures var events := Converted(Scan(logs, MAX_LINE).lines, parse, clock).events;
            cast.Some? ==>
              cast.value == CastText(Header(220, 50, 0, "", idleLimit, None), Exported(events, LimitOf(idleLimit)))
  {
    hide *;
    var recorded := RecordLogs(logs, parse, clock);
    if recorded.None? {
      return None;
    }
    var text := Marshal(Header(220, 50, 0, "", idleLimit, None), recorded.value);
    cast := Some(text);
  }

  /** The scanner goroutine of runLogsWS over the lines it is given: it records each line and
      queues its frame, or leaves if the select at line `i` takes the done branch, `quits(i)`.
      What it records is what the CLI loop records for the same lines. LogsPipeline.dfy has the
      same loop among the other goroutines. */
  method LogsPump(lines: seq<string>, parse: Parser, clock: nat -> int, quits: nat -> bool)
    returns (events: seq<Event>, frames: seq<string>)
    ensures |frames| <= |events| <= |lines|
    ensures events == Converted(lines[..|events|], parse, clock).events
    ensures frames == Texts(events)[..|frames|]
    ensures |frames| == |events| == |lines| || (|events| == |frames| + 1 && quits(|frames|))
    ensures forall i :: 0 <= i < |frames| ==> !quits(i)
  {
    hide NormalizeLF, SplitStamp, Converted;
    NothingConverted(parse, clock);
    var epoch := 0;
    events, frames := [], [];
    var i := 0;
    while i < |lines|
      invariant 0 <= i <= |lines| && |events| == i
      invariant State(epoch, events) == Converted(lines[..i], parse, clock)
      invariant frames == Texts(events)
      invariant |frames| == |events|
      invariant forall j :: 0 <= j < i ==> !quits(j)
    {
      var line := lines[i];
      var display := line;
      var elapsed := 0;
      var stamp := SplitStamp(line, parse);
      if stamp.Some? {
        if epoch == 0 {
          epoch := stamp.value.ts;
        }
        elapsed := Sub(stamp.value.ts, epoch);
        display := stamp.value.message;
      }
      var data := NormalizeLF(display + "\n");
      var e := Event(if epoch != 0 then elapsed else clock(i), OUTPUT, data);
      events := events + [e];
      ConvertedSnoc(lines[..i], line, parse, clock);
      assert lines[..i + 1] == lines[..i] + [line];
      i := i + 1;
      if quits(i - 1) {
        return;
      }
      frames := frames + [data];
    }
    assert lines[..i] == lines;
  }

  // ---- Timestamped logs ------------------------------------------------------------

  ghost predicate AllStamped(lines: seq<string>, parse: Parser) {
    forall i :: 0 <= i < |lines| ==> SplitStamp(lines[i], parse).Some?
  }

  function Stamp(lines: seq<string>, parse: Parser, i: nat): int
    requires i < |lines| && SplitStamp(lines[i], parse).Some?
  {
    SplitStamp(lines[i], parse).value.ts
  }

  /** A message without one trailing CR, ended by CRLF. */
  function DataOf(message: string): string {
    (if EndsInCR(message) then message[..|message| - 1] else message) + CRLF
  }

  lemma {:induction false} StampedEvents(lines: seq<string>, parse: Parser, clock: nat -> int)
    requires AllStamped(lines, parse) && (lines != [] ==> Stamp(lines, parse, 0) != 0)
    requires forall l :: l in lines ==> LF !in l
    ensures var s := Converted(lines, parse, clock);
            && (lines != [] ==> s.epoch == Stamp(lines, parse, 0))
            && forall i :: 0 <= i < |lines| ==>
                 s.events[i] == Event(Sub(Stamp(lines, parse, i), Stamp(lines, parse, 0)), OUTPUT,
                                      DataOf(SplitStamp(lines[i], parse).value.message))
  {
    hide NormalizeLF, DataOf, SplitStamp, Sub;
    if lines != [] {
      var n := |lines| - 1;
      assert forall l :: l in lines[..n] ==> l in lines;
      StampedEvents(lines[..n], parse, clock);
      var message := SplitStamp(lines[n], parse).value.message;
      assert LF !in message by {
        assert lines[n] in lines;
        MessageIsSuffix(lines[n], parse);
      }
      MessageData(message);
    }
  }

  lemma MessageIsSuffix(line: string, parse: Parser)
    requires SplitStamp(line, parse).Some?
    ensures forall c :: c in SplitStamp(line, parse).value.message ==> c in line
  {
    hide IndexOfSpace;
  }

  lemma MessageData(message: string)
    requires LF !in message
    ensures NormalizeLF(message + "\n") == DataOf(message)
  {
    LineData(message);
  }

  /** Logs whose every line carries a timestamp, the first not the zero time, the timestamps
      sorted and within the range of a duration: line i is recorded at its timestamp less the
      first, and the exported rows step by the timestamp gaps, each cut to the limit. */
  lemma LogsKeepTheirTiming(lines: seq<string>, parse: Parser, clock: nat -> int, limit: int, i: nat)
    requires AllStamped(lines, parse) && i < |lines| && Stamp(lines, parse, 0) != 0
    requires forall l :: l in lines ==> LF !in l
    requires forall j, k :: 0 <= j <= k < |lines| ==>
               0 <= Stamp(lines, parse, k) - Stamp(lines, parse, j) <= 0x7FFF_FFFF_FFFF_FFFF
    ensures var es := Converted(lines, parse, clock).events; var rows := Exported(es, limit);
            && |rows| == |lines|
            && es[i] == Event(Stamp(lines, parse, i) - Stamp(lines, parse, 0), OUTPUT,
                              DataOf(SplitStamp(lines[i], parse).value.message))
            && rows[i].data == es[i].data
            && rows[0].time == 0
            && (i > 0 ==> rows[i].time - rows[i - 1].time ==
                            ClampGap(Stamp(lines, parse, i) - Stamp(lines, parse, i - 1), limit))
  {
    hide SplitStamp, DataOf, Converted, Exported, Outputs;
    StampedEvents(lines, parse, clock);
    var es := Converted(lines, parse, clock).events;
    assert es[i].time == Stamp(lines, parse, i) - Stamp(lines, parse, 0);
    assert i > 0 ==> es[i - 1].time == Stamp(lines, parse, i - 1) - Stamp(lines, parse, 0);
    assert es[0].time == 0;
    OutputRows(es, limit, i);
  }

  // ---- Logs with and without timestamps --------------------------------------------

  /** A line that can set the epoch: stamped, and not with the zero time. */
  predicate Dated(line: string, parse: Parser) {
    SplitStamp(line, parse).Some? && SplitStamp(line, parse).value.ts != 0
  }

  function FirstDated(lines: seq<string>, parse: Parser): (k: nat)
    ensures k <= |lines| && (k < |lines| ==> Dated(lines[k], parse))
    ensures forall j :: 0 <= j < k ==> !Dated(lines[j], parse)
  {
    if lines == [] || Dated(lines[0], parse) then 0 else 1 + FirstDated(lines[1..], parse)
  }

  /** When line `i` is recorded: by the clock before the first dated line; from there on by its
      own timestamp, or at zero if it has none. */
  function TimeOf(lines: seq<string>, parse: Parser, clock: nat -> int, i: nat): int
    requires i < |lines|
  {
    var k := FirstDated(lines, parse);
    if i < k then clock(i)
    else if SplitStamp(lines[i], parse).Some? then Sub(Stamp(lines, parse, i), Stamp(lines, parse, k))
    else 0
  }

  lemma FirstDatedSnoc(lines: seq<string>, line: string, parse: Parser)
    ensures FirstDated(lines + [line], parse) ==
            if FirstDated(lines, parse) < |lines| || Dated(line, parse) then FirstDated(lines, parse) else |lines| + 1
  {
    hide Dated;
    var w := lines + [line];
    var k, j := FirstDated(lines, parse), FirstDated(w, parse);
    assert w[|lines|] == line && forall m :: 0 <= m < |lines| ==> w[m] == lines[m];
    assert k < |lines| ==> Dated(w[k], parse);
    assert j < |lines| ==> Dated(lines[j], parse);
  }

  lemma {:induction false} RecordedTimes(lines: seq<string>, parse: Parser, clock: nat -> int)
    ensures var s := Converted(lines, parse, clock); var k := FirstDated(lines, parse);
            && s.epoch == (if k < |lines| then Stamp(lines, parse, k) else 0)
            && forall i :: 0 <= i < |lines| ==> s.events[i].time == TimeOf(lines, parse, clock, i)
  {
    hide NormalizeLF, SplitStamp, FirstDated, Sub;
    if lines != [] {
      var n := |lines| - 1;
      RecordedTimes(lines[..n], parse, clock);
      assert lines == lines[..n] + [lines[n]];
      FirstDatedSnoc(lines[..n], lines[n], parse);
    }
  }

  /** Clock readings before the first dated line go forward, and not past zero if there is one. */
  ghost predicate ClockFits(lines: seq<string>, parse: Parser, clock: nat -> int) {
    var k := FirstDated(lines, parse);
    && (forall i, j :: 0 <= i <= j < k ==> clock(i) <= clock(j))
    && (k < |lines| ==> forall i :: 0 <= i < k ==> clock(i) <= 0)
  }

  /** From the first dated line on, stamps go forward, and no line without a stamp follows one
      stamped later than the first. */
  ghost predicate StampsFit(lines: seq<string>, parse: Parser) {
    var k := FirstDated(lines, parse);
    forall i, j :: k <= i <= j < |lines| && SplitStamp(lines[i], parse).Some? ==>
      Sub(Stamp(lines, parse, i), Stamp(lines, parse, k)) <=
      if SplitStamp(lines[j], parse).Some? then Sub(Stamp(lines, parse, j), Stamp(lines, parse, k)) else 0
  }

  /** When a recorded log is in time order, for any lines, stamped or not, any parser and any
      clock: exactly when the lines before the first timestamp were recorded in order and not
      after zero, the timestamps never go back, and no line without one follows a later one. */
  lemma MixedLogSorted(lines: seq<string>, parse: Parser, clock: nat -> int)
    ensures NonDecreasing(Times(Converted(lines, parse, clock).events)) <==>
            ClockFits(lines, parse, clock) && StampsFit(lines, parse)
  {
    RecordedTimes(lines, parse, clock);
    var ts := Times(Converted(lines, parse, clock).events);
    assert forall i :: 0 <= i < |lines| ==> ts[i] == TimeOf(lines, parse, clock, i);
    hide Converted, SplitStamp, FirstDated;
    if NonDecreasing(ts) {
      SortedFits(lines, parse, clock, ts);
    }
    if ClockFits(lines, parse, clock) && StampsFit(lines, parse) {
      FitsSorted(lines, parse, clock, ts);
    }
  }

  lemma SortedFits(lines: seq<string>, parse: Parser, clock: nat -> int, ts: seq<int>)
    requires |ts| == |lines| && forall i :: 0 <= i < |lines| ==> ts[i] == TimeOf(lines, parse, clock, i)
    requires NonDecreasing(ts)
    ensures ClockFits(lines, parse, clock) && StampsFit(lines, parse)
  {
    hide SplitStamp, FirstDated;
    var k := FirstDated(lines, parse);
    forall i, j | 0 <= i <= j < k ensures clock(i) <= clock(j) { assert ts[i] <= ts[j]; }
    forall i | 0 <= i < k && k < |lines| ensures clock(i) <= 0 { assert ts[i] <= ts[k]; }
    forall i, j | k <= i <= j < |lines| && SplitStamp(lines[i], parse).Some?
      ensures Sub(Stamp(lines, parse, i), Stamp(lines, parse, k)) <=
              if SplitStamp(lines[j], parse).Some? then Sub(Stamp(lines, parse, j), Stamp(lines, parse, k)) else 0
    {
      assert ts[i] <= ts[j];
    }
  }

  lemma FitsSorted(lines: seq<string>, parse: Parser, clock: nat -> int, ts: seq<int>)
    requires |ts| == |lines| && forall i :: 0 <= i < |lines| ==> ts[i] == TimeOf(lines, parse, clock, i)
    requires ClockFits(lines, parse, clock) && StampsFit(lines, parse)
    ensures NonDecreasing(ts)
  {
    hide SplitStamp, FirstDated;
    var k := FirstDated(lines, parse);
    forall i, j | 0 <= i <= j < |lines| ensures ts[i] <= ts[j] {
      if j >= k {
        assert Sub(Stamp(lines, parse, k), Stamp(lines, parse, k)) == 0;
        assert ts[j] >= 0;
      }
    }
  }

  function SampleParser(s: string): Option<int> {
    if s == "1" then Some(1) else if s == "2" then Some(2) else None
  }

  /** A line without a timestamp after two with one sends the recording back to zero. */
  lemma MixedLogWitness(clock: nat -> int)
    ensures Times(Converted(["1 a", "2 b", "c"], SampleParser, clock).events) == [0, 1, 0]
  {
    var lines := ["1 a", "2 b", "c"];
    assert "1 a" == "1" + " " + "a" && "2 b" == "2" + " " + "b";
    SplitAtFirstSpace("1", "a", SampleParser);
    SplitAtFirstSpace("2", "b", SampleParser);
    SplitAtFirstSpace("c", "", SampleParser);
    assert Dated(lines[0], SampleParser);
    hide SplitStamp, Converted, SampleParser;
    RecordedTimes(lines, SampleParser, clock);
  }

  // ---- What the lines show ---------------------------------------------------------

  /** What is shown of a line: the message after its timestamp, or the whole line. */
  function Shown(line: string, parse: Parser): string {
    if SplitStamp(line, parse).Some? then SplitStamp(line, parse).value.message else line
  }

  /** Every line, stamped or not, is recorded as one output: what is shown of it, without one
      trailing CR, ended by CRLF. */
  lemma {:induction false} RecordedData(lines: seq<string>, parse: Parser, clock: nat -> int, i: nat)
    requires i < |lines| && forall l :: l in lines ==> LF !in l
    ensures var e := Converted(lines, parse, clock).events[i];
            e.typ == OUTPUT && e.data == DataOf(Shown(lines[i], parse))
  {
    hide NormalizeLF, DataOf;
    var n := |lines| - 1;
    if i < n {
      assert forall l :: l in lines[..n] ==> l in lines;
      RecordedData(lines[..n], parse, clock, i);
    } else {
      assert lines[n] in lines;
      MessageData(Shown(lines[n], parse));
    }
  }

  lemma {:induction false} FirstLineEnd(t: string)
    ensures LF !in t[..LineEnd(t)]
  {
    if t != "" && t[0] != LF {
      FirstLineEnd(t[1..]);
      assert t[..LineEnd(t)] == [t[0]] + t[1..][..LineEnd(t[1..])];
    }
  }

  lemma {:induction false} ScannedLinesHaveNoLF(t: string, max: nat)
    ensures forall l :: l in Scan(t, max).lines ==> LF !in l
    decreases |t|
  {
    hide Utf8Length, LineEnd;
    if t != "" && Utf8Length(t[..LineEnd(t)]) < max {
      FirstLineEnd(t);
      ScannedLinesHaveNoLF(AfterLine(t), max);
    }
  }

  /** So both loops record what each scanned line of any log shows. */
  lemma LogShown(logs: string, parse: Parser, clock: nat -> int, i: nat)
    requires i < |Scan(logs, MAX_LINE).lines|
    ensures var lines := Scan(logs, MAX_LINE).lines;
            Converted(lines, parse, clock).events[i].data == DataOf(Shown(lines[i], parse))
  {
    ScannedLinesHaveNoLF(logs, MAX_LINE);
    RecordedData(Scan(logs, MAX_LINE).lines, parse, clock, i);
  }
}
