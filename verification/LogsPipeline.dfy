/**
 The logs-mode handler (internal/api/ws.go, runLogsWS) in every interleaving of its goroutines:
 the scanner that records each log line and sends its frame, the writer, and the main loop.
 `lines` are the lines the scanner delivers before the log ends or breaks off.
 */
module LogsPipeline {
  import opened Events
  import opened Outbox
  import Logs

  /** Program counter of the scanner goroutine. `Sending` is the select after a line was
      recorded; `Closing` is before the deferred close of `writeCh`. */
  datatype Pump = Scanning | Sending(frame: string) | Closing | Closed

  datatype Main = Listening | Waiting | Returned

  /** `next` counts the lines scanned and `log` is the loop's epoch and the events it recorded;
      `sent` is the history of the frames put into `writeCh`, and `late` counts the lines
      scanned after the writer had stopped. */
  datatype Handler = Handler(
    pump: Pump, box: Box<string>, main: Main, next: nat, log: Logs.State, sent: seq<string>, late: nat)

  datatype Action = ScanLine | Send | Abandon | Finish | CloseOut | Write(ok: bool) | Break | Leave | Return

  /** The log, how its timestamps parse, and the clock that Add reads. */
  datatype Source = Source(lines: seq<string>, parse: Logs.Parser, clock: nat -> int)

  predicate Enabled(src: Source, h: Handler, a: Action) {
    match a
    case ScanLine => h.pump.Scanning? && h.next < |src.lines|
    case Send => h.pump.Sending? && h.box.HasRoom()
    case Abandon => h.pump.Sending? && h.box.doneCloses > 0
    case Finish => h.pump.Scanning? && h.next >= |src.lines|
    case CloseOut => h.pump.Closing?
    case Write(ok) => h.box.CanWrite(ok)
    case Break => h.box.up
    case Leave => h.main.Listening?
    case Return => h.main.Waiting? && h.box.doneCloses > 0
  }

  function Apply(src: Source, h: Handler, a: Action): Handler
    requires Enabled(src, h, a)
  {
    match a
    case ScanLine =>
      var log := Logs.Next(h.log, src.lines[h.next], src.parse, src.clock(h.next));
      h.(pump := Sending(log.events[|log.events| - 1].data), log := log, next := h.next + 1,
         late := h.late + if h.box.Stopped() then 1 else 0)
    case Send => h.(pump := Scanning, box := h.box.Send(h.pump.frame), sent := h.sent + [h.pump.frame])
    case Abandon => h.(pump := Closing)
    case Finish => h.(pump := Closing)
    case CloseOut => h.(pump := Closed, box := h.box.Close())
    case Write(ok) => h.(box := h.box.AfterWrite(ok))
    case Break => h.(box := h.box.Break())
    case Leave => h.(main := Waiting)
    case Return => h.(main := Returned)
  }

  function Started(up: bool): Handler {
    Handler(Scanning, Opened(up), Listening, 0, Logs.State(0, []), [], 0)
  }

  ghost predicate Runs(src: Source, h: Handler, acts: seq<Action>)
    decreases |acts|
  {
    acts == [] || (Enabled(src, h, acts[0]) && Runs(src, Apply(src, h, acts[0]), acts[1..]))
  }

  function After(src: Source, h: Handler, acts: seq<Action>): Handler
    requires Runs(src, h, acts)
    decreases |acts|
  {
    if acts == [] then h else After(src, Apply(src, h, acts[0]), acts[1..])
  }

  // ---- Every run -------------------------------------------------------------------

  function InPump(p: Pump): seq<string> {
    if p.Sending? then [p.frame] else []
  }

  /** What this handler recorded is the conversion of the lines scanned so far. */
  ghost predicate LogInv(src: Source, h: Handler) {
    h.next <= |src.lines| && h.log == Logs.Converted(src.lines[..h.next], src.parse, src.clock)
  }

  ghost predicate FrameInv(src: Source, h: Handler) {
    var frames := Texts(h.log.events);
    && Carries(h.box, h.sent)
    && h.box.closes == (if h.pump.Closed? then 1 else 0)
    && (h.main.Returned? ==> h.box.doneCloses > 0)
    && (if h.pump.Closing? || h.pump.Closed? then
          || (h.next == |src.lines| && h.sent == frames)
          || (h.box.Stopped() && !h.box.up && h.sent <= frames)
        else h.sent + InPump(h.pump) == frames)
  }

  ghost predicate LateBound(h: Handler) {
    && h.late <= CAPACITY + 1
    && (!h.box.Stopped() ==> h.late == 0)
    && (!(h.pump.Closing? || h.pump.Closed?) ==> h.late <= |h.box.queue| + |InPump(h.pump)|)
  }

  ghost predicate Inv(src: Source, h: Handler) {
    LogInv(src, h) && FrameInv(src, h) && LateBound(h)
  }

  lemma ScanKeepsLog(src: Source, h: Handler)
    requires LogInv(src, h) && Enabled(src, h, ScanLine)
    ensures LogInv(src, Apply(src, h, ScanLine))
  {
    assert src.lines[..h.next + 1] == src.lines[..h.next] + [src.lines[h.next]];
    Logs.ConvertedSnoc(src.lines[..h.next], src.lines[h.next], src.parse, src.clock);
  }

  lemma ScanKeepsFrames(src: Source, h: Handler)
    requires LogInv(src, h) && FrameInv(src, h) && LateBound(h) && Enabled(src, h, ScanLine)
    ensures FrameInv(src, Apply(src, h, ScanLine)) && LateBound(Apply(src, h, ScanLine))
  {
    var events' := Apply(src, h, ScanLine).log.events;
    assert events' == h.log.events + [events'[|h.log.events|]];
    TextsAppend(h.log.events, [events'[|h.log.events|]]);
    assert Texts([events'[|h.log.events|]]) == [events'[|h.log.events|].data];
  }

  lemma StepKeeps(src: Source, h: Handler, a: Action)
    requires Inv(src, h) && Enabled(src, h, a)
    ensures Inv(src, Apply(src, h, a))
  {
    if a.ScanLine? {
      ScanKeepsLog(src, h);
      ScanKeepsFrames(src, h);
    } else {
      OtherKeeps(src, h, a);
    }
    hide Apply, Enabled, LogInv, FrameInv, LateBound;
  }

  lemma OtherKeeps(src: Source, h: Handler, a: Action)
    requires Inv(src, h) && Enabled(src, h, a) && !a.ScanLine?
    ensures Inv(src, Apply(src, h, a))
  {
    match a
    case Send => SendKeeps(h.box, h.sent, h.pump.frame);
    case CloseOut => CloseKeeps(h.box, h.sent);
    case Write(ok) => WriterKeeps(h.box, ok, h.sent);
    case Break => BreakKeeps(h.box, h.sent);
    case _ =>
  }

  lemma {:induction false} RunKeeps(src: Source, h: Handler, acts: seq<Action>)
    requires Inv(src, h) && Runs(src, h, acts)
    ensures Inv(src, After(src, h, acts))
    decreases |acts|
  {
    hide Inv;
    if acts != [] {
      StepKeeps(src, h, acts[0]);
      RunKeeps(src, Apply(src, h, acts[0]), acts[1..]);
    }
  }

  lemma StartedInv(src: Source, up: bool)
    ensures Inv(src, Started(up))
  {
    Logs.NothingConverted(src.parse, src.clock);
    assert src.lines[..0] == [];
  }

  /** Converting more lines only adds events. */
  lemma {:induction false} ConversionGrows(lines: seq<string>, k: nat, parse: Logs.Parser, clock: nat -> int)
    requires k <= |lines|
    ensures Logs.Converted(lines[..k], parse, clock).events <= Logs.Converted(lines, parse, clock).events
    decreases |lines| - k
  {
    if k == |lines| {
      assert lines[..k] == lines;
    } else {
      assert lines[..k + 1] == lines[..k] + [lines[k]];
      Logs.ConvertedSnoc(lines[..k], lines[k], parse, clock);
      ConversionGrows(lines, k + 1, parse, clock);
    }
  }

  /** Order. In every run the handler records the conversion of the lines scanned. With a live
      writer, what was written, what is in the writer, in `writeCh` and in the scanner's hand is
      exactly the data of what was recorded; the client always has an initial part of the
      converted log, and all of it if the handler returned on a socket that never failed. */
  lemma {:induction false} LogsOrder(src: Source, up: bool, acts: seq<Action>)
    requires Runs(src, Started(up), acts)
    ensures var h := After(src, Started(up), acts);
            var all := Texts(Logs.Converted(src.lines, src.parse, src.clock).events);
            && h.next <= |src.lines| && h.log == Logs.Converted(src.lines[..h.next], src.parse, src.clock)
            && (!h.box.Stopped() ==>
                  h.box.written + InWriter(h.box.writer) + h.box.queue + InPump(h.pump) == Texts(h.log.events))
            && h.box.written <= all
            && (h.main.Returned? && h.box.up ==> h.box.written == all)
  {
    StartedInv(src, up);
    RunKeeps(src, Started(up), acts);
    var h := After(src, Started(up), acts);
    OrderAt(src, h);
  }

  lemma OrderAt(src: Source, h: Handler)
    requires Inv(src, h)
    ensures var all := Texts(Logs.Converted(src.lines, src.parse, src.clock).events);
            && (!h.box.Stopped() ==>
                  h.box.written + InWriter(h.box.writer) + h.box.queue + InPump(h.pump) == Texts(h.log.events))
            && h.box.written <= all
            && (h.main.Returned? && h.box.up ==> h.box.written == all)
  {
    hide Logs.Converted, Texts;
    ConversionGrows(src.lines, h.next, src.parse, src.clock);
    TextsPrefix(h.log.events, Logs.Converted(src.lines, src.parse, src.clock).events);
    WrittenIsPrefix(h.box, h.sent);
    assert src.lines[..|src.lines|] == src.lines;
    assert h.sent <= Texts(h.log.events);
  }

  lemma TextsPrefix(a: seq<Event>, b: seq<Event>)
    requires a <= b
    ensures Texts(a) <= Texts(b)
  {
  }

  /** Channels. Each is closed at most once and never sent to after; and once the writer has
      stopped the scanner records at most 65 more lines. */
  lemma {:induction false} LogsChannels(src: Source, up: bool, acts: seq<Action>)
    requires Runs(src, Started(up), acts)
    ensures var h := After(src, Started(up), acts);
            && h.box.closes <= 1 && h.box.doneCloses <= 1
            && (h.pump.Sending? || h.pump.Closing? ==> h.box.closes == 0)
            && (h.box.writer.Leaving? ==> h.box.doneCloses == 0)
            && |h.box.queue| <= CAPACITY
            && h.late <= 65
  {
    StartedInv(src, up);
    RunKeeps(src, Started(up), acts);
  }

  /** Scanner and writer are never both blocked, short of the scanner waiting for a line. */
  lemma {:induction false} LogsNoDeadlock(src: Source, up: bool, acts: seq<Action>)
    requires Runs(src, Started(up), acts)
    ensures var h := After(src, Started(up), acts);
            && (h.pump.Sending? ==> h.box.WriterCanStep() || Enabled(src, h, Send) || Enabled(src, h, Abandon))
            && (h.pump.Closed? && !h.box.WriterCanStep() ==> h.box.doneCloses == 1)
  {
    StartedInv(src, up);
    RunKeeps(src, Started(up), acts);
  }

  // ---- Termination -----------------------------------------------------------------

  function Measure(src: Source, h: Handler): nat
    requires h.next <= |src.lines|
  {
    8 * (|src.lines| - h.next)
    + (match h.pump case Sending(_) => 5 case Scanning => 2 case Closing => 1 case Closed => 0)
    + 2 * |h.box.queue|
    + (match h.box.writer case Writing(_) => 3 case Receiving => 2 case Leaving => 1 case Gone => 0)
    + (match h.main case Listening => 2 case Waiting => 1 case Returned => 0)
    + if h.box.up then 1 else 0
  }

  lemma MeasureFalls(src: Source, h: Handler, a: Action)
    requires h.next <= |src.lines| && Enabled(src, h, a)
    ensures Apply(src, h, a).next <= |src.lines| && Measure(src, Apply(src, h, a)) < Measure(src, h)
  {
    hide Logs.Next;
  }

  /** With no step left the handler has returned and each channel has been closed once. */
  lemma StuckMeansReturned(src: Source, h: Handler)
    requires Inv(src, h) && forall a :: !Enabled(src, h, a)
    ensures h.main.Returned? && h.pump.Closed? && h.box.closes == 1 && h.box.doneCloses == 1
  {
    assert !Enabled(src, h, ScanLine) && !Enabled(src, h, Send) && !Enabled(src, h, Abandon);
    assert !Enabled(src, h, Finish) && !Enabled(src, h, CloseOut) && !Enabled(src, h, Write(false));
    assert !Enabled(src, h, Leave) && !Enabled(src, h, Return);
  }

  lemma {:induction false} RunFalls(src: Source, h: Handler, acts: seq<Action>)
    requires h.next <= |src.lines| && Runs(src, h, acts)
    ensures After(src, h, acts).next <= |src.lines|
    ensures |acts| + Measure(src, After(src, h, acts)) <= Measure(src, h)
    decreases |acts|
  {
    hide Enabled, Apply, Measure;
    if acts != [] {
      MeasureFalls(src, h, acts[0]);
      RunFalls(src, Apply(src, h, acts[0]), acts[1..]);
    }
  }

  /** Over a log that ends, every run of the handler is bounded by its length, and one that
      cannot go on has returned with each channel closed exactly once. */
  lemma {:induction false} LogsTerminate(src: Source, up: bool, acts: seq<Action>)
    requires Runs(src, Started(up), acts)
    ensures |acts| <= 8 * |src.lines| + 7
    ensures var h := After(src, Started(up), acts);
            (forall a :: !Enabled(src, h, a)) ==>
              h.main.Returned? && h.pump.Closed? && h.box.closes == 1 && h.box.doneCloses == 1
  {
    StartedInv(src, up);
    RunKeeps(src, Started(up), acts);
    RunFalls(src, Started(up), acts);
    var h := After(src, Started(up), acts);
    if forall a :: !Enabled(src, h, a) {
      StuckMeansReturned(src, h);
    }
  }

  /** Once the writer has stopped, at most 65 more lines are scanned and recorded. */
  lemma {:induction false} FewLinesAfterStop(src: Source, up: bool, before: seq<Action>, acts: seq<Action>)
    requires Runs(src, Started(up), before) && After(src, Started(up), before).box.Stopped()
    requires Runs(src, After(src, Started(up), before), acts)
    ensures After(src, After(src, Started(up), before), acts).next - After(src, Started(up), before).next <= 65
  {
    StartedInv(src, up);
    RunKeeps(src, Started(up), before);
    var h := After(src, Started(up), before);
    RunKeeps(src, h, acts);
    LateIsScanned(src, h, acts);
  }

  lemma {:induction false} LateIsScanned(src: Source, h: Handler, acts: seq<Action>)
    requires Runs(src, h, acts) && h.box.Stopped()
    ensures var h' := After(src, h, acts); h'.late - h.late == h'.next - h.next && h'.box.Stopped()
    decreases |acts|
  {
    hide Logs.Next;
    if acts != [] {
      LateIsScanned(src, Apply(src, h, acts[0]), acts[1..]);
    }
  }
}
