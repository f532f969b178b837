/**
 The exec-mode pipeline (internal/api/ws.go, runExecWS) as a step relation over every
 interleaving of its goroutines. Any number of handlers may serve the same session: each has
 its own reader of the one container stream, writer and main loop.
 */
module ExecPipeline {
  import opened Events
  import opened Outbox

  datatype Frame = Output(data: string) | Exit

  /** Program counter of the stream reader. `Sending` and `Exiting` are the two selects,
      `Closing` is past `return`, before the deferred close of `writeCh`. */
  datatype Reader =
    | Reading | Took(chunk: string) | Recorded(chunk: string) | Sending(chunk: string)
    | Exiting | Closing | Closed
  {
    predicate Holds() {
      Took? || Recorded? || Sending?
    }
  }

  /** Program counter of the handler's own goroutine: reading client messages, then `<-done`. */
  datatype Main = Listening | Waiting | Returned

  /** `took`, `sent` and `late` are histories: the chunks this reader took from the stream, the
      frames it put into `writeCh`, and how many chunks it took after its writer had stopped.
      `snap` is the recording that flushEvents read before the handler got here. */
  datatype Handler = Handler(
    reader: Reader, box: Box<Frame>, main: Main, took: seq<string>, sent: seq<Frame>, late: nat, snap: seq<string>)

  /** What a handler's step does outside the handler. */
  datatype Effect = Silent | Takes(chunk: string) | Records(chunk: string)

  /** `taken` is the history of all chunks any reader took, and `authors` of which handler
      recorded each output; `ended` says the stream has failed. */
  datatype Sys = Sys(
    taken: seq<string>, events: seq<Event>, authors: seq<nat>, ended: bool, handlers: seq<Handler>)

  // ---- Steps -----------------------------------------------------------------------

  ghost predicate ReaderStep(ended: bool, h: Handler, e: Effect, h': Handler) {
    match h.reader
    case Reading =>
      || (!ended && e.Takes? &&
          h' == h.(reader := Took(e.chunk), took := h.took + [e.chunk],
                   late := h.late + if h.box.Stopped() then 1 else 0))
      || (ended && e == Silent && h' == h.(reader := Exiting))
    case Took(c) => e == Records(c) && h' == h.(reader := Recorded(c))
    case Recorded(c) => e == Silent && h' == h.(reader := Sending(c))
    case Sending(c) =>
      && e == Silent
      && (|| (h.box.HasRoom() &&
              h' == h.(reader := Reading, box := h.box.Send(Output(c)), sent := h.sent + [Output(c)]))
          || (h.box.doneCloses > 0 && h' == h.(reader := Closing)))
    case Exiting =>
      && e == Silent
      && (|| (h.box.HasRoom() && h' == h.(reader := Closing, box := h.box.Send(Exit), sent := h.sent + [Exit]))
          || (h.box.doneCloses > 0 && h' == h.(reader := Closing)))
    case Closing => e == Silent && h' == h.(reader := Closed, box := h.box.Close())
    case Closed => false
  }

  ghost predicate WriteStep(h: Handler, h': Handler) {
    h' == h.(box := h'.box) && WriterStep(h.box, h'.box)
  }

  /** The socket fails. */
  ghost predicate BreakStep(h: Handler, h': Handler) {
    h.box.up && h' == h.(box := h.box.Break())
  }

  ghost predicate MainStep(h: Handler, h': Handler) {
    match h.main
    case Listening => h' == h.(main := Waiting)
    case Waiting => h.box.doneCloses > 0 && h' == h.(main := Returned)
    case Returned => false
  }

  ghost predicate LocalStep(ended: bool, h: Handler, e: Effect, h': Handler) {
    || ReaderStep(ended, h, e, h')
    || (e == Silent && (WriteStep(h, h') || BreakStep(h, h') || MainStep(h, h')))
  }

  function Started(up: bool, snap: seq<string>): Handler {
    Handler(Reading, Opened(up), Listening, [], [], 0, snap)
  }

  function Outs(s: Sys): seq<string> {
    OutputTexts(s.events)
  }

  ghost predicate HandlerStep(s: Sys, i: nat, e: Effect, t: int, s': Sys) {
    && i < |s.handlers| == |s'.handlers|
    && LocalStep(s.ended, s.handlers[i], e, s'.handlers[i])
    && s'.handlers == s.handlers[i := s'.handlers[i]]
    && s'.ended == s.ended
    && s'.taken == (if e.Takes? then s.taken + [e.chunk] else s.taken)
    && s'.events == (if e.Records? then s.events + [Event(t, OUTPUT, e.chunk)] else s.events)
    && s'.authors == if e.Records? then s.authors + [i] else s.authors
  }

  /** One atomic step: of a handler, of the stream, a new client, or a recorded client message. */
  ghost predicate Step(s: Sys, s': Sys) {
    (exists i: nat, e, t :: HandlerStep(s, i, e, t, s')) || OtherStep(s, s')
  }

  /** A new handler was shown the first `n` outputs, the recording at some earlier moment; if a
      flush write failed it starts with its socket down. */
  ghost predicate ConnectStep(s: Sys, up: bool, n: nat, s': Sys) {
    n <= |Outs(s)| && s' == s.(handlers := s.handlers + [Started(up, Outs(s)[..n])])
  }

  ghost predicate OtherStep(s: Sys, s': Sys) {
    || s' == s.(ended := true)
    || (exists up, n: nat :: ConnectStep(s, up, n, s'))
    || (exists e: Event :: e.typ != OUTPUT && s' == s.(events := s.events + [e]))
  }

  ghost predicate Init(s: Sys) {
    s == Sys([], [], [], false, [])
  }

  ghost predicate IsRun(run: seq<Sys>) {
    var n := |run| - 1;
    n >= 0 && if n == 0 then Init(run[0]) else IsRun(run[..n]) && Step(run[n - 1], run[n])
  }

  // ---- The invariant of one handler ------------------------------------------------

  function Frames(cs: seq<string>): seq<Frame> {
    seq(|cs|, i requires 0 <= i < |cs| => Output(cs[i]))
  }

  function InReader(r: Reader): seq<Frame> {
    if r.Holds() then [Output(r.chunk)] else []
  }

  /** The frames of everything between the stream and the socket, oldest first. */
  function Pipeline(h: Handler): seq<Frame> {
    h.box.written + InWriter(h.box.writer) + h.box.queue + InReader(h.reader)
  }

  ghost predicate HandlerInv(ended: bool, h: Handler) {
    && Carries(h.box, h.sent)
    && h.box.closes == (if h.reader.Closed? then 1 else 0)
    && (h.main.Returned? ==> h.box.doneCloses > 0)
    && (h.reader.Exiting? ==> ended)
    && (if h.reader.Closing? || h.reader.Closed? then
          || (ended && h.sent == Frames(h.took) + [Exit])
          || (h.box.Stopped() && !h.box.up && h.sent <= Frames(h.took))
        else Frames(h.took) == h.sent + InReader(h.reader))
    && LateBound(h)
  }

  ghost predicate LateBound(h: Handler) {
    && h.late <= CAPACITY + 1
    && (!h.box.Stopped() ==> h.late == 0)
    && (!(h.reader.Closing? || h.reader.Closed?) ==> h.late <= |h.box.queue| + |InReader(h.reader)|)
  }

  lemma FramesSnoc(cs: seq<string>, c: string)
    ensures Frames(cs + [c]) == Frames(cs) + [Output(c)]
  {
  }

  lemma ReaderKeeps(ended: bool, h: Handler, e: Effect, h': Handler)
    requires HandlerInv(ended, h) && ReaderStep(ended, h, e, h')
    ensures HandlerInv(ended, h')
  {
    match h.reader
    case Reading =>
      if e.Takes? { FramesSnoc(h.took, e.chunk); }
    case Sending(c) =>
      if h'.reader.Reading? { SendKeeps(h.box, h.sent, Output(c)); }
    case Exiting =>
      if h' != h.(reader := Closing) { SendKeeps(h.box, h.sent, Exit); }
    case Closing => CloseKeeps(h.box, h.sent);
    case _ =>
  }

  lemma LocalKeeps(ended: bool, h: Handler, e: Effect, h': Handler)
    requires HandlerInv(ended, h) && LocalStep(ended, h, e, h')
    ensures HandlerInv(ended, h')
  {
    if ReaderStep(ended, h, e, h') {
      ReaderKeeps(ended, h, e, h');
    } else if WriteStep(h, h') {
      var ok :| h.box.CanWrite(ok) && h'.box == h.box.AfterWrite(ok);
      WriterKeeps(h.box, ok, h.sent);
    }
  }

  // ---- Every run -------------------------------------------------------------------

  /** How many readers hold chunk `c`, read from the stream and not yet recorded. */
  function InHands(hs: seq<Handler>, c: string): nat {
    if hs == [] then 0 else InHands(hs[..|hs| - 1], c) + InHand(hs[|hs| - 1].reader, c)
  }

  function InHand(r: Reader, c: string): nat {
    if r == Took(c) then 1 else 0
  }

  lemma {:induction false} InHandsUpdate(hs: seq<Handler>, i: nat, h: Handler, c: string)
    requires i < |hs|
    ensures InHands(hs[i := h], c) == InHands(hs, c) - InHand(hs[i].reader, c) + InHand(h.reader, c)
  {
    var n := |hs| - 1;
    if i == n {
      assert hs[i := h][..n] == hs[..n];
    } else {
      assert hs[i := h][..n] == hs[..n][i := h];
      InHandsUpdate(hs[..n], i, h, c);
    }
  }

  /** Every copy of a chunk taken from the stream is recorded or in some reader's hand. */
  ghost predicate Conserved(s: Sys, c: string) {
    multiset(OutputTexts(s.events))[c] + InHands(s.handlers, c) == multiset(s.taken)[c]
  }

  /** With at most one reader the recording is the stream, less the chunk in hand. */
  ghost predicate InOrder(s: Sys) {
    && (s.handlers == [] ==> OutputTexts(s.events) == s.taken)
    && (|s.handlers| == 1 ==>
          var r := s.handlers[0].reader;
          OutputTexts(s.events) + (if r.Took? then [r.chunk] else []) == s.taken)
  }

  ghost predicate HandlersInv(ended: bool, hs: seq<Handler>) {
    forall i :: 0 <= i < |hs| ==> HandlerInv(ended, hs[i])
  }

  ghost predicate Inv(s: Sys) {
    && HandlersInv(s.ended, s.handlers)
    && (forall c :: Conserved(s, c))
    && InOrder(s)
  }

  lemma HandlerStepConserves(s: Sys, i: nat, e: Effect, t: int, s': Sys, c: string)
    requires Conserved(s, c) && HandlerStep(s, i, e, t, s')
    ensures Conserved(s', c)
  {
    var h, h' := s.handlers[i], s'.handlers[i];
    EffectOnHand(s.ended, h, e, h', c);
    InHandsUpdate(s.handlers, i, h', c);
    if e.Records? {
      OutputTextsSnoc(s.events, Event(t, OUTPUT, e.chunk));
    }
  }

  lemma EffectOnHand(ended: bool, h: Handler, e: Effect, h': Handler, c: string)
    requires LocalStep(ended, h, e, h')
    ensures InHand(h'.reader, c) - InHand(h.reader, c) ==
            match e {
              case Takes(d) => if d == c then 1 else 0
              case Records(d) => if d == c then -1 else 0
              case Silent => 0
            }
    ensures e.Takes? ==> !h.reader.Took? && h'.reader == Took(e.chunk)
    ensures e.Records? ==> h.reader == Took(e.chunk) && !h'.reader.Took?
    ensures e.Silent? ==> (h.reader.Took? || h'.reader.Took? ==> h.reader == h'.reader)
  {
  }

  lemma HandlerStepKeepsOrder(s: Sys, i: nat, e: Effect, t: int, s': Sys)
    requires InOrder(s) && HandlerStep(s, i, e, t, s')
    ensures InOrder(s')
  {
    EffectOnHand(s.ended, s.handlers[i], e, s'.handlers[i], "");
    if e.Records? {
      OutputTextsSnoc(s.events, Event(t, OUTPUT, e.chunk));
    }
  }

  lemma HandlerStepKeeps(s: Sys, i: nat, e: Effect, t: int, s': Sys)
    requires Inv(s) && HandlerStep(s, i, e, t, s')
    ensures Inv(s')
  {
    LocalKeeps(s.ended, s.handlers[i], e, s'.handlers[i]);
    hide HandlerInv, LocalStep;
    forall c ensures Conserved(s', c) { HandlerStepConserves(s, i, e, t, s', c); }
    HandlerStepKeepsOrder(s, i, e, t, s');
  }

  lemma EndKeeps(s: Sys)
    requires Inv(s)
    ensures Inv(s.(ended := true))
  {
    var s' := s.(ended := true);
    hide OutputTexts, InHands;
    forall c ensures Conserved(s', c) { assert Conserved(s, c); }
    hide Conserved;
    forall i | 0 <= i < |s.handlers| ensures HandlerInv(true, s.handlers[i]) {
      assert HandlerInv(s.ended, s.handlers[i]);
    }
  }

  lemma StartedInv(ended: bool, up: bool, snap: seq<string>)
    ensures HandlerInv(ended, Started(up, snap))
  {
  }

  lemma ConnectKeeps(s: Sys, up: bool, n: nat, s': Sys)
    requires Inv(s) && ConnectStep(s, up, n, s')
    ensures Inv(s')
  {
    hide OutputTexts, HandlerInv;
    assert s'.handlers[..|s.handlers|] == s.handlers;
    StartedInv(s.ended, up, Outs(s)[..n]);
    forall c ensures Conserved(s', c) { assert Conserved(s, c); }
    hide Conserved;
  }

  lemma MessageKeeps(s: Sys, e: Event)
    requires Inv(s) && e.typ != OUTPUT
    ensures Inv(s.(events := s.events + [e]))
  {
    var s' := s.(events := s.events + [e]);
    OutputTextsSnoc(s.events, e);
    hide OutputTexts, InHands, HandlerInv;
    forall c ensures Conserved(s', c) { assert Conserved(s, c); }
  }

  lemma OtherStepKeeps(s: Sys, s': Sys)
    requires Inv(s)
    requires OtherStep(s, s')
    ensures Inv(s')
  {
    hide Inv;
    if s' == s.(ended := true) {
      EndKeeps(s);
    } else if up, n: nat :| ConnectStep(s, up, n, s') {
      ConnectKeeps(s, up, n, s');
    } else {
      var e: Event :| e.typ != OUTPUT && s' == s.(events := s.events + [e]);
      MessageKeeps(s, e);
    }
  }

  lemma StepKeeps(s: Sys, s': Sys)
    requires Inv(s) && Step(s, s')
    ensures Inv(s')
  {
    if i: nat, e, t :| HandlerStep(s, i, e, t, s') {
      HandlerStepKeeps(s, i, e, t, s');
    } else {
      OtherStepKeeps(s, s');
    }
  }

  lemma {:induction false} RunKeeps(run: seq<Sys>)
    requires IsRun(run)
    ensures Inv(run[|run| - 1])
    decreases |run|
  {
    var n := |run| - 1;
    if n == 0 {
      InitInv(run[0]);
    } else {
      RunKeeps(run[..n]);
      StepKeeps(run[n - 1], run[n]);
    }
  }

  lemma InitInv(s: Sys)
    requires Init(s)
    ensures Inv(s)
  {
    forall c ensures Conserved(s, c) {}
  }

  /** Order. With a live writer, what was written, what is in the writer, in `writeCh` and in
      the reader is exactly the frames of all chunks this reader took, and then at most the
      exit notice. The client always has an initial part of that; the exit notice comes last
      and only after the stream ended; and a handler that returns on a socket that never
      failed has delivered everything. */
  lemma {:induction false} ExecOrder(run: seq<Sys>, i: nat)
    requires IsRun(run) && i < |run[|run| - 1].handlers|
    ensures var s := run[|run| - 1]; var h := s.handlers[i]; var all := Frames(h.took) + [Exit];
            && (!h.box.Stopped() ==>
                  Pipeline(h) == if h.reader.Closing? || h.reader.Closed? then all else Frames(h.took))
            && h.box.written <= all
            && (Exit in h.box.written ==> s.ended && h.box.written == all)
            && (h.main.Returned? && h.box.up ==> h.box.written == all)
  {
    RunKeeps(run);
    HandlerOrder(run[|run| - 1].ended, run[|run| - 1].handlers[i]);
  }

  lemma HandlerOrder(ended: bool, h: Handler)
    requires HandlerInv(ended, h)
    ensures var all := Frames(h.took) + [Exit];
            && (!h.box.Stopped() ==>
                  Pipeline(h) == if h.reader.Closing? || h.reader.Closed? then all else Frames(h.took))
            && h.box.written <= all
            && (Exit in h.box.written ==> ended && h.box.written == all)
            && (h.main.Returned? && h.box.up ==> h.box.written == all)
  {
    var all := Frames(h.took) + [Exit];
    WrittenIsPrefix(h.box, h.sent);
    assert h.sent <= all;
    if k :| 0 <= k < |h.box.written| && h.box.written[k] == Exit {
      assert all[k] == Exit;
      if k < |h.took| {
        assert false;
      }
    }
  }

  /** Channels. Nothing is closed twice, and no send or close meets a closed channel; a reader
      whose writer has stopped takes at most 65 more chunks. */
  lemma {:induction false} ExecChannels(run: seq<Sys>, i: nat)
    requires IsRun(run) && i < |run[|run| - 1].handlers|
    ensures var h := run[|run| - 1].handlers[i];
            && h.box.closes <= 1 && h.box.doneCloses <= 1
            && (h.reader.Sending? || h.reader.Exiting? || h.reader.Closing? ==> h.box.closes == 0)
            && (h.box.writer.Leaving? ==> h.box.doneCloses == 0)
            && |h.box.queue| <= CAPACITY
            && h.late <= 65
  {
    RunKeeps(run);
  }

  /** Recording. Nothing read is lost or invented, in any interleaving of readers; with one
      reader the order is kept as well. */
  lemma {:induction false} RecordingConserved(run: seq<Sys>)
    requires IsRun(run)
    ensures var s := run[|run| - 1];
            && (forall c :: Conserved(s, c))
            && (|s.handlers| == 1 && !s.handlers[0].reader.Took? ==> OutputTexts(s.events) == s.taken)
  {
    RunKeeps(run);
  }

  // ---- Progress and termination ----------------------------------------------------

  predicate ReaderCanStep(ended: bool, h: Handler) {
    match h.reader
    case Sending(_) => h.box.HasRoom() || h.box.doneCloses > 0
    case Exiting => h.box.HasRoom() || h.box.doneCloses > 0
    case Closed => false
    case _ => true
  }

  predicate MainCanStep(h: Handler) {
    h.main.Listening? || (h.main.Waiting? && h.box.doneCloses > 0)
  }

  /** The three predicates above say exactly when the step relations have a successor. */
  lemma CanStepIsExact(ended: bool, h: Handler)
    ensures ReaderCanStep(ended, h) <==> exists e, h' :: ReaderStep(ended, h, e, h')
    ensures h.box.WriterCanStep() <==> exists h' :: WriteStep(h, h')
    ensures MainCanStep(h) <==> exists h' :: MainStep(h, h')
  {
    if ReaderCanStep(ended, h) {
      match h.reader
      case Reading =>
        if ended {
          assert ReaderStep(ended, h, Silent, h.(reader := Exiting));
        } else {
          assert ReaderStep(ended, h, Takes(""), h.(reader := Took(""), took := h.took + [""],
                            late := h.late + if h.box.Stopped() then 1 else 0));
        }
      case Took(c) => assert ReaderStep(ended, h, Records(c), h.(reader := Recorded(c)));
      case Recorded(c) => assert ReaderStep(ended, h, Silent, h.(reader := Sending(c)));
      case Sending(c) =>
        if h.box.HasRoom() {
          var h' := h.(reader := Reading, box := h.box.Send(Output(c)), sent := h.sent + [Output(c)]);
          assert ReaderStep(ended, h, Silent, h');
        } else {
          assert ReaderStep(ended, h, Silent, h.(reader := Closing));
        }
      case Exiting =>
        if h.box.HasRoom() {
          assert ReaderStep(ended, h, Silent, h.(reader := Closing, box := h.box.Send(Exit), sent := h.sent + [Exit]));
        } else {
          assert ReaderStep(ended, h, Silent, h.(reader := Closing));
        }
      case Closing => assert ReaderStep(ended, h, Silent, h.(reader := Closed, box := h.box.Close()));
    }
    if h.box.WriterCanStep() {
      assert h.box.CanWrite(false);
      assert WriteStep(h, h.(box := h.box.AfterWrite(false)));
    }
    if MainCanStep(h) {
      assert MainStep(h, h.(main := if h.main.Listening? then Waiting else Returned));
    }
  }

  /** Reader and writer are never both blocked: when neither can move, the pipeline is over.
      (A reader waiting in Stream.Read counts as able to move: the stream decides when.) */
  lemma {:induction false} NoDeadlock(run: seq<Sys>, i: nat)
    requires IsRun(run) && i < |run[|run| - 1].handlers|
    ensures var s := run[|run| - 1]; var h := s.handlers[i];
            && (!ReaderCanStep(s.ended, h) && !h.box.WriterCanStep() ==> h.reader.Closed? && h.box.writer.Gone?)
            && (!ReaderCanStep(s.ended, h) && !h.box.WriterCanStep() && !MainCanStep(h) ==> h.main.Returned?)
  {
    RunKeeps(run);
  }

  function Measure(h: Handler): nat {
    (match h.reader
     case Took(_) => 10
     case Recorded(_) => 9
     case Sending(_) => 8
     case Reading => 5
     case Exiting => 4
     case Closing => 1
     case Closed => 0)
    + 2 * |h.box.queue|
    + (match h.box.writer
       case Writing(_) => 3
       case Receiving => 2
       case Leaving => 1
       case Gone => 0)
    + (match h.main
       case Listening => 2
       case Waiting => 1
       case Returned => 0)
    + if h.box.up then 1 else 0
  }

  lemma WriteStepFalls(h: Handler, h': Handler)
    requires WriteStep(h, h')
    ensures Measure(h') < Measure(h)
  {
  }

  lemma ReaderStepFalls(h: Handler, e: Effect, h': Handler)
    requires ReaderStep(true, h, e, h')
    ensures Measure(h') < Measure(h)
  {
  }

  lemma MeasureFalls(h: Handler, e: Effect, h': Handler)
    requires LocalStep(true, h, e, h')
    ensures Measure(h') < Measure(h)
  {
    hide ReaderStep, WriteStep;
    if ReaderStep(true, h, e, h') {
      ReaderStepFalls(h, e, h');
    } else if WriteStep(h, h') {
      WriteStepFalls(h, h');
    }
  }

  ghost predicate Moves(h: Handler, h': Handler) {
    exists e :: LocalStep(true, h, e, h')
  }

  ghost predicate IsHandlerRun(hs: seq<Handler>) {
    |hs| >= 1 && (|hs| > 1 ==> Moves(hs[0], hs[1]) && IsHandlerRun(hs[1..]))
  }

  /** A handler that can move no more has returned, with each channel closed exactly once. */
  lemma StuckMeansReturned(h: Handler)
    requires HandlerInv(true, h) && forall h' :: !Moves(h, h')
    ensures h.main.Returned? && h.reader.Closed? && h.box.closes == 1 && h.box.doneCloses == 1
  {
    CanStepIsExact(true, h);
    if ReaderCanStep(true, h) {
      var e, h' :| ReaderStep(true, h, e, h');
      assert LocalStep(true, h, e, h') && Moves(h, h');
    }
    if h.box.WriterCanStep() {
      var h' :| WriteStep(h, h');
      assert LocalStep(true, h, Silent, h') && Moves(h, h');
    }
    if MainCanStep(h) {
      var h' :| MainStep(h, h');
      assert LocalStep(true, h, Silent, h') && Moves(h, h');
    }
  }

  lemma {:induction false} HandlerTerminates(hs: seq<Handler>)
    requires IsHandlerRun(hs) && HandlerInv(true, hs[0])
    ensures var h := hs[|hs| - 1];
            && |hs| - 1 + Measure(h) <= Measure(hs[0])
            && ((forall h' :: !Moves(h, h')) ==>
                  h.main.Returned? && h.reader.Closed? && h.box.closes == 1 && h.box.doneCloses == 1)
    decreases |hs|
  {
    if |hs| > 1 {
      var e :| LocalStep(true, hs[0], e, hs[1]);
      LocalKeeps(true, hs[0], e, hs[1]);
      MeasureFalls(hs[0], e, hs[1]);
      HandlerTerminates(hs[1..]);
    } else if forall h' :: !Moves(hs[0], h') {
      StuckMeansReturned(hs[0]);
    }
  }

  /** Once the stream has ended, from any state of any run: every run `hs` of a handler's own
      steps has at most `Measure` of them, and one that cannot be extended ends with the handler
      returned and each channel closed exactly once. */
  lemma {:induction false} ExecTerminates(run: seq<Sys>, i: nat, hs: seq<Handler>)
    requires IsRun(run) && run[|run| - 1].ended && i < |run[|run| - 1].handlers|
    requires IsHandlerRun(hs) && hs[0] == run[|run| - 1].handlers[i]
    ensures var h := hs[|hs| - 1];
            && |hs| - 1 + Measure(h) <= Measure(hs[0])
            && ((forall h' :: !Moves(h, h')) ==>
                  h.main.Returned? && h.reader.Closed? && h.box.closes == 1 && h.box.doneCloses == 1)
  {
    RunKeeps(run);
    hide Measure, Moves, IsHandlerRun, IsRun;
    HandlerTerminates(hs);
  }

  // ---- The seam between replay and live output -------------------------------------

  /** The outputs handler `i` recorded. */
  function Own(outs: seq<string>, authors: seq<nat>, i: nat): seq<string>
    requires |authors| == |outs|
  {
    if outs == [] then []
    else
      var n := |outs| - 1;
      Own(outs[..n], authors[..n], i) + if authors[n] == i then [outs[n]] else []
  }

  lemma OwnSnoc(outs: seq<string>, authors: seq<nat>, i: nat, out: string, author: nat)
    requires |authors| == |outs|
    ensures Own(outs + [out], authors + [author], i) ==
            if author == i then Own(outs, authors, i) + [out] else Own(outs, authors, i)
  {
    assert (outs + [out])[..|outs|] == outs && (authors + [author])[..|outs|] == authors;
  }

  lemma {:induction false} OwnNone(outs: seq<string>, authors: seq<nat>, i: nat)
    requires |authors| == |outs| && i !in authors
    ensures Own(outs, authors, i) == []
  {
    if outs != [] {
      var n := |outs| - 1;
      assert authors[n] in authors && forall a :: a in authors[..n] ==> a in authors;
      OwnNone(outs[..n], authors[..n], i);
    }
  }

  ghost predicate AllFrom(authors: seq<nat>, n: nat, i: nat) {
    forall j :: n <= j < |authors| ==> authors[j] == i
  }

  ghost predicate NoneBefore(authors: seq<nat>, n: nat, i: nat) {
    forall j :: 0 <= j < n && j < |authors| ==> authors[j] != i
  }

  lemma {:induction false} OwnSuffix(outs: seq<string>, authors: seq<nat>, i: nat, n: nat)
    requires n <= |authors| == |outs| && NoneBefore(authors, n, i)
    ensures |Own(outs, authors, i)| <= |outs| - n
    ensures AllFrom(authors, n, i) ==> Own(outs, authors, i) == outs[n..]
    ensures |Own(outs, authors, i)| == |outs| - n ==> AllFrom(authors, n, i)
  {
    if |outs| == n {
      OwnNone(outs, authors, i);
    } else {
      var m := |outs| - 1;
      OwnSuffix(outs[..m], authors[..m], i, n);
      assert outs[n..] == outs[..m][n..] + [outs[m]];
    }
  }

  lemma ReplayJoins(outs: seq<string>, authors: seq<nat>, i: nat, n: nat)
    requires n <= |authors| == |outs| && NoneBefore(authors, n, i)
    ensures outs[..n] + Own(outs, authors, i) == outs <==> AllFrom(authors, n, i)
  {
    OwnSuffix(outs, authors, i, n);
    assert outs == outs[..n] + outs[n..];
  }

  /** The chunk in the reader's hand, taken and not yet recorded. */
  function Unrecorded(r: Reader): seq<string> {
    if r.Took? then [r.chunk] else []
  }

  ghost predicate Authored(s: Sys, i: nat)
    requires i < |s.handlers| && |s.authors| == |Outs(s)|
  {
    var h := s.handlers[i];
    && h.snap <= Outs(s)
    && NoneBefore(s.authors, |h.snap|, i)
    && Own(Outs(s), s.authors, i) + Unrecorded(h.reader) == h.took
  }

  /** Each handler recorded what it took, and nothing before its replay was read. */
  ghost predicate AuthorInv(s: Sys) {
    && |s.authors| == |Outs(s)|
    && (forall j :: 0 <= j < |s.authors| ==> s.authors[j] < |s.handlers|)
    && (forall i :: 0 <= i < |s.handlers| ==> Authored(s, i))
  }

  lemma TakesAndRecords(ended: bool, h: Handler, e: Effect, h': Handler)
    requires LocalStep(ended, h, e, h')
    ensures h'.snap == h.snap
    ensures match e
            case Takes(c) => h'.took == h.took + [c] && Unrecorded(h.reader) == [] && Unrecorded(h'.reader) == [c]
            case Records(c) => h'.took == h.took && Unrecorded(h.reader) == [c] && Unrecorded(h'.reader) == []
            case Silent => h'.took == h.took && Unrecorded(h.reader) == Unrecorded(h'.reader)
  {
  }

  lemma HandlerStepKeepsAuthors(s: Sys, i: nat, e: Effect, t: int, s': Sys)
    requires AuthorInv(s) && HandlerStep(s, i, e, t, s')
    ensures AuthorInv(s')
  {
    TakesAndRecords(s.ended, s.handlers[i], e, s'.handlers[i]);
    if e.Records? {
      OutputTextsSnoc(s.events, Event(t, OUTPUT, e.chunk));
    }
    hide OutputTexts, LocalStep, Own, Authored;
    forall k | 0 <= k < |s'.handlers| ensures Authored(s', k) {
      assert Authored(s, k);
      AuthoredKept(s, i, e, t, s', k);
    }
  }

  lemma AuthoredKept(s: Sys, i: nat, e: Effect, t: int, s': Sys, k: nat)
    requires |s.authors| == |Outs(s)| && k < |s.handlers| && Authored(s, k)
    requires HandlerStep(s, i, e, t, s') && |s'.authors| == |Outs(s')|
    requires e.Records? ==> Outs(s') == Outs(s) + [e.chunk]
    ensures Authored(s', k)
  {
    hide OutputTexts, LocalStep, Own, Unrecorded;
    TakesAndRecords(s.ended, s.handlers[i], e, s'.handlers[i]);
    if e.Records? {
      OwnSnoc(Outs(s), s.authors, k, e.chunk, i);
    } else {
      assert Outs(s') == Outs(s) && s'.authors == s.authors;
    }
  }

  lemma OtherStepKeepsAuthors(s: Sys, s': Sys)
    requires AuthorInv(s) && OtherStep(s, s')
    ensures AuthorInv(s')
  {
    if e: Event :| e.typ != OUTPUT && s' == s.(events := s.events + [e]) {
      OutputTextsSnoc(s.events, e);
    }
    hide OutputTexts, Own;
    assert Outs(s') == Outs(s) && s'.authors == s.authors;
    forall k | 0 <= k < |s'.handlers| ensures Authored(s', k) {
      if k < |s.handlers| {
        assert Authored(s, k);
      } else {
        OwnNone(Outs(s), s.authors, k);
      }
    }
  }

  lemma StepKeepsAuthors(s: Sys, s': Sys)
    requires AuthorInv(s) && Step(s, s')
    ensures AuthorInv(s')
  {
    hide AuthorInv;
    if i: nat, e, t :| HandlerStep(s, i, e, t, s') {
      HandlerStepKeepsAuthors(s, i, e, t, s');
    } else {
      OtherStepKeepsAuthors(s, s');
    }
  }

  lemma NoAuthors(s: Sys)
    requires Init(s)
    ensures AuthorInv(s)
  {
  }

  lemma {:induction false} RunKeepsAuthors(run: seq<Sys>)
    requires IsRun(run)
    ensures AuthorInv(run[|run| - 1])
    decreases |run|
  {
    hide AuthorInv, Step;
    var n := |run| - 1;
    if n == 0 {
      NoAuthors(run[0]);
    } else {
      RunKeepsAuthors(run[..n]);
      StepKeepsAuthors(run[n - 1], run[n]);
    }
  }

  /** The text of the output frames. */
  function Shown(frames: seq<Frame>): seq<string> {
    if frames == [] then []
    else
      var last := frames[|frames| - 1];
      Shown(frames[..|frames| - 1]) + if last.Output? then [last.data] else []
  }

  lemma {:induction false} ShownFrames(cs: seq<string>)
    ensures Shown(Frames(cs)) == cs && Shown(Frames(cs) + [Exit]) == cs
  {
    var fs := Frames(cs);
    assert (fs + [Exit])[..|fs|] == fs;
    if cs != [] {
      var n := |cs| - 1;
      ShownFrames(cs[..n]);
      assert fs[..n] == Frames(cs[..n]);
    }
  }

  /** The seam. For a client whose pipeline is drained and whose writer lives, replay plus live
      output is the recording, without gap or repeat, exactly when no other handler recorded a
      chunk after the replay was read. */
  lemma {:induction false} ExecSeam(run: seq<Sys>, i: nat)
    requires IsRun(run) && i < |run[|run| - 1].handlers|
    requires var h := run[|run| - 1].handlers[i];
             !h.box.Stopped() && !h.reader.Holds() && h.box.written == Pipeline(h)
    ensures var s := run[|run| - 1]; var h := s.handlers[i];
            h.snap + Shown(h.box.written) == Outs(s) <==>
            forall j :: |h.snap| <= j < |s.authors| ==> s.authors[j] == i
  {
    var s := run[|run| - 1];
    ExecOrder(run, i);
    RunKeepsAuthors(run);
    hide IsRun, Own, OutputTexts, Shown, Pipeline, Frames;
    assert Authored(s, i);
    SeamAt(s.handlers[i], Outs(s), s.authors, i);
  }

  lemma SeamAt(h: Handler, outs: seq<string>, authors: seq<nat>, i: nat)
    requires |authors| == |outs| && h.snap <= outs && NoneBefore(authors, |h.snap|, i)
    requires Own(outs, authors, i) == h.took
    requires h.box.written == Frames(h.took) || h.box.written == Frames(h.took) + [Exit]
    ensures h.snap + Shown(h.box.written) == outs <==> AllFrom(authors, |h.snap|, i)
  {
    hide Own, Shown, Frames;
    ShownFrames(h.took);
    ReplayJoins(outs, authors, i, |h.snap|);
    assert outs[..|h.snap|] == h.snap;
  }

  lemma {:induction false} ExtendRun(run: seq<Sys>, s: Sys)
    requires IsRun(run) && Step(run[|run| - 1], s)
    ensures IsRun(run + [s])
  {
    hide Step, Init;
    assert (run + [s])[..|run|] == run;
  }

  /** Two clients of a session that has printed nothing yet, the first one's socket down. */
  lemma TwoClients() returns (run: seq<Sys>)
    ensures run != [] && IsRun(run)
    ensures run[|run| - 1] == Sys([], [], [], false, [Started(false, []), Started(true, [])])
  {
    hide IsRun;
    var s0 := Sys([], [], [], false, []);
    var s1 := s0.(handlers := [Started(false, [])]);
    var s2 := s0.(handlers := [Started(false, []), Started(true, [])]);
    StartRun(s0);
    assert ConnectStep(s0, false, 0, s1) && ConnectStep(s1, true, 0, s2);
    ExtendRun([s0], s1);
    ExtendRun([s0] + [s1], s2);
    run := [s0] + [s1] + [s2];
  }

  lemma StaleReaderSteps(x: string, s: Sys, s': Sys, s'': Sys)
    requires s == Sys([], [], [], false, [Started(false, []), Started(true, [])])
    requires var h := Started(false, []);
             && s' == s.(taken := [x], handlers := [h.(reader := Took(x), took := [x]), Started(true, [])])
             && s'' == s'.(events := [Event(0, OUTPUT, x)], authors := [0],
                           handlers := [h.(reader := Recorded(x), took := [x]), Started(true, [])])
    ensures Step(s, s') && Step(s', s'') && Outs(s'') == [x]
  {
    assert HandlerStep(s, 0, Takes(x), 0, s');
    assert HandlerStep(s', 0, Records(x), 0, s'');
    OutputTextsSnoc([], Event(0, OUTPUT, x));
    assert [] + [Event(0, OUTPUT, x)] == s''.events;
  }

  /** The gap is real: the reader of a client that has gone takes a chunk, and the client that
      has reconnected never sees it. */
  lemma ExecGapWitness(x: string) returns (run: seq<Sys>)
    ensures IsRun(run)
    ensures var s := run[|run| - 1];
            && |s.handlers| == 2 && !s.handlers[0].box.up && s.handlers[1].box.up
            && Outs(s) == [x] && s.handlers[1] == Started(true, [])
  {
    hide IsRun, Step, OutputTexts;
    run := TwoClients();
    var h, live := Started(false, []), Started(true, []);
    var s := run[|run| - 1];
    var s' := s.(taken := [x], handlers := [h.(reader := Took(x), took := [x]), live]);
    var s'' := s'.(events := [Event(0, OUTPUT, x)], authors := [0],
                   handlers := [h.(reader := Recorded(x), took := [x]), live]);
    StaleReaderSteps(x, s, s', s'');
    ExtendRun(run, s');
    run := run + [s'];
    ExtendRun(run, s'');
    run := run + [s''];
  }

  lemma StartRun(s: Sys)
    requires Init(s)
    ensures IsRun([s])
  {
  }

  // ---- Readers whose client has gone -----------------------------------------------

  ghost predicate Overtakes(h: Handler, h': Handler) {
    h.box.Stopped() ==> h'.box.Stopped() && h'.late - h.late == |h'.took| - |h.took|
  }

  lemma LocalOvertakes(ended: bool, h: Handler, e: Effect, h': Handler)
    requires LocalStep(ended, h, e, h')
    ensures Overtakes(h, h')
  {
  }

  lemma StepOvertakes(s: Sys, s': Sys, i: nat)
    requires Step(s, s') && i < |s.handlers|
    ensures i < |s'.handlers| && Overtakes(s.handlers[i], s'.handlers[i])
  {
    hide LocalStep, OutputTexts;
    if j: nat, e, t :| HandlerStep(s, j, e, t, s') {
      if j == i {
        LocalOvertakes(s.ended, s.handlers[i], e, s'.handlers[i]);
      }
    }
  }

  lemma {:induction false} RunOvertakes(run: seq<Sys>, a: nat, i: nat)
    requires IsRun(run) && a < |run| && i < |run[a].handlers| && run[a].handlers[i].box.Stopped()
    ensures i < |run[|run| - 1].handlers| && Overtakes(run[a].handlers[i], run[|run| - 1].handlers[i])
    decreases |run|
  {
    hide Step, Init;
    var n := |run| - 1;
    if a < n {
      RunOvertakes(run[..n], a, i);
      StepOvertakes(run[n - 1], run[n], i);
    }
  }

  /** From any moment at which its writer has stopped, a reader takes at most 65 more chunks from
      the stream, however long the run. */
  lemma {:induction false} FewChunksAfterStop(run: seq<Sys>, a: nat, i: nat)
    requires IsRun(run) && a < |run| && i < |run[a].handlers| && run[a].handlers[i].box.Stopped()
    ensures i < |run[|run| - 1].handlers|
    ensures |run[|run| - 1].handlers[i].took| - |run[a].handlers[i].took| <= 65
  {
    RunOvertakes(run, a, i);
    RunKeeps(run);
  }
}
