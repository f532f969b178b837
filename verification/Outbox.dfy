/**
 The sending half every WebSocket handler shares: a 64-slot `writeCh`, the goroutine that
 writes its frames to the socket, and the `done` channel that goroutine closes
 (internal/api/ws.go, the first goroutine of runExecWS, runAttachWS and runLogsWS).
 */
module Outbox {

  const CAPACITY: nat := 64

  /** Program counter of the writer. `Leaving` is past `return`, before the deferred close. */
  datatype Writer<F> = Receiving | Writing(frame: F) | Leaving | Gone

  /** `closes` and `doneCloses` count the closes of `writeCh` and `done`; closing twice, or
      sending after a close, would be a run-time panic. `up` is the socket: once a write has
      failed it stays failed. */
  datatype Box<F> = Box(
    queue: seq<F>, closes: nat, writer: Writer<F>, doneCloses: nat, up: bool, written: seq<F>)
  {
    predicate Stopped() {
      writer.Leaving? || writer.Gone?
    }

    predicate HasRoom() {
      |queue| < CAPACITY
    }

    function Send(f: F): Box<F> {
      this.(queue := queue + [f])
    }

    function Close(): Box<F> {
      this.(closes := closes + 1)
    }

    function Break(): Box<F> {
      this.(up := false)
    }

    predicate WriterCanStep() {
      match writer
      case Receiving => queue != [] || closes > 0
      case Writing(_) => true
      case Leaving => true
      case Gone => false
    }

    /** `ok` is the outcome of a socket write. */
    predicate CanWrite(ok: bool) {
      WriterCanStep() && (writer.Writing? && ok ==> up)
    }

    /** The writer's next step: take a frame, leave the drained loop, write, or close `done`. */
    function AfterWrite(ok: bool): Box<F>
      requires CanWrite(ok)
    {
      match writer
      case Receiving =>
        if queue != [] then this.(queue := queue[1..], writer := Writing(queue[0]))
        else this.(writer := Leaving)
      case Writing(f) =>
        if ok then this.(written := written + [f], writer := Receiving)
        else this.(up := false, writer := Leaving)
      case Leaving => this.(doneCloses := doneCloses + 1, writer := Gone)
    }
  }

  function InWriter<F>(w: Writer<F>): seq<F> {
    if w.Writing? then [w.frame] else []
  }

  function Opened<F>(up: bool): Box<F> {
    Box([], 0, Receiving, 0, up, [])
  }

  ghost predicate WriterStep<F>(b: Box<F>, b': Box<F>) {
    exists ok :: b.CanWrite(ok) && b' == b.AfterWrite(ok)
  }

  /** What the box owes for the frames `sent` into it so far: a live writer has lost nothing,
      a stopped one wrote a prefix, and all of it if the socket never failed. */
  ghost predicate Carries<F>(b: Box<F>, sent: seq<F>) {
    && |b.queue| <= CAPACITY
    && b.closes <= 1
    && b.doneCloses == (if b.writer.Gone? then 1 else 0)
    && match b.writer
       case Receiving => b.written + b.queue == sent
       case Writing(f) => b.written + [f] + b.queue == sent
       case _ => b.written <= sent && (b.up ==> b.queue == [] && b.closes == 1 && b.written == sent)
  }

  lemma WriterKeeps<F>(b: Box<F>, ok: bool, sent: seq<F>)
    requires Carries(b, sent) && b.CanWrite(ok)
    ensures var b' := b.AfterWrite(ok);
            && Carries(b', sent)
            && b.written <= b'.written
            && b'.closes == b.closes && b'.doneCloses >= b.doneCloses
            && (b.Stopped() ==> b'.Stopped() && b'.queue == b.queue)
  {
    if b.writer.Receiving? && b.queue != [] {
      assert b.queue == [b.queue[0]] + b.queue[1..];
    }
  }

  lemma SendKeeps<F>(b: Box<F>, sent: seq<F>, f: F)
    requires Carries(b, sent) && b.HasRoom() && b.closes == 0
    ensures Carries(b.Send(f), sent + [f])
  {
  }

  lemma CloseKeeps<F>(b: Box<F>, sent: seq<F>)
    requires Carries(b, sent) && b.closes == 0
    ensures Carries(b.Close(), sent)
  {
  }

  lemma BreakKeeps<F>(b: Box<F>, sent: seq<F>)
    requires Carries(b, sent)
    ensures Carries(b.Break(), sent)
  {
  }

  /** Whatever happened, what the client got is an initial part of what was sent. */
  lemma WrittenIsPrefix<F>(b: Box<F>, sent: seq<F>)
    requires Carries(b, sent)
    ensures b.written <= sent
  {
  }

  /** A write that succeeds puts its frame on the socket and the writer takes the next; one that
      fails takes the socket down for good. Nothing else the writer does touches either. */
  lemma WriteOutcome<F>(b: Box<F>, ok: bool)
    requires b.CanWrite(ok)
    ensures var b' := b.AfterWrite(ok);
            if b.writer.Writing? then
              if ok then b'.up && b'.written == b.written + [b.writer.frame] && b'.writer.Receiving?
              else !b'.up && b'.written == b.written && b'.writer.Leaving?
            else b'.up == b.up && b'.written == b.written
  {
  }
}
