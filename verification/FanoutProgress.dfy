/**
 That attach mode goes on: the pump keeps reading and records everything it reads, a client whose
 socket is up gets everything accepted for it, and where a handler comes to rest
 (internal/session/session.go, StartStreamPump; internal/api/ws.go, flushEvents and runAttachWS).
 */
module FanoutProgress {
  import opened Events
  import opened Outbox
  import opened Crlf
  import opened Sessions
  import opened Wrappers
  import opened Fanout

  // ---- The pump goes on ------------------------------------------------------------

  /** The chunks read from the stream in a run, and the messages recorded. */
  function Reads(acts: seq<Action>): seq<string> {
    if acts == [] then [] else Reads(acts[..|acts| - 1]) + ReadBy(acts[|acts| - 1])
  }

  function ReadBy(a: Action): seq<string> {
    if a.Read? then [a.raw] else []
  }

  function Messages(acts: seq<Action>): seq<Event> {
    if acts == [] then [] else Messages(acts[..|acts| - 1]) + MessageOf(acts[|acts| - 1])
  }

  function MessageOf(a: Action): seq<Event> {
    if a.Message? then [a.e] else []
  }

  function Others(es: seq<Event>): seq<Event> {
    if es == [] then []
    else
      var e := es[|es| - 1];
      Others(es[..|es| - 1]) + if e.typ != OUTPUT then [e] else []
  }

  function Normals(chunks: seq<string>): seq<string> {
    seq(|chunks|, i requires 0 <= i < |chunks| => NormalizeLF(chunks[i]))
  }

  /** The chunk read and not yet recorded. */
  function InPump(p: Pump): seq<string> {
    if p.Took? then [p.raw] else []
  }

  /** What a step does to the recording, and to the chunk in the pump's hand. */
  lemma StepEvents(s: Sys, a: Action)
    requires Enabled(s, a)
    ensures Apply(s, a).events ==
            match a
            case Message(e) => s.events + [e]
            case Record(time) => s.events + [Event(time, OUTPUT, NormalizeLF(s.pump.raw))]
            case _ => s.events
    ensures InPump(Apply(s, a).pump) == (if a.Read? then [a.raw] else if a.Record? then [] else InPump(s.pump))
    ensures (a.Read? ==> InPump(s.pump) == []) && (a.Record? ==> InPump(s.pump) == [s.pump.raw])
  {
    hide NormalizeLF, OutputTexts, Acted, Offered, Without;
  }

  lemma OthersSnoc(es: seq<Event>, e: Event)
    ensures Others(es + [e]) == if e.typ != OUTPUT then Others(es) + [e] else Others(es)
  {
    assert (es + [e])[..|es|] == es;
  }

  lemma StepRecords(s: Sys, a: Action)
    requires Enabled(s, a)
    ensures var s' := Apply(s, a);
            && Outs(s') == (if a.Record? then Outs(s) + Normals(InPump(s.pump)) else Outs(s))
            && Others(s'.events) == (if a.Message? then Others(s.events) + [a.e] else Others(s.events))
  {
    StepEvents(s, a);
    hide NormalizeLF, OutputTexts, Others, Apply;
    match a
    case Message(e) =>
      OutputTextsSnoc(s.events, e);
      OthersSnoc(s.events, e);
    case Record(time) =>
      OutputTextsSnoc(s.events, Event(time, OUTPUT, NormalizeLF(s.pump.raw)));
      OthersSnoc(s.events, Event(time, OUTPUT, NormalizeLF(s.pump.raw)));
    case _ =>
  }

  lemma NormalsAppend(a: seq<string>, b: seq<string>)
    ensures Normals(a + b) == Normals(a) + Normals(b)
  {
    hide NormalizeLF;
  }

  ghost predicate Accounted(s: Sys, taken: seq<string>, messages: seq<Event>) {
    Normals(taken) == Outs(s) + Normals(InPump(s.pump)) && Others(s.events) == messages
  }

  lemma ReadAccounted(taken: seq<string>, raw: string, outs: seq<string>)
    requires Normals(taken) == outs
    ensures Normals(taken + [raw]) == outs + Normals([raw])
  {
    hide Normals;
    NormalsAppend(taken, [raw]);
  }

  lemma StepAccounted(s: Sys, a: Action, taken: seq<string>, messages: seq<Event>)
    requires Enabled(s, a) && Accounted(s, taken, messages)
    ensures Accounted(Apply(s, a), taken + ReadBy(a), messages + MessageOf(a))
  {
    StepEvents(s, a);
    StepRecords(s, a);
    NoNormals();
    hide Enabled, Apply, Normals, Others, OutputTexts, InPump;
    match a
    case Read(raw) =>
      assert Outs(s) + [] == Outs(s) && messages + [] == messages;
      ReadAccounted(taken, raw, Outs(s));
    case Message(e) => assert taken + [] == taken;
    case Record(_) =>
      assert taken + [] == taken && messages + [] == messages;
      assert Outs(s) + Normals(InPump(s.pump)) + [] == Outs(s) + Normals(InPump(s.pump));
    case _ => assert taken + [] == taken && messages + [] == messages;
  }

  /** Recording. In every run the recorded outputs are the normal forms of the chunks read, in
      order and none missing, less the one in the pump's hand; the other events recorded are
      the clients' messages, in order. */
  lemma {:induction false} PumpRecords(acts: seq<Action>)
    requires Runs(acts)
    ensures var s := After(acts);
            && Normals(Reads(acts)) == Outs(s) + Normals(InPump(s.pump))
            && Others(s.events) == Messages(acts)
    decreases |acts|
  {
    hide Normals, OutputTexts, Enabled, Apply, Others, InPump, ReadBy, MessageOf;
    if acts == [] {
      NothingRecorded();
    } else {
      var n := |acts| - 1;
      PumpRecords(acts[..n]);
      StepAccounted(After(acts[..n]), acts[n], Reads(acts[..n]), Messages(acts[..n]));
    }
  }

  lemma NoNormals()
    ensures Normals([]) == []
  {
  }

  lemma NothingRecorded()
    ensures Normals(Reads([])) == Outs(EMPTY) + Normals(InPump(EMPTY.pump)) && Others(EMPTY.events) == Messages([])
  {
  }

  predicate IsPumpStep(a: Action) {
    a.Read? || a.Stop? || a.Record? || a.Snapshot? || a.Offer? || a.Next?
  }

  lemma PumpMoves(s: Sys, a: Action)
    requires Enabled(s, a)
    ensures Apply(s, a).pump.Ended? <==> s.pump.Ended? || a.Stop?
    ensures Apply(s, a).pump.Idle? <==> s.pump.Idle? && !a.Start?
  {
  }

  /** The pump starts with the first Start, and ends exactly when a read has failed: its loop
      never stops of itself. */
  lemma {:induction false} PumpRunsOn(acts: seq<Action>)
    requires Runs(acts)
    ensures After(acts).pump.Ended? <==> Stop in acts
    ensures After(acts).pump.Idle? <==> forall a :: a in acts ==> !a.Start?
    decreases |acts|
  {
    hide Enabled, Apply;
    if acts != [] {
      var n := |acts| - 1;
      PumpRunsOn(acts[..n]);
      PumpMoves(After(acts[..n]), acts[n]);
      assert acts == acts[..n] + [acts[n]];
    }
  }

  /** Steps until the pump reads again. */
  function ToRead(p: Pump): nat {
    match p
    case Took(_) => 3
    case Recorded(_) => 2
    case Sending(_, _) => 1
    case _ => 0
  }

  /** A started pump always has a step until the stream ends, and in between it comes back to
      reading: each of its steps but a read takes it nearer. */
  lemma PumpNeverStuck(acts: seq<Action>, raw: string)
    requires Runs(acts)
    ensures var s := After(acts);
            && (s.pump.Reading? ==> Enabled(s, Read(raw)))
            && (!s.pump.Idle? && !s.pump.Ended? ==> exists a :: IsPumpStep(a) && Enabled(s, a))
            && forall a :: IsPumpStep(a) && !a.Read? && Enabled(s, a) ==>
                 var p, p' := s.pump, Apply(s, a).pump;
                 && (p'.Reading? || p'.Ended? || p'.Recorded? || p'.Sending?)
                 && (ToRead(p') < ToRead(p) || (p'.Sending? && p.Sending? && |p'.rest| < |p.rest|) || a.Stop?)
  {
    RunKeeps(acts);
    var s := After(acts);
    match s.pump
    case Reading => assert Enabled(s, Read(raw)) && IsPumpStep(Read(raw));
    case Took(_) => assert Enabled(s, Record(0)) && IsPumpStep(Record(0));
    case Recorded(_) => assert Enabled(s, Snapshot) && IsPumpStep(Snapshot);
    case Sending(_, rest) =>
      if rest == [] {
        assert Enabled(s, Next) && IsPumpStep(Next);
      } else {
        assert Enabled(s, Offer) && IsPumpStep(Offer);
      }
    case _ =>
  }

  // ---- A client's chain goes on ----------------------------------------------------

  /** While the socket is up nothing in the client's chain has stopped. */
  ghost predicate GoingOn(c: Client) {
    c.box.up ==>
      && !c.fwd.Quitting? && !c.fwd.Finished? && !c.box.Stopped()
      && !c.main.Unlisting? && !c.main.Signalling? && !c.main.Returned?
  }

  lemma ActGoesOn(c: Client, a: Act, outs: seq<string>, snaps: nat, listed: bool, pending: bool)
    requires ClientInv(c, outs, snaps, listed, pending) && CanAct(c, a) && GoingOn(c)
    ensures GoingOn(Acted(c, a, outs))
  {
    hide FlushInv, OfferInv, Picks;
  }

  lemma StepGoesOn(s: Sys, a: Action)
    requires Inv(s) && Enabled(s, a) && forall i :: 0 <= i < |s.clients| ==> GoingOn(s.clients[i])
    ensures forall i :: 0 <= i < |Apply(s, a).clients| ==> GoingOn(Apply(s, a).clients[i])
  {
    hide ClientInv, OutputTexts;
    if a.Own? {
      assert ClientOk(s, a.i);
      ActGoesOn(s.clients[a.i], a.act, Outs(s), s.snaps, a.i in s.subs, Pending(s.pump, a.i));
    }
  }

  lemma {:induction false} RunGoesOn(acts: seq<Action>)
    requires Runs(acts)
    ensures forall i :: 0 <= i < |After(acts).clients| ==> GoingOn(After(acts).clients[i])
    decreases |acts|
  {
    hide Inv, Enabled, Apply, GoingOn;
    if acts != [] {
      var n := |acts| - 1;
      RunKeeps(acts[..n]);
      RunGoesOn(acts[..n]);
      StepGoesOn(After(acts[..n]), acts[n]);
    }
  }

  /** How far the chunks accepted for a client are from its socket. */
  function ToWrite(c: Client): nat {
    5 * |c.ch| + (if c.fwd.Holding? then 4 else 0) + 3 * |c.box.queue| + (if c.box.writer.Writing? then 2 else 0)
  }

  predicate Delivers(a: Act) {
    a == Take || a == Forward || a == Write(true)
  }

  lemma DeliveryStep(c: Client, a: Act, outs: seq<string>)
    requires Delivers(a) && CanAct(c, a) && GoingOn(c) && c.box.up && CloseInv(c)
    ensures ToWrite(Acted(c, a, outs)) < ToWrite(c)
  {
  }

  lemma DeliveryEnds(c: Client)
    requires GoingOn(c) && c.box.up && c.main.Joined() && !c.fwd.Unborn?
    requires forall a :: Delivers(a) ==> !CanAct(c, a)
    ensures c.box.written == Pipeline(c)
  {
    assert Delivers(Take) && Delivers(Forward) && Delivers(Write(true));
    assert !CanAct(c, Take) && !CanAct(c, Forward) && !CanAct(c, Write(true));
  }

  /** Delivery. While a client's socket is up its forwarder and writer go on; their steps move
      every chunk accepted for it nearer to the socket, and they run out only when all of
      them, in order, have been written. */
  lemma FanoutDelivers(acts: seq<Action>, i: nat)
    requires Runs(acts) && i < |After(acts).clients| && After(acts).clients[i].box.up
    ensures var s := After(acts); var c := s.clients[i];
            && !c.fwd.Quitting? && !c.fwd.Finished? && !c.box.Stopped()
            && (forall a :: Delivers(a) && CanAct(c, a) ==> ToWrite(Acted(c, a, Outs(s))) < ToWrite(c))
            && (!c.fwd.Unborn? && (forall a :: Delivers(a) ==> !CanAct(c, a)) ==>
                  c.since + |c.offers| <= |Outs(s)| && c.box.written == Picks(Outs(s), c.since, c.offers))
  {
    RunKeeps(acts);
    RunGoesOn(acts);
    var s := After(acts);
    var c := s.clients[i];
    assert ClientOk(s, i) && GoingOn(c);
    WrittenFromPicks(s, i);
    hide Runs, After, Inv, ClientInv, OutputTexts, Picks, Pipeline;
    assert CloseInv(c) by { CloseInvOf(c, Outs(s), s.snaps, i in s.subs, Pending(s.pump, i)); }
    forall a | Delivers(a) && CanAct(c, a) ensures ToWrite(Acted(c, a, Outs(s))) < ToWrite(c) {
      DeliveryStep(c, a, Outs(s));
    }
    if !c.fwd.Unborn? && forall a :: Delivers(a) ==> !CanAct(c, a) {
      DeliveryEnds(c);
    }
  }

  lemma CloseInvOf(c: Client, outs: seq<string>, snaps: nat, listed: bool, pending: bool)
    requires ClientInv(c, outs, snaps, listed, pending)
    ensures CloseInv(c)
  {
  }

  /** The replay. What a client is replayed is the whole recording at the moment it is read, and
      that stays what it is replayed. */
  lemma ReplayIsWhole(s: Sys, a: Action, i: nat)
    requires Enabled(s, a) && i < |s.clients|
    ensures Apply(s, a).clients[i].snap == if a == Own(i, Open) then Outs(s) else s.clients[i].snap
    ensures a == Own(i, Open) ==> Apply(s, a).clients[i].main == Flushing(Outs(s))
  {
    hide OutputTexts;
  }

  // ---- How a handler winds down ----------------------------------------------------

  function MainRank(m: Main): nat {
    match m
    case Opening => 9
    case Flushing(rest) => 8 + |rest|
    case Flushed => 7
    case Subscribed => 6
    case Pumping => 5
    case Listening => 4
    case Waiting => 3
    case Unlisting => 2
    case Signalling => 1
    case Returned => 0
  }

  function ForwarderRank(f: Forwarder): nat {
    match f case Quitting => 1 case Finished => 0 case _ => 2
  }

  function WriterRank(w: Writer<string>): nat {
    match w case Leaving => 1 case Gone => 0 case _ => 2
  }

  /** How many steps of its own a handler past its first can still make, if it is sent no more. */
  function ToRest(c: Client): nat {
    ToWrite(c) + MainRank(c.main) + ForwarderRank(c.fwd) + WriterRank(c.box.writer) + if c.box.up then 1 else 0
  }

  lemma ActRests(c: Client, a: Act, outs: seq<string>)
    requires CanAct(c, a) && !a.Open? && CloseInv(c)
    ensures ToRest(Acted(c, a, outs)) < ToRest(c)
  {
  }

  /** The client that takes part in a step of its own handler. */
  predicate IsOwnStep(a: Action, i: nat) {
    (a.Own? && a.i == i && !a.act.Open?) || a == Subscribe(i) || a == Start(i) || a == Unlist(i)
  }

  /** Each step of a handler takes it nearer to rest. */
  lemma HandlerComesToRest(acts: seq<Action>, a: Action, i: nat)
    requires Runs(acts) && Enabled(After(acts), a) && i < |After(acts).clients| && IsOwnStep(a, i)
    ensures ToRest(Apply(After(acts), a).clients[i]) < ToRest(After(acts).clients[i])
  {
    RunKeeps(acts);
    var s := After(acts);
    assert ClientOk(s, i);
    CloseInvOf(s.clients[i], Outs(s), s.snaps, i in s.subs, Pending(s.pump, i));
    hide Runs, After, Inv, ClientInv, OutputTexts;
    if a.Own? {
      ActRests(s.clients[i], a.act, Outs(s));
    }
  }

  /** A step other than the client's going away. */
  predicate IsServerStep(a: Action, i: nat) {
    (IsOwnStep(a, i) && a != Own(i, Leave) && a != Own(i, Break)) || a == Own(i, Open)
  }

  /** Waiting for a chunk with an empty pipeline; or, the socket having failed a write, for the
      client to leave; or over, the forwarder and writer finished too. */
  predicate AtRest(c: Client) {
    || (c.box.writer.Receiving? && c.box.queue == [] && c.fwd.Selecting? && c.ch == []
        && (c.main.Listening? || c.main.Waiting?))
    || (c.box.writer.Gone? && c.main.Listening? && (c.fwd.Finished? || (c.fwd.Selecting? && c.ch == [])))
    || (c.box.writer.Gone? && c.main.Returned? && c.fwd.Finished?)
  }

  /** No act of the client's own is possible but its going away. */
  predicate Quiescent(c: Client) {
    && !CanAct(c, Open) && !CanAct(c, FlushWrite(false)) && !CanAct(c, FlushEnd) && !CanAct(c, Launch)
    && !CanAct(c, Resume) && !CanAct(c, Signal) && !CanAct(c, Take) && !CanAct(c, Forward)
    && !CanAct(c, Abandon) && !CanAct(c, Quit) && !CanAct(c, CloseOut) && !CanAct(c, Write(false))
    && !c.main.Flushed? && !c.main.Subscribed? && !c.main.Unlisting?
  }

  lemma ServerStepsExactly(s: Sys, i: nat)
    requires i < |s.clients|
    ensures (forall a :: IsServerStep(a, i) ==> !Enabled(s, a)) <==>
            (forall act: Act :: !act.Leave? && !act.Break? ==> !CanAct(s.clients[i], act))
            && !s.clients[i].main.Flushed? && !s.clients[i].main.Subscribed? && !s.clients[i].main.Unlisting?
  {
    hide CanAct;
    if forall a :: IsServerStep(a, i) ==> !Enabled(s, a) {
      assert !Enabled(s, Subscribe(i)) && !Enabled(s, Start(i)) && !Enabled(s, Unlist(i));
      forall act: Act | !act.Leave? && !act.Break? ensures !CanAct(s.clients[i], act) {
        assert IsServerStep(Own(i, act), i) && !Enabled(s, Own(i, act));
      }
    }
  }

  lemma QuiescentExactly(s: Sys, i: nat)
    requires i < |s.clients|
    ensures (forall a :: IsServerStep(a, i) ==> !Enabled(s, a)) <==> Quiescent(s.clients[i])
  {
    ServerStepsExactly(s, i);
    var c := s.clients[i];
    hide Enabled, IsServerStep;
    if Quiescent(c) {
      forall act: Act | !act.Leave? && !act.Break? ensures !CanAct(c, act) {
      }
    }
  }

  lemma QuiescentAtRest(c: Client)
    requires CloseInv(c) && if c.main.Joined() then Carries(c.box, c.sent) else Untouched(c)
    ensures Quiescent(c) <==> AtRest(c)
  {
  }

  /** Where handlers come to rest: nothing is left for the server to do for a client exactly when
      its handler is waiting for a chunk, or for the client, or is over. So a handler whose
      client has left and whose writer has stopped comes to its return, and one whose writer
      is still waiting for a frame does not. */
  lemma HandlerRests(acts: seq<Action>, i: nat)
    requires Runs(acts) && i < |After(acts).clients|
    ensures var s := After(acts); var c := s.clients[i];
            && ((forall a :: IsServerStep(a, i) ==> !Enabled(s, a)) <==> AtRest(c))
            && (AtRest(c) && !c.main.Listening? && c.box.Stopped() ==> c.main.Returned? && c.subDone == 1)
  {
    RunKeeps(acts);
    var s := After(acts);
    var c := s.clients[i];
    assert ClientOk(s, i);
    hide Runs, After, Inv, OutputTexts, Enabled, Apply;
    QuiescentExactly(s, i);
    QuiescentAtRest(c);
  }

  /** Once the socket is down nothing more is shown, and a write that fails takes it down. */
  lemma DownShowsNothing(s: Sys, a: Action, i: nat)
    requires Enabled(s, a) && i < |s.clients|
    ensures var c, c' := s.clients[i], Apply(s, a).clients[i];
            && (!c.box.up ==> c'.shown == c.shown && c'.box.written == c.box.written && !c'.box.up)
            && (a == Own(i, FlushWrite(false)) ==> c'.shown == c.shown && !c'.box.up && c'.main.Flushed?)
            && (a == Own(i, Break) ==> !c'.box.up)
  {
    hide OutputTexts;
  }

  /** The client whose Start came first. */
  function FirstStart(acts: seq<Action>): Option<nat> {
    if acts == [] then None
    else
      var before := FirstStart(acts[..|acts| - 1]);
      if before.None? && acts[|acts| - 1].Start? then Some(acts[|acts| - 1].i) else before
  }

  ghost predicate StarterKnown(s: Sys, first: Option<nat>) {
    && (s.pump.Idle? <==> first.None?)
    && (first.Some? ==> first.value < |s.clients|)
    && forall i :: 0 <= i < |s.clients| ==>
         (s.clients[i].starter <==> first == Some(i))
         && (s.clients[i].starter ==> s.clients[i].main.Joined() && !s.clients[i].main.Subscribed?)
  }

  lemma StarterStep(s: Sys, a: Action, first: Option<nat>)
    requires Enabled(s, a) && StarterKnown(s, first)
    ensures StarterKnown(Apply(s, a), if first.None? && a.Start? then Some(a.i) else first)
  {
    hide OutputTexts, TrySend, Without;
    PumpMoves(s, a);
  }

  /** `starter` marks the client that started the pump, and no other. */
  lemma {:induction false} StarterIsFirst(acts: seq<Action>)
    requires Runs(acts)
    ensures StarterKnown(After(acts), FirstStart(acts))
    decreases |acts|
  {
    hide Enabled, Apply, StarterKnown;
    if acts == [] {
      NoStarter();
    } else {
      var n := |acts| - 1;
      StarterIsFirst(acts[..n]);
      StarterStep(After(acts[..n]), acts[n], FirstStart(acts[..n]));
    }
  }

  lemma NoStarter()
    ensures StarterKnown(EMPTY, None)
  {
  }
}
