/**
 Attach mode (internal/session/session.go, Subscribe to StartStreamPump; internal/api/ws.go,
 flushEvents and runAttachWS): one pump reads the container stream, records and broadcasts;
 each client replays the recording, subscribes, and then has its own forwarder, `writeCh` and
 writer. Every atomic step of every goroutine is an `Action`; a run is a sequence of actions.
 */
module Fanout {
  import opened Events
  import opened Outbox
  import opened Crlf
  import opened Sessions

  /** Program counter of the pump. `Sending` holds the subscriber snapshot still to be served. */
  datatype Pump =
    | Idle | Reading | Took(raw: string) | Recorded(chunk: string)
    | Sending(chunk: string, rest: seq<nat>) | Ended

  /** Program counter of a client's handler, from the upgrade to its return. */
  datatype Main =
    | Opening | Flushing(rest: seq<string>) | Flushed | Subscribed | Pumping | Listening
    | Waiting | Unlisting | Signalling | Returned
  {
    predicate Joined() {
      !(Opening? || Flushing? || Flushed?)
    }

    predicate Listed() {
      Subscribed? || Pumping? || Listening? || Waiting? || Unlisting?
    }
  }

  datatype Forwarder = Unborn | Selecting | Holding(chunk: string) | Quitting | Finished

  /** `ch` is the subscription's channel and `subDone` counts the closes of its Done channel.
      The rest are histories: the recording the flush read (`snap`), what the flush wrote
      (`shown`) and whether it finished (`flushed`), what was put into `writeCh` (`sent`), the
      number of broadcasts begun when the client subscribed and unsubscribed (`since`, `until`),
      the outcome of each broadcast offered to it (`offers`, true for sent and false for
      dropped), and whether it started the pump. */
  datatype Client = Client(
    main: Main, fwd: Forwarder, box: Box<string>, ch: seq<string>, subDone: nat,
    snap: seq<string>, shown: seq<string>, flushed: bool, sent: seq<string>,
    since: nat, until: nat, offers: seq<bool>, starter: bool)

  /** `snaps` counts the broadcasts that have taken their subscriber snapshot. */
  datatype Sys = Sys(events: seq<Event>, pump: Pump, subs: seq<nat>, snaps: nat, clients: seq<Client>)

  /** Steps that change one client only. */
  datatype Act =
    | Open | FlushWrite(ok: bool) | FlushEnd | Launch | Leave | Resume | Signal
    | Take | Forward | Abandon | Quit | CloseOut | Write(ok: bool) | Break

  datatype Action =
    | Own(i: nat, act: Act)
    | Connect | Subscribe(i: nat) | Start(i: nat) | Unlist(i: nat) | Message(e: Event)
    | Read(raw: string) | Stop | Record(time: int) | Snapshot | Offer | Next

  const NEW_CLIENT := Client(Opening, Unborn, Opened(true), [], 0, [], [], false, [], 0, 0, [], false)

  // ---- One client ------------------------------------------------------------------

  predicate CanAct(c: Client, a: Act) {
    match a
    case Open => c.main.Opening?
    case FlushWrite(ok) => c.main.Flushing? && c.main.rest != [] && (ok ==> c.box.up)
    case FlushEnd => c.main.Flushing? && c.main.rest == []
    case Launch => c.main.Pumping?
    case Leave => c.main.Listening?
    case Resume => c.main.Waiting? && c.box.doneCloses > 0
    case Signal => c.main.Signalling?
    case Take => c.fwd.Selecting? && c.ch != []
    case Quit => c.fwd.Selecting? && c.subDone > 0
    case Forward => c.fwd.Holding? && c.box.HasRoom()
    case Abandon => c.fwd.Holding? && c.box.doneCloses > 0
    case CloseOut => c.fwd.Quitting?
    case Write(ok) => c.main.Joined() && c.box.CanWrite(ok)
    case Break => c.box.up
  }

  function Acted(c: Client, a: Act, outs: seq<string>): Client
    requires CanAct(c, a)
  {
    match a
    case Open => c.(main := Flushing(outs), snap := outs)
    case FlushWrite(ok) =>
      if ok then c.(main := Flushing(c.main.rest[1..]), shown := c.shown + [c.main.rest[0]])
      else c.(main := Flushed, box := c.box.Break())
    case FlushEnd => c.(main := Flushed, flushed := true)
    case Launch => c.(main := Listening, fwd := Selecting)
    case Leave => c.(main := Waiting)
    case Resume => c.(main := Unlisting)
    case Signal => c.(main := Returned, subDone := c.subDone + 1)
    case Take => c.(fwd := Holding(c.ch[0]), ch := c.ch[1..])
    case Quit => c.(fwd := Quitting)
    case Forward => c.(fwd := Selecting, box := c.box.Send(c.fwd.chunk), sent := c.sent + [c.fwd.chunk])
    case Abandon => c.(fwd := Quitting)
    case CloseOut => c.(fwd := Finished, box := c.box.Close())
    case Write(ok) => c.(box := c.box.AfterWrite(ok))
    case Break => c.(box := c.box.Break())
  }

  /** The non-blocking send of Broadcast: into the channel if it has room, else dropped. */
  function Offered(c: Client, chunk: string): Client {
    c.(ch := TrySend(c.ch, chunk), offers := c.offers + [|c.ch| < SUBSCRIBER_SLOTS])
  }

  // ---- The whole session -----------------------------------------------------------

  function Outs(s: Sys): seq<string> {
    OutputTexts(s.events)
  }

  predicate Enabled(s: Sys, a: Action) {
    match a
    case Own(i, act) => i < |s.clients| && CanAct(s.clients[i], act)
    case Connect => true
    case Subscribe(i) => i < |s.clients| && s.clients[i].main.Flushed?
    case Start(i) => i < |s.clients| && s.clients[i].main.Subscribed?
    case Unlist(i) => i < |s.clients| && s.clients[i].main.Unlisting?
    case Message(e) => e.typ != OUTPUT
    case Read(_) => s.pump.Reading?
    case Stop => s.pump.Reading?
    case Record(_) => s.pump.Took?
    case Snapshot => s.pump.Recorded?
    case Offer => s.pump.Sending? && s.pump.rest != [] && s.pump.rest[0] < |s.clients|
    case Next => s.pump.Sending? && s.pump.rest == []
  }

  function Apply(s: Sys, a: Action): Sys
    requires Enabled(s, a)
  {
    match a
    case Own(i, act) => s.(clients := s.clients[i := Acted(s.clients[i], act, Outs(s))])
    case Connect => s.(clients := s.clients + [NEW_CLIENT])
    case Subscribe(i) =>
      s.(subs := s.subs + [i], clients := s.clients[i := s.clients[i].(main := Subscribed, since := s.snaps)])
    case Start(i) =>
      s.(pump := if s.pump.Idle? then Reading else s.pump,
         clients := s.clients[i := s.clients[i].(main := Pumping, starter := s.pump.Idle?)])
    case Unlist(i) =>
      s.(subs := Without(s.subs, i), clients := s.clients[i := s.clients[i].(main := Signalling, until := s.snaps)])
    case Message(e) => s.(events := s.events + [e])
    case Read(raw) => s.(pump := Took(raw))
    case Stop => s.(pump := Ended)
    case Record(time) =>
      var chunk := NormalizeLF(s.pump.raw);
      s.(pump := Recorded(chunk), events := s.events + [Event(time, OUTPUT, chunk)])
    case Snapshot => s.(pump := Sending(s.pump.chunk, s.subs), snaps := s.snaps + 1)
    case Offer =>
      var k := s.pump.rest[0];
      s.(pump := Sending(s.pump.chunk, s.pump.rest[1..]),
         clients := s.clients[k := Offered(s.clients[k], s.pump.chunk)])
    case Next => s.(pump := Reading)
  }

  const EMPTY := Sys([], Idle, [], 0, [])

  predicate Runs(acts: seq<Action>)
    decreases |acts|, 0
  {
    acts == [] || (Runs(acts[..|acts| - 1]) && Enabled(After(acts[..|acts| - 1]), acts[|acts| - 1]))
  }

  /** The state after a run; every reachable state is one of these. */
  function After(acts: seq<Action>): Sys
    requires Runs(acts)
    decreases |acts|, 1
  {
    if acts == [] then EMPTY else Apply(After(acts[..|acts| - 1]), acts[|acts| - 1])
  }

  // ---- What a client was given -----------------------------------------------------

  /** Of the outputs from index `base` on, those whose offer succeeded. */
  function Picks(outs: seq<string>, base: nat, offers: seq<bool>): seq<string>
    requires base + |offers| <= |outs|
  {
    if offers == [] then []
    else
      var n := |offers| - 1;
      Picks(outs, base, offers[..n]) + if offers[n] then [outs[base + n]] else []
  }

  lemma {:induction false} PicksGrow(outs: seq<string>, more: seq<string>, base: nat, offers: seq<bool>)
    requires base + |offers| <= |outs|
    ensures Picks(outs + more, base, offers) == Picks(outs, base, offers)
  {
    if offers != [] {
      PicksGrow(outs, more, base, offers[..|offers| - 1]);
    }
  }

  lemma PicksSnoc(outs: seq<string>, base: nat, offers: seq<bool>, ok: bool)
    requires base + |offers| < |outs|
    ensures Picks(outs, base, offers + [ok]) ==
            if ok then Picks(outs, base, offers) + [outs[base + |offers|]] else Picks(outs, base, offers)
  {
    assert (offers + [ok])[..|offers|] == offers;
  }

  /** `idx` picks `frames` out of `outs`, in strictly increasing positions not below `lo`. */
  ghost predicate Selects(idx: seq<int>, frames: seq<string>, outs: seq<string>, lo: int) {
    && |idx| == |frames|
    && (forall k :: 0 <= k < |idx| ==> lo <= idx[k] && 0 <= idx[k] < |outs| && frames[k] == outs[idx[k]])
    && (forall j, k :: 0 <= j < k < |idx| ==> idx[j] < idx[k])
  }

  ghost predicate Below(idx: seq<int>, hi: int) {
    forall k :: 0 <= k < |idx| ==> idx[k] < hi
  }

  lemma SelectsSnoc(idx: seq<int>, frames: seq<string>, outs: seq<string>, lo: int, next: nat)
    requires Selects(idx, frames, outs, lo) && lo <= next < |outs| && Below(idx, next)
    ensures Selects(idx + [next], frames + [outs[next]], outs, lo) && Below(idx + [next], next + 1)
  {
  }

  lemma NoneSelected(outs: seq<string>, lo: int)
    ensures Selects([], [], outs, lo) && Below([], lo)
  {
  }

  lemma BelowWeakens(idx: seq<int>, hi: int)
    requires Below(idx, hi)
    ensures Below(idx, hi + 1)
  {
  }

  lemma {:induction false} PicksSelected(outs: seq<string>, base: nat, offers: seq<bool>) returns (idx: seq<int>)
    requires base + |offers| <= |outs|
    ensures Selects(idx, Picks(outs, base, offers), outs, base)
    ensures Below(idx, base + |offers|)
  {
    hide Selects, Below;
    if offers == [] {
      idx := [];
      NoneSelected(outs, base);
    } else {
      var n := |offers| - 1;
      idx := PicksSelected(outs, base, offers[..n]);
      if offers[n] {
        SelectsSnoc(idx, Picks(outs, base, offers[..n]), outs, base, base + n);
        idx := idx + [base + n];
      } else {
        BelowWeakens(idx, base + n);
        assert Picks(outs, base, offers[..n]) + [] == Picks(outs, base, offers[..n]);
      }
    }
  }

  lemma OneMore(outs: seq<string>, lo: nat, hi: nat)
    requires lo <= hi < |outs|
    ensures outs[lo..hi] + [outs[hi]] == outs[lo..hi + 1]
  {
  }

  lemma {:induction false} PicksContiguous(outs: seq<string>, base: nat, offers: seq<bool>)
    requires base + |offers| <= |outs| && forall j :: 0 <= j < |offers| ==> offers[j]
    ensures Picks(outs, base, offers) == outs[base..base + |offers|]
  {
    if offers != [] {
      var n := |offers| - 1;
      PicksContiguous(outs, base, offers[..n]);
      OneMore(outs, base, base + n);
    }
  }

  // ---- The invariant ---------------------------------------------------------------

  function InForwarder(f: Forwarder): seq<string> {
    if f.Holding? then [f.chunk] else []
  }

  /** The flush wrote an initial part of the recording it read, all of it unless the socket failed. */
  ghost predicate FlushInv(c: Client) {
    && c.shown <= c.snap
    && (c.main.Opening? ==> c.snap == [] && !c.flushed)
    && (c.main.Flushing? ==> c.shown + c.main.rest == c.snap && !c.flushed)
    && (c.flushed ==> c.shown == c.snap)
    && (!c.flushed && !c.main.Opening? && !c.main.Flushing? ==> !c.box.up && c.box.written == [])
  }

  /** Nothing is closed twice. */
  ghost predicate CloseInv(c: Client) {
    && c.box.closes == (if c.fwd.Finished? then 1 else 0)
    && c.subDone == (if c.main.Returned? then 1 else 0)
    && (c.main.Unlisting? || c.main.Signalling? || c.main.Returned? ==> c.box.doneCloses == 1)
    && (c.fwd.Unborn? <==>
          c.main.Opening? || c.main.Flushing? || c.main.Flushed? || c.main.Subscribed? || c.main.Pumping?)
  }

  /** The broadcasts whose snapshot held the client, from `since` on, are the ones offered to
      it, plus the one in progress if the pump has yet to reach it (`pending`). */
  ghost predicate OfferInv(c: Client, snaps: nat, pending: bool) {
    var end := if c.main.Listed() then snaps else c.until;
    && c.since + |c.offers| + (if pending then 1 else 0) == end <= snaps
    && (pending ==> end == snaps)
    && |c.snap| <= c.since + 1
    && (c.starter ==> c.since == 0)
  }

  /** What left the subscription channel is what was picked, in order. */
  ghost predicate PipeInv(c: Client, outs: seq<string>)
    requires c.since + |c.offers| <= |outs|
  {
    var picks := Picks(outs, c.since, c.offers);
    && |c.ch| <= SUBSCRIBER_SLOTS
    && Carries(c.box, c.sent)
    && if c.fwd.Quitting? || c.fwd.Finished? then c.sent <= picks
       else c.sent + InForwarder(c.fwd) + c.ch == picks
  }

  ghost predicate Untouched(c: Client) {
    c.ch == [] && c.sent == [] && c.offers == [] && c.box == Opened(c.box.up) && c.since == 0 && !c.starter
  }

  ghost predicate ClientInv(c: Client, outs: seq<string>, snaps: nat, listed: bool, pending: bool) {
    && listed == c.main.Listed()
    && snaps <= |outs| <= snaps + 1
    && c.snap <= outs
    && FlushInv(c)
    && CloseInv(c)
    && if c.main.Joined() then OfferInv(c, snaps, pending) && PipeInv(c, outs)
       else Untouched(c) && !pending
  }

  lemma FlushWriteKeeps(c: Client, ok: bool, outs: seq<string>)
    requires CanAct(c, FlushWrite(ok)) && FlushInv(c) && Untouched(c)
    ensures FlushInv(Acted(c, FlushWrite(ok), outs))
  {
    assert c.main.rest == [c.main.rest[0]] + c.main.rest[1..];
  }

  lemma ActKeepsFlush(c: Client, a: Act, outs: seq<string>)
    requires CanAct(c, a) && FlushInv(c) && c.snap <= outs && (!c.main.Joined() ==> Untouched(c))
    requires c.main.Joined() ==> Carries(c.box, c.sent)
    ensures FlushInv(Acted(c, a, outs)) && Acted(c, a, outs).snap <= outs
  {
    hide Carries;
    if a.FlushWrite? {
      FlushWriteKeeps(c, a.ok, outs);
    }
  }

  lemma ActKeepsClose(c: Client, a: Act, outs: seq<string>)
    requires CanAct(c, a) && CloseInv(c)
    requires if c.main.Joined() then Carries(c.box, c.sent) else Untouched(c)
    ensures CloseInv(Acted(c, a, outs))
  {
    if a.Write? {
      WriterKeeps(c.box, a.ok, c.sent);
    }
  }

  lemma ActKeepsPipe(c: Client, a: Act, outs: seq<string>)
    requires CanAct(c, a) && CloseInv(c) && c.main.Joined()
    requires c.since + |c.offers| <= |outs| && PipeInv(c, outs)
    ensures PipeInv(Acted(c, a, outs), outs)
  {
    hide Picks;
    match a
    case Take => assert c.ch == [c.ch[0]] + c.ch[1..];
    case Forward => SendKeeps(c.box, c.sent, c.fwd.chunk);
    case CloseOut => CloseKeeps(c.box, c.sent);
    case Write(ok) => WriterKeeps(c.box, ok, c.sent);
    case Break => BreakKeeps(c.box, c.sent);
    case _ =>
  }

  /** The client's own steps leave the fan-out's account of it alone. */
  lemma ActKeepsOffers(c: Client, a: Act, outs: seq<string>)
    requires CanAct(c, a) && CloseInv(c)
    ensures var c' := Acted(c, a, outs);
            && c'.main.Joined() == c.main.Joined() && c'.main.Listed() == c.main.Listed()
            && c'.offers == c.offers && c'.since == c.since && c'.until == c.until && c'.starter == c.starter
            && (c.main.Joined() ==> c'.snap == c.snap)
            && (!c.main.Joined() && Untouched(c) ==> Untouched(c'))
  {
  }

  lemma ActKeeps(c: Client, a: Act, outs: seq<string>, snaps: nat, listed: bool, pending: bool)
    requires ClientInv(c, outs, snaps, listed, pending) && CanAct(c, a)
    ensures ClientInv(Acted(c, a, outs), outs, snaps, listed, pending)
  {
    ActKeepsOffers(c, a, outs);
    ActKeepsFlush(c, a, outs);
    ActKeepsClose(c, a, outs);
    if c.main.Joined() {
      ActKeepsPipe(c, a, outs);
    }
    hide CanAct, Acted, FlushInv, CloseInv, Picks;
  }

  ghost predicate Within(xs: seq<nat>, n: nat) {
    forall k :: 0 <= k < |xs| ==> xs[k] < n
  }

  predicate Pending(p: Pump, i: nat) {
    p.Sending? && i in p.rest
  }

  /** Add before Broadcast, one pump: every output but perhaps the last has been broadcast. */
  ghost predicate PumpInv(p: Pump, outs: seq<string>, snaps: nat, n: nat) {
    match p
    case Idle => outs == [] && snaps == 0
    case Recorded(chunk) => |outs| == snaps + 1 && outs[snaps] == chunk
    case Sending(chunk, rest) =>
      |outs| == snaps && snaps > 0 && outs[snaps - 1] == chunk && Distinct(rest) && Within(rest, n)
    case _ => |outs| == snaps
  }

  ghost predicate ClientOk(s: Sys, i: nat)
    requires i < |s.clients|
  {
    ClientInv(s.clients[i], Outs(s), s.snaps, i in s.subs, Pending(s.pump, i))
  }

  ghost predicate ClientsInv(s: Sys) {
    forall i :: 0 <= i < |s.clients| ==> ClientOk(s, i)
  }

  ghost predicate Inv(s: Sys) {
    && PumpInv(s.pump, Outs(s), s.snaps, |s.clients|)
    && Distinct(s.subs) && Within(s.subs, |s.clients|)
    && ClientsInv(s)
  }

  lemma OutputRecorded(c: Client, outs: seq<string>, x: string, snaps: nat, listed: bool)
    requires ClientInv(c, outs, snaps, listed, false) && |outs| == snaps
    ensures ClientInv(c, outs + [x], snaps, listed, false)
  {
    if c.main.Joined() {
      PicksGrow(outs, [x], c.since, c.offers);
    }
  }

  lemma SnapshotTaken(c: Client, outs: seq<string>, snaps: nat, listed: bool)
    requires ClientInv(c, outs, snaps, listed, false) && |outs| == snaps + 1
    ensures ClientInv(c, outs, snaps + 1, listed, listed)
  {
  }

  lemma OfferKeepsPipe(c: Client, outs: seq<string>, chunk: string)
    requires c.since + |c.offers| < |outs| && chunk == outs[c.since + |c.offers|] && PipeInv(c, outs)
    ensures PipeInv(Offered(c, chunk), outs)
  {
    PicksSnoc(outs, c.since, c.offers, |c.ch| < SUBSCRIBER_SLOTS);
    hide Picks, Carries;
    assert c.sent + InForwarder(c.fwd) + (c.ch + [chunk]) == c.sent + InForwarder(c.fwd) + c.ch + [chunk];
  }

  lemma OfferMade(c: Client, outs: seq<string>, snaps: nat, listed: bool, chunk: string)
    requires ClientInv(c, outs, snaps, listed, true) && |outs| == snaps > 0 && chunk == outs[snaps - 1]
    ensures ClientInv(Offered(c, chunk), outs, snaps, listed, false)
  {
    OfferKeepsPipe(c, outs, chunk);
    hide PipeInv, Carries, TrySend;
  }

  lemma Joining(c: Client, outs: seq<string>, snaps: nat)
    requires ClientInv(c, outs, snaps, false, false) && c.main.Flushed?
    ensures ClientInv(c.(main := Subscribed, since := snaps), outs, snaps, true, false)
  {
  }

  lemma StartingPump(c: Client, outs: seq<string>, snaps: nat, idle: bool, pending: bool)
    requires ClientInv(c, outs, snaps, true, pending) && c.main.Subscribed? && (idle ==> snaps == 0)
    ensures ClientInv(c.(main := Pumping, starter := idle), outs, snaps, true, pending)
  {
  }

  lemma Parting(c: Client, outs: seq<string>, snaps: nat, pending: bool)
    requires ClientInv(c, outs, snaps, true, pending) && c.main.Unlisting?
    ensures ClientInv(c.(main := Signalling, until := snaps), outs, snaps, false, pending)
  {
  }

  // ---- Every action keeps the invariant --------------------------------------------

  lemma OwnKeeps(s: Sys, i: nat, act: Act)
    requires Inv(s) && Enabled(s, Own(i, act))
    ensures Inv(Apply(s, Own(i, act)))
  {
    assert ClientOk(s, i);
    ActKeeps(s.clients[i], act, Outs(s), s.snaps, i in s.subs, Pending(s.pump, i));
    var s' := Apply(s, Own(i, act));
    forall j | 0 <= j < |s'.clients| ensures ClientOk(s', j) { assert ClientOk(s, j); }
  }

  lemma ConnectKeeps(s: Sys)
    requires Inv(s)
    ensures Inv(Apply(s, Connect))
  {
    var s' := Apply(s, Connect);
    forall j | 0 <= j < |s'.clients| ensures ClientOk(s', j) {
      if j < |s.clients| { assert ClientOk(s, j); }
    }
  }

  lemma SubscribeKeeps(s: Sys, i: nat)
    requires Inv(s) && Enabled(s, Subscribe(i))
    ensures Inv(Apply(s, Subscribe(i)))
  {
    assert ClientOk(s, i);
    Joining(s.clients[i], Outs(s), s.snaps);
    var s' := Apply(s, Subscribe(i));
    forall j | 0 <= j < |s'.clients| ensures ClientOk(s', j) {
      assert ClientOk(s, j);
      assert j in s'.subs <==> j in s.subs || j == i;
    }
  }

  lemma StartKeeps(s: Sys, i: nat)
    requires Inv(s) && Enabled(s, Start(i))
    ensures Inv(Apply(s, Start(i)))
  {
    assert ClientOk(s, i);
    StartingPump(s.clients[i], Outs(s), s.snaps, s.pump.Idle?, Pending(s.pump, i));
    var s' := Apply(s, Start(i));
    forall j | 0 <= j < |s'.clients| ensures ClientOk(s', j) { assert ClientOk(s, j); }
  }

  lemma UnlistKeeps(s: Sys, i: nat)
    requires Inv(s) && Enabled(s, Unlist(i))
    ensures Inv(Apply(s, Unlist(i)))
  {
    assert ClientOk(s, i);
    Parting(s.clients[i], Outs(s), s.snaps, Pending(s.pump, i));
    WithoutRemoves(s.subs, i);
    var s' := Apply(s, Unlist(i));
    forall k | 0 <= k < |s'.subs| ensures s'.subs[k] < |s.clients| { assert s'.subs[k] in s.subs; }
    forall j | 0 <= j < |s'.clients| ensures ClientOk(s', j) { assert ClientOk(s, j); }
  }

  lemma RecordKeeps(s: Sys, time: int)
    requires Inv(s) && s.pump.Took?
    ensures Inv(Apply(s, Record(time)))
  {
    var chunk := NormalizeLF(s.pump.raw);
    OutputTextsSnoc(s.events, Event(time, OUTPUT, chunk));
    var s' := Apply(s, Record(time));
    forall j | 0 <= j < |s'.clients| ensures ClientOk(s', j) {
      assert ClientOk(s, j);
      OutputRecorded(s.clients[j], Outs(s), chunk, s.snaps, j in s.subs);
    }
  }

  lemma SnapshotKeeps(s: Sys)
    requires Inv(s) && s.pump.Recorded?
    ensures Inv(Apply(s, Snapshot))
  {
    var s' := Apply(s, Snapshot);
    forall j | 0 <= j < |s'.clients| ensures ClientOk(s', j) {
      assert ClientOk(s, j);
      SnapshotTaken(s.clients[j], Outs(s), s.snaps, j in s.subs);
    }
  }

  /** Serving the first of a snapshot leaves the others still to be served. */
  lemma FirstServed(rest: seq<nat>, n: nat)
    requires rest != [] && Distinct(rest) && Within(rest, n)
    ensures rest[0] in rest && rest[0] !in rest[1..] && Distinct(rest[1..]) && Within(rest[1..], n)
    ensures forall j :: j in rest <==> j == rest[0] || j in rest[1..]
  {
    assert rest == [rest[0]] + rest[1..];
  }

  lemma OfferKeeps(s: Sys)
    requires Inv(s) && Enabled(s, Offer)
    ensures Inv(Apply(s, Offer))
  {
    hide ClientInv, OutputTexts, Distinct, Within;
    var k := s.pump.rest[0];
    FirstServed(s.pump.rest, |s.clients|);
    assert ClientOk(s, k);
    OfferMade(s.clients[k], Outs(s), s.snaps, k in s.subs, s.pump.chunk);
    var s' := Apply(s, Offer);
    forall j | 0 <= j < |s'.clients| ensures ClientOk(s', j) { assert ClientOk(s, j); }
  }

  lemma OtherKeeps(s: Sys, a: Action)
    requires Inv(s) && Enabled(s, a) && (a.Message? || a.Read? || a.Stop? || a.Next?)
    ensures Inv(Apply(s, a))
  {
    if a.Message? {
      OutputTextsSnoc(s.events, a.e);
    }
    var s' := Apply(s, a);
    forall j | 0 <= j < |s'.clients| ensures ClientOk(s', j) { assert ClientOk(s, j); }
  }

  lemma ActionKeeps(s: Sys, a: Action)
    requires Inv(s) && Enabled(s, a)
    ensures Inv(Apply(s, a))
  {
    match a
    case Own(i, act) => OwnKeeps(s, i, act);
    case Connect => ConnectKeeps(s);
    case Subscribe(i) => SubscribeKeeps(s, i);
    case Start(i) => StartKeeps(s, i);
    case Unlist(i) => UnlistKeeps(s, i);
    case Record(time) => RecordKeeps(s, time);
    case Snapshot => SnapshotKeeps(s);
    case Offer => OfferKeeps(s);
    case _ => OtherKeeps(s, a);
  }

  lemma {:induction false} RunKeeps(acts: seq<Action>)
    requires Runs(acts)
    ensures Inv(After(acts))
    decreases |acts|
  {
    if acts != [] {
      var n := |acts| - 1;
      RunKeeps(acts[..n]);
      ActionKeeps(After(acts[..n]), acts[n]);
    }
  }

  // ---- Main results ----------------------------------------------------------------

  /** Between the pump and the socket, oldest first: written, in the writer, in `writeCh`, in
      the forwarder, in the subscription channel. */
  function Pipeline(c: Client): seq<string> {
    c.box.written + InWriter(c.box.writer) + c.box.queue + InForwarder(c.fwd) + c.ch
  }

  predicate Live(c: Client) {
    c.main.Joined() && !c.box.Stopped() && !c.fwd.Quitting? && !c.fwd.Finished?
  }

  lemma WrittenFromPicks(s: Sys, i: nat)
    requires Inv(s) && i < |s.clients|
    ensures var c := s.clients[i];
            && c.since + |c.offers| <= |Outs(s)|
            && c.box.written <= Picks(Outs(s), c.since, c.offers)
            && (Live(c) ==> Pipeline(c) == Picks(Outs(s), c.since, c.offers))
  {
    hide OutputTexts, Picks;
    assert ClientOk(s, i);
    var c := s.clients[i];
    if c.main.Joined() {
      WrittenIsPrefix(c.box, c.sent);
    }
  }

  /** Order. A client whose flush completed with n recorded outputs gets, from then on, an
      in-order selection of the recorded outputs from index n-1 on: at most one chunk twice,
      none out of order, none invented. */
  lemma FanoutOrder(acts: seq<Action>, i: nat) returns (idx: seq<int>)
    requires Runs(acts) && i < |After(acts).clients|
    ensures var s := After(acts); var c := s.clients[i];
            && Selects(idx, c.box.written, Outs(s), |c.snap| - 1)
            && (c.flushed ==> c.shown == c.snap <= Outs(s))
  {
    hide Runs, After, OutputTexts;
    RunKeeps(acts);
    var s := After(acts);
    var c := s.clients[i];
    assert ClientOk(s, i);
    WrittenFromPicks(s, i);
    if c.main.Joined() {
      var all := PicksSelected(Outs(s), c.since, c.offers);
      idx := all[..|c.box.written|];
    } else {
      idx := [];
    }
  }

  /** How many broadcasts of the run took a subscriber snapshot that held client `i`. */
  function Held(acts: seq<Action>, i: nat): nat
    requires Runs(acts)
  {
    if acts == [] then 0
    else
      var n := |acts| - 1;
      Held(acts[..n], i) + if acts[n].Snapshot? && i in After(acts[..n]).subs then 1 else 0
  }

  function Count(offers: seq<bool>, ok: bool): nat {
    if offers == [] then 0
    else Count(offers[..|offers| - 1], ok) + if offers[|offers| - 1] == ok then 1 else 0
  }

  lemma {:induction false} CountsAddUp(offers: seq<bool>)
    ensures Count(offers, true) + Count(offers, false) == |offers|
  {
    if offers != [] {
      CountsAddUp(offers[..|offers| - 1]);
    }
  }

  function Reached(s: Sys, i: nat): nat {
    if i < |s.clients| then |s.clients[i].offers| + (if Pending(s.pump, i) then 1 else 0) else 0
  }

  lemma SnapshotReaches(s: Sys, a: Action, i: nat)
    requires Inv(s) && Enabled(s, a)
    ensures Reached(Apply(s, a), i) == Reached(s, i) + if a.Snapshot? && i in s.subs then 1 else 0
  {
    hide PipeInv, FlushInv, CloseInv, OutputTexts, TrySend, Distinct;
    if i < |s.clients| {
      assert ClientOk(s, i);
      if a.Offer? {
        FirstServed(s.pump.rest, |s.clients|);
      }
    } else {
      assert i !in s.subs && !Pending(s.pump, i);
    }
  }

  lemma {:induction false} HeldIsOffered(acts: seq<Action>, i: nat)
    requires Runs(acts)
    ensures Held(acts, i) == Reached(After(acts), i)
    decreases |acts|
  {
    if acts != [] {
      var n := |acts| - 1;
      HeldIsOffered(acts[..n], i);
      RunKeeps(acts[..n]);
      SnapshotReaches(After(acts[..n]), acts[n], i);
    }
  }

  /** Accounting. Chunks sent to a subscriber plus chunks dropped are the broadcasts whose
      snapshot held it, the one in progress apart. */
  lemma FanoutAccounting(acts: seq<Action>, i: nat)
    requires Runs(acts) && i < |After(acts).clients|
    ensures var s := After(acts); var c := s.clients[i];
            Count(c.offers, true) + Count(c.offers, false) + (if Pending(s.pump, i) then 1 else 0) == Held(acts, i)
  {
    HeldIsOffered(acts, i);
    CountsAddUp(After(acts).clients[i].offers);
  }

  /** A drop happens only at a full channel, and nothing but the pump's send changes `offers`. */
  lemma DropsOnlyWhenFull(s: Sys, a: Action, i: nat)
    requires Enabled(s, a) && i < |s.clients|
    ensures var c, c' := s.clients[i], Apply(s, a).clients[i];
            || c'.offers == c.offers
            || (c'.offers == c.offers + [true] && |c.ch| < 64 && c'.ch == c.ch + [s.pump.chunk])
            || (c'.offers == c.offers + [false] && |c.ch| >= 64 && c'.ch == c.ch)
  {
  }

  /** A subscriber never found full receives a contiguous run of outputs, starting at output 0
      for the client that started the pump. */
  lemma NeverFullIsContiguous(acts: seq<Action>, i: nat)
    requires Runs(acts) && i < |After(acts).clients| && false !in After(acts).clients[i].offers
    ensures var s := After(acts); var c := s.clients[i];
            && (c.starter ==> c.since == 0)
            && c.since + |c.offers| <= |Outs(s)|
            && var run := Outs(s)[c.since..c.since + |c.offers|];
               c.box.written <= run && (Live(c) ==> Pipeline(c) == run)
  {
    hide Runs, After, OutputTexts;
    RunKeeps(acts);
    var s := After(acts);
    assert ClientOk(s, i);
    WrittenFromPicks(s, i);
    var c := s.clients[i];
    forall j | 0 <= j < |c.offers| ensures c.offers[j] { assert c.offers[j] in c.offers; }
    PicksContiguous(Outs(s), c.since, c.offers);
  }

  /** Channels. Each is closed at most once, no send meets a closed one, and none overfills. */
  lemma FanoutChannels(acts: seq<Action>, i: nat)
    requires Runs(acts) && i < |After(acts).clients|
    ensures var c := After(acts).clients[i];
            && c.box.closes <= 1 && c.box.doneCloses <= 1 && c.subDone <= 1
            && (c.fwd.Holding? || c.fwd.Quitting? ==> c.box.closes == 0)
            && (c.box.writer.Leaving? ==> c.box.doneCloses == 0)
            && (c.main.Signalling? ==> c.subDone == 0)
            && |c.ch| <= 64 && |c.box.queue| <= 64
  {
    RunKeeps(acts);
    assert ClientOk(After(acts), i);
  }

  lemma Joins(outs: seq<string>, n: nat, since: nat, m: nat)
    requires n <= |outs| && since + m <= |outs|
    ensures outs[..n] + outs[since..since + m] == outs[..since + m] <==> since == n
  {
    if since == n {
      assert outs[..n + m] == outs[..n] + outs[n..n + m];
    }
  }

  /** The seam between replay and live output. For a client that lost nothing to a full channel
      and has drained its pipeline, replay plus live output is the recording without gap or
      repeat exactly when no broadcast began, and none was pending, between the two. */
  lemma Seam(acts: seq<Action>, i: nat)
    requires Runs(acts) && i < |After(acts).clients|
    requires var c := After(acts).clients[i]; c.flushed && Live(c) && false !in c.offers && c.box.written == Pipeline(c)
    ensures var s := After(acts); var c := s.clients[i];
            && c.since + |c.offers| <= |Outs(s)|
            && (c.shown + c.box.written == Outs(s)[..c.since + |c.offers|] <==> c.since == |c.snap|)
            && |c.snap| <= c.since + 1
  {
    RunKeeps(acts);
    var s := After(acts);
    var c := s.clients[i];
    assert ClientOk(s, i);
    NeverFullIsContiguous(acts, i);
    assert c.shown == c.snap == Outs(s)[..|c.snap|];
    hide FlushInv, CloseInv, PipeInv, Pipeline, OutputTexts, After, Runs;
    Joins(Outs(s), |c.snap|, c.since, |c.offers|);
  }

  lemma Extend(acts: seq<Action>, a: Action) returns (more: seq<Action>)
    requires Runs(acts) && Enabled(After(acts), a)
    ensures more == acts + [a] && Runs(more) && After(more) == Apply(After(acts), a)
  {
    more := acts + [a];
    assert more[..|acts|] == acts;
  }

  /** A client 0 that has flushed the empty recording, subscribed and started the pump. */
  lemma FirstClient() returns (acts: seq<Action>, c: Client)
    ensures Runs(acts) && After(acts) == Sys([], Reading, [0], 0, [c]) && c.main.Pumping?
  {
    acts := Extend([], Connect);
    acts := Extend(acts, Own(0, Open));
    acts := Extend(acts, Own(0, FlushEnd));
    acts := Extend(acts, Subscribe(0));
    acts := Extend(acts, Start(0));
    c := After(acts).clients[0];
  }

  lemma OneOutput(y: string)
    ensures OutputTexts([]) == [] && OutputTexts([Event(0, OUTPUT, y)]) == [y]
  {
    OutputTextsSnoc([], Event(0, OUTPUT, y));
  }

  /** And a client 1 that has flushed the empty recording. */
  lemma BothFlushed() returns (acts: seq<Action>, c0: Client, c1: Client)
    ensures Runs(acts) && After(acts) == Sys([], Reading, [0], 0, [c0, c1])
    ensures c1.main.Flushed? && c1.flushed && c1.snap == []
  {
    hide NormalizeLF, Runs, After;
    acts, c0 := FirstClient();
    acts := Extend(acts, Connect);
    acts := Extend(acts, Own(1, Open));
    acts := Extend(acts, Own(1, FlushEnd));
    c1 := After(acts).clients[1];
  }

  /** The gap is real: an output recorded and broadcast after a client's replay was read and
      before it subscribed reaches it neither way. */
  lemma GapWitness(x: string) returns (acts: seq<Action>)
    ensures Runs(acts) && |After(acts).clients| == 2
    ensures var s := After(acts); var c := s.clients[1];
            && c.flushed && c.main.Subscribed? && c.snap == [] && Outs(s) == [NormalizeLF(x)]
            && c.since == 1 && !Pending(s.pump, 1)
  {
    hide NormalizeLF, Runs, After, OutputTexts;
    var c0, c1;
    acts, c0, c1 := BothFlushed();
    acts := Extend(acts, Read(x));
    acts := Extend(acts, Record(0));
    OneOutput(NormalizeLF(x));
    acts := Extend(acts, Snapshot);
    acts := Extend(acts, Subscribe(1));
    assert After(acts).events == [Event(0, OUTPUT, NormalizeLF(x))];
  }

  /** The pump has recorded its first chunk and not yet taken the broadcast snapshot. */
  lemma FirstRecorded(x: string) returns (acts: seq<Action>, c: Client)
    ensures var y := NormalizeLF(x);
            Runs(acts) && After(acts) == Sys([Event(0, OUTPUT, y)], Recorded(y), [0], 0, [c])
  {
    hide NormalizeLF, Runs, After;
    acts, c := FirstClient();
    acts := Extend(acts, Read(x));
    acts := Extend(acts, Record(0));
  }

  /** And then client 1 has flushed that chunk. */
  lemma FirstReplayed(x: string) returns (acts: seq<Action>, c0: Client, c1: Client)
    ensures var y := NormalizeLF(x);
            Runs(acts) && After(acts) == Sys([Event(0, OUTPUT, y)], Recorded(y), [0], 0, [c0, c1])
    ensures c1.main.Flushed? && c1.flushed && c1.shown == [NormalizeLF(x)]
  {
    hide NormalizeLF, Runs, After, OutputTexts;
    acts, c0 := FirstRecorded(x);
    OneOutput(NormalizeLF(x));
    acts := Extend(acts, Connect);
    acts := Extend(acts, Own(1, Open));
    acts := Extend(acts, Own(1, FlushWrite(true)));
    acts := Extend(acts, Own(1, FlushEnd));
    c1 := After(acts).clients[1];
  }

  /** So is the repeat: an output recorded before the replay was read and broadcast after the
      client subscribed reaches it both ways. */
  lemma RepeatWitness(x: string) returns (acts: seq<Action>)
    ensures Runs(acts) && |After(acts).clients| == 2
    ensures var s := After(acts); var c := s.clients[1];
            && c.flushed && c.main.Subscribed? && c.shown == [NormalizeLF(x)] == Outs(s)
            && c.since == 0 && Pending(s.pump, 1)
  {
    hide NormalizeLF, Runs, After, OutputTexts;
    var c0, c1;
    acts, c0, c1 := FirstReplayed(x);
    OneOutput(NormalizeLF(x));
    acts := Extend(acts, Subscribe(1));
    acts := Extend(acts, Snapshot);
  }
}
