/**
 The reconnecting browser socket (frontend/src/composables/useWebSocket.ts): a closure whose
 variables are changed by socket events, one timer and `disconnect`, in any order the browser
 delivers them. Each socket closes once and reports at most one error before that.
 */
module Reconnect {
  import opened Wrappers

  const MAX_RECONNECT := 5

  datatype Ready = Connecting | Open | Closing | Closed

  /** `everOpen` and `errored` record whether the socket ever opened and reported an error. */
  datatype Socket = Socket(ready: Ready, everOpen: bool, errored: bool)
  {
    /** WebSocket.close(): starts the closing handshake unless that has happened. */
    function Close(): Socket {
      if ready.Connecting? || ready.Open? then this.(ready := Closing) else this
    }
  }

  /** `ws` indexes `sockets`, all sockets ever made; `reconnectTimer` is the id of the latest
      timer, which may have fired. The browser's part is `sockets`, the `pending` timer ids and
      the number of `timers` made; `opens` counts the open events. */
  datatype Sys = Sys(
    ws: Option<nat>, reconnectCount: nat, reconnectTimer: Option<nat>, stopped: bool, connected: bool,
    sockets: seq<Socket>, pending: set<nat>, timers: nat, opens: nat)

  datatype Event = Opened(i: nat) | Errored(i: nat) | Closes(i: nat) | TimerFires(t: nat) | Disconnect

  predicate Enabled(s: Sys, e: Event) {
    match e
    case Opened(i) => i < |s.sockets| && s.sockets[i].ready.Connecting?
    case Errored(i) => i < |s.sockets| && !s.sockets[i].ready.Closed? && !s.sockets[i].errored
    case Closes(i) => i < |s.sockets| && !s.sockets[i].ready.Closed?
    case TimerFires(t) => t in s.pending
    case Disconnect => true
  }

  /** ws?.close() */
  function CloseCurrent(s: Sys): seq<Socket> {
    if s.ws.Some? && s.ws.value < |s.sockets| then s.sockets[s.ws.value := s.sockets[s.ws.value].Close()] else s.sockets
  }

  function Connected(s: Sys): (c: Sys)
    ensures s.stopped ==> c == s
  {
    if s.stopped then s else s.(ws := Some(|s.sockets|), sockets := s.sockets + [Socket(Connecting, false, false)])
  }

  function ClearTimer(s: Sys): set<nat> {
    if s.reconnectTimer.Some? then s.pending - {s.reconnectTimer.value} else s.pending
  }

  function Apply(s: Sys, e: Event): Sys
    requires Enabled(s, e)
  {
    match e
    case Opened(i) =>
      s.(sockets := s.sockets[i := s.sockets[i].(ready := Open, everOpen := true)], opens := s.opens + 1,
         connected := true, reconnectCount := 0)
    case Errored(i) =>
      var t := s.(sockets := s.sockets[i := s.sockets[i].(errored := true)]);
      t.(sockets := CloseCurrent(t))
    case Closes(i) =>
      var t := s.(sockets := s.sockets[i := s.sockets[i].(ready := Closed)], connected := false);
      if s.stopped || s.reconnectCount >= MAX_RECONNECT then t
      else t.(reconnectCount := s.reconnectCount + 1, reconnectTimer := Some(s.timers),
              pending := s.pending + {s.timers}, timers := s.timers + 1)
    case TimerFires(t) => Connected(s.(pending := s.pending - {t}))
    case Disconnect => s.(stopped := true, pending := ClearTimer(s), sockets := CloseCurrent(s), connected := false)
  }

  const FRESH := Connected(Sys(None, 0, None, false, false, [], {}, 0, 0))

  predicate Runs(s: Sys, es: seq<Event>)
    decreases |es|
  {
    es == [] || (Enabled(s, es[0]) && Runs(Apply(s, es[0]), es[1..]))
  }

  function After(s: Sys, es: seq<Event>): Sys
    requires Runs(s, es)
    decreases |es|
  {
    if es == [] then s else After(Apply(s, es[0]), es[1..])
  }

  // ---- The closure -----------------------------------------------------------------

  class UseWebSocket {
    var ws: Option<nat>
    var reconnectCount: nat
    var reconnectTimer: Option<nat>
    var stopped: bool
    var connected: bool

    var sockets: seq<Socket>
    var pending: set<nat>
    var timers: nat
    var opens: nat

    function State(): Sys
      reads this
    {
      Sys(ws, reconnectCount, reconnectTimer, stopped, connected, sockets, pending, timers, opens)
    }

    constructor ()
      ensures State() == FRESH
    {
      ws, reconnectCount, reconnectTimer, stopped, connected := None, 0, None, false, false;
      sockets, pending, timers, opens := [], {}, 0, 0;
      new;
      Connect();
    }

    method Connect()
      modifies this
      ensures State() == Connected(old(State()))
    {
      if stopped {
        return;
      }
      sockets := sockets + [Socket(Connecting, false, false)];
      ws := Some(|sockets| - 1);
    }

    method CloseWs()
      modifies this`sockets
      ensures sockets == CloseCurrent(old(State()))
    {
      if ws.Some? && ws.value < |sockets| {
        sockets := sockets[ws.value := sockets[ws.value].Close()];
      }
    }

    method OnOpen(i: nat)
      requires Enabled(State(), Opened(i))
      modifies this
      ensures State() == Apply(old(State()), Opened(i))
    {
      sockets := sockets[i := sockets[i].(ready := Open, everOpen := true)];
      opens := opens + 1;
      connected := true;
      reconnectCount := 0;
    }

    method OnError(i: nat)
      requires Enabled(State(), Errored(i))
      modifies this
      ensures State() == Apply(old(State()), Errored(i))
    {
      sockets := sockets[i := sockets[i].(errored := true)];
      CloseWs();
    }

    method OnClose(i: nat)
      requires Enabled(State(), Closes(i))
      modifies this
      ensures State() == Apply(old(State()), Closes(i))
    {
      sockets := sockets[i := sockets[i].(ready := Closed)];
      connected := false;
      if !stopped && reconnectCount < MAX_RECONNECT {
        reconnectCount := reconnectCount + 1;
        reconnectTimer := Some(timers);
        pending := pending + {timers};
        timers := timers + 1;
      }
    }

    method OnTimer(t: nat)
      requires Enabled(State(), TimerFires(t))
      modifies this
      ensures State() == Apply(old(State()), TimerFires(t))
    {
      pending := pending - {t};
      Connect();
    }

    method Disconnect()
      modifies this
      ensures State() == Apply(old(State()), Event.Disconnect)
    {
      stopped := true;
      if reconnectTimer.Some? {
        pending := pending - {reconnectTimer.value};
      }
      CloseWs();
      connected := false;
    }
  }

  // ---- Every run -------------------------------------------------------------------

  predicate Alive(s: Sys) {
    s.sockets != [] && !s.sockets[|s.sockets| - 1].ready.Closed?
  }

  ghost predicate Inv(s: Sys) {
    && s.sockets != [] && s.ws == Some(|s.sockets| - 1)
    && (forall i :: 0 <= i < |s.sockets| - 1 ==> s.sockets[i].ready.Closed?)
    && (s.pending == {} || (s.reconnectTimer.Some? && s.pending == {s.reconnectTimer.value} && !s.stopped && !Alive(s)))
    && (forall t :: t in s.pending ==> t < s.timers)
    && s.reconnectCount <= MAX_RECONNECT
    && (!s.stopped && !Alive(s) && s.pending == {} ==> s.reconnectCount == MAX_RECONNECT)
    && |s.sockets| + (if s.pending == {} then 0 else 1) <= 1 + MAX_RECONNECT * s.opens + s.reconnectCount
    && StatusInv(s)
  }

  /** `connected` never lies about an open socket, and outlives one only until it has closed. */
  ghost predicate StatusInv(s: Sys)
    requires s.sockets != []
  {
    var last := s.sockets[|s.sockets| - 1];
    && (last.ready.Open? ==> s.connected)
    && (s.connected ==> !s.stopped && (last.ready.Open? || last.ready.Closing?))
    && (s.stopped ==> last.ready.Closing? || last.ready.Closed?)
    && (last.ready.Open? ==> last.everOpen) && (last.ready.Connecting? ==> !last.everOpen)
    && (last.everOpen && !last.ready.Closed? && !s.stopped ==> s.reconnectCount == 0)
  }

  lemma StepKeeps(s: Sys, e: Event)
    requires Inv(s) && Enabled(s, e)
    ensures Inv(Apply(s, e))
  {
    match e
    case Opened(i) => assert i == |s.sockets| - 1;
    case Errored(i) => assert i == |s.sockets| - 1;
    case Closes(i) => assert i == |s.sockets| - 1;
    case TimerFires(t) => assert s.pending - {t} == {};
    case Disconnect => assert ClearTimer(s) == {};
  }

  lemma {:induction false} RunKeeps(s: Sys, es: seq<Event>)
    requires Inv(s) && Runs(s, es)
    ensures Inv(After(s, es))
    decreases |es|
  {
    hide Inv;
    if es != [] {
      StepKeeps(s, es[0]);
      RunKeeps(Apply(s, es[0]), es[1..]);
    }
  }

  function Live(sockets: seq<Socket>): nat {
    if sockets == [] then 0
    else Live(sockets[..|sockets| - 1]) + if sockets[|sockets| - 1].ready.Closed? then 0 else 1
  }

  lemma {:induction false} AllClosed(sockets: seq<Socket>)
    requires forall i :: 0 <= i < |sockets| ==> sockets[i].ready.Closed?
    ensures Live(sockets) == 0
  {
    if sockets != [] {
      AllClosed(sockets[..|sockets| - 1]);
    }
  }

  /** In every run: live sockets and pending timers together never exceed one; sockets made are
      at most 1 + 5 * (opens + 1); without `disconnect`, no live socket and no pending timer
      means the count stands at exactly five; and a connection shown as up is not closed. */
  lemma ReconnectSafety(es: seq<Event>)
    requires Runs(FRESH, es)
    ensures var s := After(FRESH, es);
            && Live(s.sockets) + |s.pending| <= 1
            && |s.sockets| <= 1 + 5 * (s.opens + 1)
            && (!s.stopped && Live(s.sockets) + |s.pending| == 0 ==> s.reconnectCount == 5)
            && (s.connected ==> Live(s.sockets) == 1 && !s.stopped)
  {
    RunKeeps(FRESH, es);
    AtMostOne(After(FRESH, es));
    hide Runs, After, Live;
  }

  lemma AtMostOne(s: Sys)
    requires Inv(s)
    ensures Live(s.sockets) + |s.pending| == if Alive(s) || s.pending != {} then 1 else 0
    ensures Live(s.sockets) == if Alive(s) then 1 else 0
  {
    AllClosed(s.sockets[..|s.sockets| - 1]);
  }

  lemma {:induction false} StaysStopped(s: Sys, es: seq<Event>)
    requires Inv(s) && s.stopped && Runs(s, es)
    ensures var s' := After(s, es); |s'.sockets| == |s.sockets| && s'.stopped && s'.pending == {} && !s'.connected
    decreases |es|
  {
    if es != [] {
      StepKeeps(s, es[0]);
      StaysStopped(Apply(s, es[0]), es[1..]);
    }
  }

  /** After `disconnect`, whenever it comes, no socket is made and no timer is pending, whatever
      happens. */
  lemma NothingAfterDisconnect(before: seq<Event>, es: seq<Event>)
    requires Runs(FRESH, before) && Runs(Apply(After(FRESH, before), Disconnect), es)
    ensures var s := After(FRESH, before); var s' := After(Apply(s, Disconnect), es);
            |s'.sockets| == |s.sockets| && s'.pending == {} && !s'.connected
  {
    RunKeeps(FRESH, before);
    var s := After(FRESH, before);
    StepKeeps(s, Disconnect);
    StaysStopped(Apply(s, Disconnect), es);
  }

  // ---- Termination -----------------------------------------------------------------

  /** How many more events can come if no socket ever opens and nobody disconnects: a timer, an
      error and a close for each try left. */
  function Measure(s: Sys): nat
    requires s.reconnectCount <= MAX_RECONNECT
  {
    (if s.stopped then 0 else 3 * (MAX_RECONNECT - s.reconnectCount))
    + if s.pending != {} then 3
      else if !Alive(s) then 0
      else if s.sockets[|s.sockets| - 1].errored then 1 else 2
  }

  predicate Failing(e: Event) {
    !e.Opened? && !e.Disconnect?
  }

  lemma FailureCounts(s: Sys, e: Event)
    requires Inv(s) && Enabled(s, e) && Failing(e)
    ensures Inv(Apply(s, e)) && Measure(Apply(s, e)) < Measure(s)
  {
    StepKeeps(s, e);
    match e
    case Errored(i) => assert i == |s.sockets| - 1;
    case Closes(i) => assert i == |s.sockets| - 1;
    case TimerFires(t) => assert s.pending - {t} == {};
  }

  lemma {:induction false} FailingEnds(s: Sys, es: seq<Event>)
    requires Inv(s) && Runs(s, es) && forall e :: e in es ==> Failing(e)
    ensures Inv(After(s, es)) && |es| + Measure(After(s, es)) <= Measure(s)
    ensures var s' := After(s, es);
            (forall e :: Enabled(s', e) ==> e.Disconnect?) <==> !Alive(s') && s'.pending == {}
    decreases |es|
  {
    if es == [] {
      OverMeansIdle(s);
    } else {
      assert es[0] in es;
      FailureCounts(s, es[0]);
      FailingEnds(Apply(s, es[0]), es[1..]);
    }
  }

  /** Without further opens every run ends, from any reachable state: three events for each try
      left and three more are the most there can be, and none but `disconnect` is left exactly
      when no socket lives and no timer is pending; it has then stopped, or given up at five. */
  lemma ReconnectEnds(before: seq<Event>, es: seq<Event>)
    requires Runs(FRESH, before) && Runs(After(FRESH, before), es) && forall e :: e in es ==> Failing(e)
    ensures |es| <= 3 * (5 - After(FRESH, before).reconnectCount) + 3
    ensures var s' := After(After(FRESH, before), es);
            && ((forall e :: Enabled(s', e) ==> e.Disconnect?) <==> !Alive(s') && s'.pending == {})
            && (!Alive(s') && s'.pending == {} ==> s'.stopped || s'.reconnectCount == 5)
  {
    RunKeeps(FRESH, before);
    FailingEnds(After(FRESH, before), es);
  }

  lemma OverMeansIdle(s: Sys)
    requires Inv(s)
    ensures (forall e :: Enabled(s, e) ==> e.Disconnect?) <==> !Alive(s) && s.pending == {}
  {
    if Alive(s) {
      assert Enabled(s, Closes(|s.sockets| - 1));
    }
    if s.pending != {} {
      var t :| t in s.pending;
      assert Enabled(s, TimerFires(t));
    }
  }

  lemma Extend(s: Sys, es: seq<Event>, e: Event) returns (more: seq<Event>)
    requires Runs(s, es) && Enabled(After(s, es), e)
    ensures more == es + [e] && Runs(s, more) && After(s, more) == Apply(After(s, es), e)
    decreases |es|
  {
    more := es + [e];
    if es != [] {
      var rest := Extend(Apply(s, es[0]), es[1..], e);
      assert more[1..] == rest;
    } else {
      assert more[1..] == [];
    }
  }

  /** Each socket made since there were `base` of them was counted. */
  ghost predicate AllCounted(s: Sys, base: nat) {
    !s.stopped && |s.sockets| + (if s.pending == {} then 0 else 1) == base + s.reconnectCount
  }

  lemma FailureIsCounted(s: Sys, base: nat, e: Event)
    requires Inv(s) && AllCounted(s, base) && Enabled(s, e) && Failing(e)
    ensures AllCounted(Apply(s, e), base)
  {
    match e
    case Errored(i) => assert i == |s.sockets| - 1;
    case Closes(i) => assert i == |s.sockets| - 1;
    case TimerFires(t) => assert s.pending - {t} == {};
  }

  lemma {:induction false} FailuresAreCounted(s: Sys, base: nat, es: seq<Event>)
    requires Inv(s) && AllCounted(s, base) && Runs(s, es) && forall e :: e in es ==> Failing(e)
    ensures Inv(After(s, es)) && AllCounted(After(s, es), base)
    decreases |es|
  {
    hide Inv, AllCounted;
    if es != [] {
      assert es[0] in es;
      StepKeeps(s, es[0]);
      FailureIsCounted(s, base, es[0]);
      FailuresAreCounted(Apply(s, es[0]), base, es[1..]);
    }
  }

  /** A server that never answers is tried exactly six times: no run without an open or a
      `disconnect` makes more sockets, and none is over with fewer. */
  lemma UnansweredTriesSix(es: seq<Event>)
    requires Runs(FRESH, es) && forall e :: e in es ==> Failing(e)
    ensures var s := After(FRESH, es);
            && |s.sockets| <= 6
            && (!Alive(s) && s.pending == {} <==> |s.sockets| == 6 && !Alive(s))
  {
    FailuresAreCounted(FRESH, 1, es);
  }

  /** An open gives five fresh tries, whatever came before it: from then on no run without
      another open or a `disconnect` makes more than five further sockets, and none is over
      before the fifth of them has closed. */
  lemma OpenGivesFiveTries(before: seq<Event>, i: nat, es: seq<Event>)
    requires Runs(FRESH, before) && Enabled(After(FRESH, before), Opened(i))
    requires Runs(Apply(After(FRESH, before), Opened(i)), es) && forall e :: e in es ==> Failing(e)
    ensures var n := |After(FRESH, before).sockets|; var s := After(Apply(After(FRESH, before), Opened(i)), es);
            && |s.sockets| <= n + 5 && !s.stopped
            && (!Alive(s) && s.pending == {} <==> |s.sockets| == n + 5 && !Alive(s))
  {
    RunKeeps(FRESH, before);
    var s := After(FRESH, before);
    StepKeeps(s, Opened(i));
    FailuresAreCounted(Apply(s, Opened(i)), |s.sockets|, es);
  }

  /** The close of a socket that had opened is always followed by a new try, unless stopped. */
  lemma DropIsRetried(es: seq<Event>, i: nat)
    requires Runs(FRESH, es) && Enabled(After(FRESH, es), Closes(i))
    requires After(FRESH, es).sockets[i].everOpen && !After(FRESH, es).stopped
    ensures var s' := Apply(After(FRESH, es), Closes(i));
            && s'.reconnectCount == 1
            && exists t :: t in s'.pending && |Apply(s', TimerFires(t)).sockets| == |s'.sockets| + 1
  {
    RunKeeps(FRESH, es);
    var s := After(FRESH, es);
    assert i == |s.sockets| - 1;
    var s' := Apply(s, Closes(i));
    assert s.timers in s'.pending;
    assert |Apply(s', TimerFires(s.timers)).sockets| == |s'.sockets| + 1;
  }

  /** An error ends its socket: it can no longer open, and all it can do is close. */
  lemma ErrorEndsSocket(es: seq<Event>, i: nat)
    requires Runs(FRESH, es) && Enabled(After(FRESH, es), Errored(i))
    ensures var s' := Apply(After(FRESH, es), Errored(i));
            s'.sockets[i].ready.Closing? && forall e :: Enabled(s', e) ==> e == Closes(i) || e.Disconnect?
  {
    RunKeeps(FRESH, es);
    var s := After(FRESH, es);
    assert i == |s.sockets| - 1;
  }

  /** And such a run exists for each number of sockets up to six. */
  lemma {:induction false} Unanswered(n: nat) returns (es: seq<Event>)
    requires n <= MAX_RECONNECT
    ensures Runs(FRESH, es) && Inv(After(FRESH, es))
    ensures var s := After(FRESH, es);
            && |s.sockets| == n + 1 && !Alive(s) && !s.stopped && s.opens == 0
            && (if n < MAX_RECONNECT then s.reconnectCount == n + 1 && s.pending != {} else s.pending == {})
  {
    if n == 0 {
      es := [];
    } else {
      es := Unanswered(n - 1);
      var t :| t in After(FRESH, es).pending;
      es := Extend(FRESH, es, TimerFires(t));
    }
    es := Extend(FRESH, es, Closes(n));
    RunKeeps(FRESH, es);
  }

  function Count(es: seq<Event>): nat {
    if es == [] then 0 else (if es[0].Opened? then 1 else 0) + Count(es[1..])
  }

  /** `opens` is the number of open events, and a socket that has closed never changes again. */
  lemma {:induction false} ClosedForGood(s: Sys, es: seq<Event>, i: nat)
    requires Runs(s, es) && i < |s.sockets|
    ensures var s' := After(s, es);
            && s'.opens == s.opens + Count(es)
            && i < |s'.sockets|
            && (s.sockets[i].ready.Closed? ==> s'.sockets[i] == s.sockets[i])
    decreases |es|
  {
    if es != [] {
      ClosedForGood(Apply(s, es[0]), es[1..], i);
    }
  }
}
