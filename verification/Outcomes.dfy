/**
 What becomes of the create requests (internal/api/server.go, createSession): each ends in
 exactly one of four ways, and a stored session is the one some request asked for.
 */
module Outcomes {
  import opened Wrappers
  import opened Store
  import opened Lifecycle

  /** The container had an attach session; Exec or Attach failed; the store was full; or stored. */
  datatype Outcome = Reused | Failed | Refused | Kept

  /** The step that decides a create. */
  function Decides(s: Sys, a: Action): Option<Outcome>
    requires Enabled(s, a)
  {
    match a
    case Find(i) => if HasSession(s.store, s.handlers[i].container, Attach) then Some(Reused) else None
    case Open(i, _, _, ok) => if ok || s.handlers[i].mode.Logs? then None else Some(Failed)
    case Save(_) => Some(if Full(s.cap, s.store) then Refused else Kept)
    case _ => None
  }

  function Count(s: Sys, acts: seq<Action>, outcome: Outcome): nat
    requires Runs(s, acts)
    decreases |acts|
  {
    if acts == [] then 0
    else (if Decides(s, acts[0]) == Some(outcome) then 1 else 0) + Count(Apply(s, acts[0]), acts[1..], outcome)
  }

  function Creates(acts: seq<Action>): nat {
    if acts == [] then 0 else (if acts[0].Create? then 1 else 0) + Creates(acts[1..])
  }

  function Decided(s: Sys, acts: seq<Action>): nat
    requires Runs(s, acts)
  {
    Count(s, acts, Reused) + Count(s, acts, Failed) + Count(s, acts, Refused) + Count(s, acts, Kept)
  }

  predicate InDoubt(pc: Pc) {
    pc.Finding? || pc.Opening? || pc.Storing?
  }

  function Undecided(hs: seq<Pc>): nat {
    if hs == [] then 0 else Undecided(hs[..|hs| - 1]) + if InDoubt(hs[|hs| - 1]) then 1 else 0
  }

  lemma {:induction false} UndecidedUpdate(hs: seq<Pc>, i: nat, pc: Pc)
    requires i < |hs|
    ensures Undecided(hs[i := pc]) ==
            Undecided(hs) - (if InDoubt(hs[i]) then 1 else 0) + (if InDoubt(pc) then 1 else 0)
  {
    var n := |hs| - 1;
    if i == n {
      assert hs[i := pc][..n] == hs[..n];
    } else {
      assert hs[i := pc][..n] == hs[..n][i := pc];
      UndecidedUpdate(hs[..n], i, pc);
    }
  }

  lemma UndecidedSnoc(hs: seq<Pc>, pc: Pc)
    ensures Undecided(hs + [pc]) == Undecided(hs) + if InDoubt(pc) then 1 else 0
  {
    assert (hs + [pc])[..|hs|] == hs;
  }

  lemma {:induction false} NoneUndecided(hs: seq<Pc>)
    requires forall i :: 0 <= i < |hs| ==> hs[i].Done?
    ensures Undecided(hs) == 0
  {
    if hs != [] {
      NoneUndecided(hs[..|hs| - 1]);
    }
  }

  lemma StepDecides(s: Sys, a: Action)
    requires Enabled(s, a)
    ensures Undecided(Apply(s, a).handlers) ==
            Undecided(s.handlers) + (if a.Create? then 1 else 0) - (if Decides(s, a).Some? then 1 else 0)
  {
    hide Undecided, HasSession, Full, StreamOf;
    if Starts(a) {
      BeginAppends(s, a);
      UndecidedSnoc(s.handlers, Apply(s, a).handlers[|s.handlers|]);
    } else {
      MovesOne(s, a);
      UndecidedUpdate(s.handlers, a.i, Apply(s, a).handlers[a.i]);
    }
  }

  lemma {:induction false} RunDecides(s: Sys, acts: seq<Action>)
    requires Runs(s, acts)
    ensures Undecided(s.handlers) + Creates(acts) == Undecided(After(s, acts).handlers) + Decided(s, acts)
    decreases |acts|
  {
    hide Enabled, Apply, Undecided, Decides;
    if acts != [] {
      StepDecides(s, acts[0]);
      var d := Decides(s, acts[0]);
      assert d.Some? ==> d.value.Reused? || d.value.Failed? || d.value.Refused? || d.value.Kept?;
      RunDecides(Apply(s, acts[0]), acts[1..]);
    }
  }

  /** A save files its session exactly if there is no cap or room below it. */
  lemma SaveFilesBelowCap(s: Sys, i: nat)
    requires Inv(s) && Enabled(s, Save(i))
    ensures var s', sess := Apply(s, Save(i)), s.handlers[i].sess;
            && (sess.id in s'.store && sess.id in s'.stored <==> s.cap <= 0 || |s.store| < s.cap)
            && (sess.id in s'.store ==> s'.store[sess.id] == sess)
            && |s'.stored| == |s.stored| + if sess.id in s'.stored then 1 else 0
  {
    assert PcInv(s, s.handlers[i]);
  }

  lemma StepKeepsStored(s: Sys, a: Action)
    requires Inv(s) && Enabled(s, a)
    ensures |Apply(s, a).stored| == |s.stored| + if Decides(s, a) == Some(Kept) then 1 else 0
  {
    if a.Save? {
      SaveFilesBelowCap(s, a.i);
    }
  }

  lemma {:induction false} RunKeepsStored(s: Sys, acts: seq<Action>)
    requires Inv(s) && Runs(s, acts)
    ensures |After(s, acts).stored| == |s.stored| + Count(s, acts, Kept)
    decreases |acts|
  {
    hide Inv, Enabled, Apply, Decides;
    if acts != [] {
      StepKeeps(s, acts[0]);
      StepKeepsStored(s, acts[0]);
      RunKeepsStored(Apply(s, acts[0]), acts[1..]);
    }
  }

  /** At rest every create request has had one outcome, and as many sessions were ever stored
      as requests were neither answered with an existing session, failed nor refused. */
  lemma CreatesSplit(cap: int, acts: seq<Action>)
    requires Runs(Empty(cap), acts) && AtRest(After(Empty(cap), acts))
    ensures Creates(acts) == |After(Empty(cap), acts).stored| + Count(Empty(cap), acts, Reused)
                             + Count(Empty(cap), acts, Failed) + Count(Empty(cap), acts, Refused)
  {
    RunDecides(Empty(cap), acts);
    RunKeepsStored(Empty(cap), acts);
    NoneUndecided(After(Empty(cap), acts).handlers);
  }

  // ---- What was asked for ----------------------------------------------------------

  function Requests(acts: seq<Action>): set<(Container, Mode)> {
    if acts == [] then {}
    else (if acts[0].Create? then {(acts[0].container, acts[0].mode)} else {}) + Requests(acts[1..])
  }

  /** A session as asked for: container and mode of a request, a stream unless in logs mode. */
  predicate Asked(sess: Session, requests: set<(Container, Mode)>) {
    (sess.container, sess.mode) in requests && (sess.mode.Logs? <==> sess.stream.None?)
  }

  predicate PcAsked(pc: Pc, requests: set<(Container, Mode)>) {
    match pc
    case Finding(c) => (c, Attach) in requests
    case Opening(c, mode) => (c, mode) in requests
    case Done => true
    case _ => Asked(pc.sess, requests)
  }

  ghost predicate AllAsked(s: Sys, requests: set<(Container, Mode)>) {
    && (forall i :: 0 <= i < |s.handlers| ==> PcAsked(s.handlers[i], requests))
    && (forall id :: id in s.store ==> Asked(s.store[id], requests))
  }

  lemma StepAsked(s: Sys, a: Action, requests: set<(Container, Mode)>)
    requires AllAsked(s, requests) && Enabled(s, a)
    requires a.Create? ==> (a.container, a.mode) in requests
    ensures AllAsked(Apply(s, a), requests)
  {
    hide HasSession;
    if Starts(a) {
      BeginAppends(s, a);
    } else {
      MovesOne(s, a);
      assert PcAsked(s.handlers[a.i], requests);
    }
  }

  lemma {:induction false} RunAsked(s: Sys, acts: seq<Action>, requests: set<(Container, Mode)>)
    requires AllAsked(s, requests) && Runs(s, acts) && Requests(acts) <= requests
    ensures AllAsked(After(s, acts), requests)
    decreases |acts|
  {
    hide Enabled, Apply, AllAsked;
    if acts != [] {
      StepAsked(s, acts[0], requests);
      RunAsked(Apply(s, acts[0]), acts[1..], requests);
    }
  }

  /** Every stored session has the container and the mode of some create request, and a stream
      exactly if the mode is exec or attach. */
  lemma StoredAsAsked(cap: int, acts: seq<Action>, id: Id)
    requires Runs(Empty(cap), acts) && id in After(Empty(cap), acts).store
    ensures Asked(After(Empty(cap), acts).store[id], Requests(acts))
  {
    RunAsked(Empty(cap), acts, Requests(acts));
  }

  // ---- Handlers end ----------------------------------------------------------------

  /** How many steps a handler has left at most. */
  function Rank(pc: Pc): nat {
    match pc
    case Finding(_) => 5
    case Opening(_, _) => 4
    case Storing(_) => 3
    case Counting(_) => 2
    case Announcing(_) => 1
    case Rejecting(_) => 1
    case Closing(_) => 4
    case Removing(_) => 3
    case Discounting(_) => 2
    case Ending(_) => 1
    case Done => 0
  }

  function TotalRank(hs: seq<Pc>): nat {
    if hs == [] then 0 else TotalRank(hs[..|hs| - 1]) + Rank(hs[|hs| - 1])
  }

  lemma {:induction false} TotalRankUpdate(hs: seq<Pc>, i: nat, pc: Pc)
    requires i < |hs|
    ensures TotalRank(hs[i := pc]) == TotalRank(hs) - Rank(hs[i]) + Rank(pc)
  {
    var n := |hs| - 1;
    if i == n {
      assert hs[i := pc][..n] == hs[..n];
    } else {
      assert hs[i := pc][..n] == hs[..n][i := pc];
      TotalRankUpdate(hs[..n], i, pc);
    }
  }

  lemma StepRanks(s: Sys, a: Action)
    requires Enabled(s, a) && !Starts(a)
    ensures TotalRank(Apply(s, a).handlers) < TotalRank(s.handlers)
  {
    hide TotalRank, HasSession, Full, StreamOf;
    MovesOne(s, a);
    TotalRankUpdate(s.handlers, a.i, Apply(s, a).handlers[a.i]);
  }

  predicate IsStepOf(a: Action, i: nat) {
    !Starts(a) && a.i == i
  }

  /** A handler that is not done always has a step, whatever the others do. */
  lemma AlwaysAStep(s: Sys, i: nat, id: Id, stream: nat)
    requires i < |s.handlers| && !s.handlers[i].Done? && id !in s.ids && stream !in s.streams
    ensures exists a :: IsStepOf(a, i) && Enabled(s, a)
  {
    var a :=
      match s.handlers[i]
      case Finding(_) => Find(i)
      case Opening(_, _) => Open(i, id, stream, true)
      case Storing(_) => Save(i)
      case Rejecting(_) => Reject(i)
      case Counting(_) => Action.Count(i)
      case Announcing(_) => Announce(i)
      case Closing(_) => Close(i)
      case Removing(_) => Remove(i)
      case Discounting(_) => Discount(i)
      case Ending(_) => End(i);
    assert IsStepOf(a, i) && Enabled(s, a);
  }

  /** So every set of requests comes to rest: without new ones a run has at most the steps its
      handlers have left. */
  lemma {:induction false} HandlersEnd(s: Sys, acts: seq<Action>)
    requires Runs(s, acts) && forall a :: a in acts ==> !Starts(a)
    ensures |acts| + TotalRank(After(s, acts).handlers) <= TotalRank(s.handlers)
    decreases |acts|
  {
    hide Enabled, Apply, TotalRank;
    if acts != [] {
      assert acts[0] in acts;
      StepRanks(s, acts[0]);
      HandlersEnd(Apply(s, acts[0]), acts[1..]);
    }
  }
}
