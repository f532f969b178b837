/**
 The TTL manager with the callback the program gives it, EvictSession (internal/session/ttl.go,
 internal/api/server.go, cmd/cternal/main.go): expiry callbacks, delete requests and WebSocket
 handlers interleave over the timers and the session store. Session ids are never used twice.
 */
module Expiry {
  import opened Wrappers
  import Ttl

  /** A WebSocket handler: it has found its session, cancelled the timer, or left. */
  datatype Client = Found(id: string) | Connected(id: string) | Gone

  /** An eviction: a callback about to look its session up (`Calling`), or having found it; then
      after ttlMgr.Remove and after store.Delete. A callback then returns and makes its delete. */
  datatype Stage = Calling | Looked | Cleared | Over | Returned | Ended

  /** `timer` is the timer whose callback this is; none for a delete request. */
  datatype Work = Work(id: string, stage: Stage, timer: Option<nat>)

  /** `ever` is the history of all session ids. */
  datatype Sys = Sys(ttl: Ttl.Sys, stored: set<string>, ever: set<string>, clients: seq<Client>, works: seq<Work>)

  datatype Action =
    | Create(id: string) | Connect(id: string) | Cancel(i: nat) | Leave(i: nat)
    | Tick(d: nat) | Fire(k: nat) | Delete(id: string)
    | Look(w: nat) | Clear(w: nat) | Drop(w: nat) | Return(w: nat) | Forget(w: nat)

  predicate AtStage(s: Sys, w: nat, stage: Stage) {
    w < |s.works| && s.works[w].stage == stage
  }

  predicate Enabled(s: Sys, a: Action) {
    match a
    case Create(id) => id !in s.ever
    case Connect(id) => id in s.stored
    case Cancel(i) => i < |s.clients| && s.clients[i].Found?
    case Leave(i) => i < |s.clients| && s.clients[i].Connected?
    case Tick(_) => true
    case Fire(k) => Ttl.Enabled(s.ttl, Ttl.Fire(k))
    case Delete(id) => id in s.stored
    case Look(w) => AtStage(s, w, Calling)
    case Clear(w) => AtStage(s, w, Looked)
    case Drop(w) => AtStage(s, w, Cleared)
    case Return(w) =>
      AtStage(s, w, Over) && s.works[w].timer.Some? && Ttl.Enabled(s.ttl, Ttl.Call(s.works[w].timer.value))
    case Forget(w) =>
      AtStage(s, w, Returned) && s.works[w].timer.Some? && Ttl.Enabled(s.ttl, Ttl.Forget(s.works[w].timer.value))
  }

  function Moved(s: Sys, w: nat, stage: Stage): Sys
    requires w < |s.works|
  {
    s.(works := s.works[w := s.works[w].(stage := stage)])
  }

  function Apply(s: Sys, a: Action): Sys
    requires Enabled(s, a)
  {
    match a
    case Create(id) => s.(stored := s.stored + {id}, ever := s.ever + {id})
    case Connect(id) => s.(clients := s.clients + [Found(id)])
    case Cancel(i) =>
      var id := s.clients[i].id;
      s.(ttl := Ttl.Apply(s.ttl, Ttl.Cancel(id)), clients := s.clients[i := Connected(id)])
    case Leave(i) => s.(ttl := Ttl.Apply(s.ttl, Ttl.Start(s.clients[i].id)), clients := s.clients[i := Gone])
    case Tick(d) => s.(ttl := Ttl.Apply(s.ttl, Ttl.Tick(d)))
    case Fire(k) =>
      s.(ttl := Ttl.Apply(s.ttl, Ttl.Fire(k)), works := s.works + [Work(s.ttl.all[k].id, Calling, Some(k))])
    case Delete(id) => s.(works := s.works + [Work(id, Looked, None)])
    case Look(w) => Moved(s, w, if s.works[w].id in s.stored then Looked else Over)
    case Clear(w) => Moved(s, w, Cleared).(ttl := Ttl.Apply(s.ttl, Ttl.Remove(s.works[w].id)))
    case Drop(w) => Moved(s, w, Over).(stored := s.stored - {s.works[w].id})
    case Return(w) => Moved(s, w, Returned).(ttl := Ttl.Apply(s.ttl, Ttl.Call(s.works[w].timer.value)))
    case Forget(w) => Moved(s, w, Ended).(ttl := Ttl.Apply(s.ttl, Ttl.Forget(s.works[w].timer.value)))
  }

  function Fresh(ttl: int, now: int): Sys {
    Sys(Ttl.Fresh(ttl, now), {}, {}, [], [])
  }

  predicate Runs(s: Sys, acts: seq<Action>)
    decreases |acts|
  {
    acts == [] || (Enabled(s, acts[0]) && Runs(Apply(s, acts[0]), acts[1..]))
  }

  function After(s: Sys, acts: seq<Action>): Sys
    requires Runs(s, acts)
    decreases |acts|
  {
    if acts == [] then s else After(Apply(s, acts[0]), acts[1..])
  }

  // ---- Every run -------------------------------------------------------------------

  /** The phase of a callback's timer follows from the callback's stage. */
  function PhaseAt(stage: Stage): Ttl.Phase {
    match stage
    case Returned => Ttl.Called
    case Ended => Ttl.Done
    case _ => Ttl.Fired
  }

  ghost predicate WorkInv(s: Sys, w: Work) {
    && w.id in s.ever
    && (w.stage.Over? || w.stage.Returned? || w.stage.Ended? ==> w.id !in s.stored)
    && (w.timer.Some? ==>
          w.timer.value < |s.ttl.all| && s.ttl.all[w.timer.value].id == w.id
          && s.ttl.all[w.timer.value].phase == PhaseAt(w.stage))
  }

  ghost predicate WorksInv(s: Sys) {
    && (forall w :: 0 <= w < |s.works| ==> WorkInv(s, s.works[w]))
    && (forall v, w :: 0 <= v < w < |s.works| && s.works[v].timer.Some? ==> s.works[v].timer != s.works[w].timer)
  }

  ghost predicate IdsInv(s: Sys) {
    && s.stored <= s.ever
    && (forall i :: 0 <= i < |s.clients| && !s.clients[i].Gone? ==> s.clients[i].id in s.ever)
    && (forall k :: 0 <= k < |s.ttl.all| ==> s.ttl.all[k].id in s.ever)
  }

  /** Every armed timer of a stored session is the session's map entry. */
  ghost predicate StoredMapped(s: Sys) {
    forall k :: 0 <= k < |s.ttl.all| && s.ttl.all[k].phase.Armed? && s.ttl.all[k].id in s.stored ==>
      Ttl.Mapped(s.ttl, k)
  }

  ghost predicate Inv(s: Sys) {
    Ttl.Inv(s.ttl) && IdsInv(s) && WorksInv(s) && StoredMapped(s)
  }

  /** The manager action a step performs, if any. */
  function TtlAction(s: Sys, a: Action): Option<Ttl.Action>
    requires Enabled(s, a)
  {
    match a
    case Cancel(i) => Some(Ttl.Cancel(s.clients[i].id))
    case Leave(i) => Some(Ttl.Start(s.clients[i].id))
    case Tick(d) => Some(Ttl.Tick(d))
    case Fire(k) => Some(Ttl.Fire(k))
    case Clear(w) => Some(Ttl.Remove(s.works[w].id))
    case Return(w) => Some(Ttl.Call(s.works[w].timer.value))
    case Forget(w) => Some(Ttl.Forget(s.works[w].timer.value))
    case _ => None
  }

  lemma TtlMoves(s: Sys, a: Action)
    requires Enabled(s, a)
    ensures var t := TtlAction(s, a);
            if t.Some? then Ttl.Enabled(s.ttl, t.value) && Apply(s, a).ttl == Ttl.Apply(s.ttl, t.value)
            else Apply(s, a).ttl == s.ttl
  {
  }

  lemma TtlKept(s: Sys, a: Action)
    requires Ttl.Inv(s.ttl) && Enabled(s, a)
    ensures Ttl.Inv(Apply(s, a).ttl)
  {
    TtlMoves(s, a);
    if TtlAction(s, a).Some? {
      Ttl.StepKeeps(s.ttl, TtlAction(s, a).value);
    }
    hide Apply, Enabled, TtlAction;
  }

  /** A timer keeps its session; only the step of its own callback moves it once fired, and
      none arms it again. */
  lemma TimerKept(t: Ttl.Sys, a: Ttl.Action, k: nat)
    requires Ttl.Enabled(t, a) && k < |t.all|
    ensures var t' := Ttl.Apply(t, a);
            && k < |t'.all| && t'.all[k].id == t.all[k].id
            && (t'.all[k].phase.Armed? ==> t.all[k].phase.Armed?)
            && (!t.all[k].phase.Armed? && a != Ttl.Call(k) && a != Ttl.Forget(k) ==> t'.all[k].phase == t.all[k].phase)
  {
  }

  lemma IdsKept(s: Sys, a: Action)
    requires Ttl.Inv(s.ttl) && IdsInv(s) && WorksInv(s) && Enabled(s, a)
    ensures IdsInv(Apply(s, a))
  {
    var s' := Apply(s, a);
    TtlMoves(s, a);
    forall k | 0 <= k < |s'.ttl.all| ensures s'.ttl.all[k].id in s'.ever {
      if k < |s.ttl.all| && TtlAction(s, a).Some? {
        TimerKept(s.ttl, TtlAction(s, a).value, k);
      }
    }
  }

  lemma WorkKept(s: Sys, a: Action, w: nat)
    requires IdsInv(s) && WorksInv(s) && Enabled(s, a) && w < |s.works|
    ensures w < |Apply(s, a).works| && WorkInv(Apply(s, a), Apply(s, a).works[w])
    ensures Apply(s, a).works[w].timer == s.works[w].timer
  {
    var s', work := Apply(s, a), s.works[w];
    assert WorkInv(s, work);
    TtlMoves(s, a);
    if work.timer.Some? && TtlAction(s, a).Some? {
      TimerKept(s.ttl, TtlAction(s, a).value, work.timer.value);
    }
    if a.Return? || a.Forget? {
      assert a.w < w ==> s.works[a.w].timer != work.timer;
    }
  }

  lemma WorksKept(s: Sys, a: Action)
    requires IdsInv(s) && WorksInv(s) && Enabled(s, a)
    ensures WorksInv(Apply(s, a))
  {
    var s' := Apply(s, a);
    var n := |s.works|;
    forall w | 0 <= w < |s'.works| ensures WorkInv(s', s'.works[w]) {
      if w < n {
        WorkKept(s, a, w);
      }
    }
    forall v, w | 0 <= v < w < |s'.works| && s'.works[v].timer.Some? ensures s'.works[v].timer != s'.works[w].timer {
      WorkKept(s, a, v);
      assert WorkInv(s, s.works[v]);
      if w < n {
        WorkKept(s, a, w);
      }
    }
  }

  /** Starting, cancelling and removing stop the one timer that could be lost. */
  lemma ManagerKeepsMapped(s: Sys, a: Action)
    requires Inv(s) && Enabled(s, a) && (a.Cancel? || a.Leave? || a.Clear?)
    ensures StoredMapped(Apply(s, a))
  {
    var s' := Apply(s, a);
    forall k | 0 <= k < |s'.ttl.all| && s'.ttl.all[k].phase.Armed? && s'.ttl.all[k].id in s'.stored
      ensures Ttl.Mapped(s'.ttl, k)
    {
      if k < |s.ttl.all| {
        assert Ttl.Mapped(s.ttl, k);
      }
    }
  }

  lemma StoredMappedKept(s: Sys, a: Action)
    requires Inv(s) && Enabled(s, a) && !a.Cancel? && !a.Leave? && !a.Clear?
    ensures StoredMapped(Apply(s, a))
  {
    var s' := Apply(s, a);
    if a.Forget? {
      assert WorkInv(s, s.works[a.w]);
    }
    forall k | 0 <= k < |s'.ttl.all| && s'.ttl.all[k].phase.Armed? && s'.ttl.all[k].id in s'.stored
      ensures Ttl.Mapped(s'.ttl, k)
    {
      assert Ttl.Mapped(s.ttl, k);
    }
  }

  lemma StepKeeps(s: Sys, a: Action)
    requires Inv(s) && Enabled(s, a)
    ensures Inv(Apply(s, a))
  {
    TtlKept(s, a);
    IdsKept(s, a);
    WorksKept(s, a);
    if a.Cancel? || a.Leave? || a.Clear? {
      ManagerKeepsMapped(s, a);
    } else {
      StoredMappedKept(s, a);
    }
    hide Apply, Enabled, IdsInv, WorksInv, StoredMapped;
  }

  lemma {:induction false} RunKeeps(s: Sys, acts: seq<Action>)
    requires Inv(s) && Runs(s, acts)
    ensures Inv(After(s, acts))
    decreases |acts|
  {
    hide Inv;
    if acts != [] {
      StepKeeps(s, acts[0]);
      RunKeeps(Apply(s, acts[0]), acts[1..]);
    }
  }

  /** A callback whose stage allows its next step is never held up by its timer. */
  lemma CallbacksGoOn(ttl: int, now: int, acts: seq<Action>, w: nat)
    requires Runs(Fresh(ttl, now), acts) && w < |After(Fresh(ttl, now), acts).works|
    ensures var s := After(Fresh(ttl, now), acts); var work := s.works[w];
            && (work.stage.Over? && work.timer.Some? <==> Enabled(s, Return(w)))
            && (work.stage.Returned? && work.timer.Some? <==> Enabled(s, Forget(w)))
  {
    RunKeeps(Fresh(ttl, now), acts);
    assert WorkInv(After(Fresh(ttl, now), acts), After(Fresh(ttl, now), acts).works[w]);
  }

  /** Expiry. In every run of clients, expiries and deletes: an armed timer of a stored session
      is the session's map entry, so CancelTTL reaches it and the session has no other. */
  lemma StoredTimersCanBeCancelled(ttl: int, now: int, acts: seq<Action>, k: nat)
    requires Runs(Fresh(ttl, now), acts) && k < |After(Fresh(ttl, now), acts).ttl.all|
    requires After(Fresh(ttl, now), acts).ttl.all[k].phase.Armed?
    requires After(Fresh(ttl, now), acts).ttl.all[k].id in After(Fresh(ttl, now), acts).stored
    ensures var s := After(Fresh(ttl, now), acts); var id := s.ttl.all[k].id;
            && Ttl.CanCancel(s.ttl, id) && s.ttl.timers[id] == k
            && forall j :: 0 <= j < |s.ttl.all| && s.ttl.all[j].phase.Armed? && s.ttl.all[j].id == id ==> j == k
  {
    RunKeeps(Fresh(ttl, now), acts);
    var s := After(Fresh(ttl, now), acts);
    assert Ttl.Mapped(s.ttl, k);
    forall j | 0 <= j < |s.ttl.all| && s.ttl.all[j].phase.Armed? && s.ttl.all[j].id == s.ttl.all[k].id ensures j == k {
      assert Ttl.Mapped(s.ttl, j);
    }
  }

  /** Reconnecting. When a client has cancelled, its session is gone or has no armed timer. */
  lemma CancelDisarms(ttl: int, now: int, acts: seq<Action>, i: nat)
    requires Runs(Fresh(ttl, now), acts) && Enabled(After(Fresh(ttl, now), acts), Cancel(i))
    ensures var s := After(Fresh(ttl, now), acts); var s' := Apply(s, Cancel(i)); var id := s.clients[i].id;
            id in s'.stored ==>
              forall k :: 0 <= k < |s'.ttl.all| && s'.ttl.all[k].id == id ==> !s'.ttl.all[k].phase.Armed?
  {
    RunKeeps(Fresh(ttl, now), acts);
    var s := After(Fresh(ttl, now), acts);
    StepKeeps(s, Cancel(i));
    var s' := Apply(s, Cancel(i));
    var id := s.clients[i].id;
    forall k | 0 <= k < |s'.ttl.all| && s'.ttl.all[k].id == id && id in s'.stored ensures !s'.ttl.all[k].phase.Armed? {
      if s.ttl.all[k].phase.Armed? {
        assert Ttl.Mapped(s.ttl, k);
      }
    }
  }

  lemma {:induction false} GoneForGood(s: Sys, acts: seq<Action>, id: string)
    requires Inv(s) && Runs(s, acts) && id in s.ever && id !in s.stored
    ensures id !in After(s, acts).stored
    decreases |acts|
  {
    if acts != [] {
      StepKeeps(s, acts[0]);
      GoneForGood(Apply(s, acts[0]), acts[1..], id);
    }
  }

  /** An armed timer that CancelTTL cannot reach belongs to a session that is gone for good, so
      its callback will find nothing to evict. */
  lemma LostTimersAreHarmless(ttl: int, now: int, acts: seq<Action>, k: nat, more: seq<Action>)
    requires Runs(Fresh(ttl, now), acts) && k < |After(Fresh(ttl, now), acts).ttl.all|
    requires var s := After(Fresh(ttl, now), acts); s.ttl.all[k].phase.Armed? && !Ttl.Mapped(s.ttl, k)
    requires Runs(After(Fresh(ttl, now), acts), more)
    ensures var s := After(Fresh(ttl, now), acts); s.ttl.all[k].id !in After(s, more).stored
  {
    RunKeeps(Fresh(ttl, now), acts);
    GoneForGood(After(Fresh(ttl, now), acts), more, After(Fresh(ttl, now), acts).ttl.all[k].id);
  }

  lemma Extend(s: Sys, acts: seq<Action>, a: Action) returns (more: seq<Action>)
    requires Runs(s, acts) && Enabled(After(s, acts), a)
    ensures more == acts + [a] && Runs(s, more) && After(s, more) == Apply(After(s, acts), a)
    decreases |acts|
  {
    more := acts + [a];
    if acts != [] {
      var rest := Extend(Apply(s, acts[0]), acts[1..], a);
      assert more[1..] == rest;
    } else {
      assert more[1..] == [];
    }
  }

  /** A session whose first client has left, a full TTL ago. */
  lemma LeftSession(ttl: nat, id: string) returns (acts: seq<Action>)
    ensures Runs(Fresh(ttl, 0), acts)
    ensures After(Fresh(ttl, 0), acts) ==
            Sys(Ttl.Sys(ttl, ttl, map[id := 0], [Ttl.Timer(id, 0, Ttl.Armed, 0, 0)]), {id}, {id}, [Gone], [])
  {
    var s0 := Fresh(ttl, 0);
    acts := Extend(s0, [], Create(id));
    acts := Extend(s0, acts, Connect(id));
    acts := Extend(s0, acts, Cancel(0));
    acts := Extend(s0, acts, Leave(0));
    acts := Extend(s0, acts, Tick(ttl));
    var s := After(s0, acts);
    assert s.ttl.timers == map[id := 0] && s.stored == {id} && s.ever == {id};
  }

  /** Its second client is connected when the first one's timer goes off and finds the session. */
  lemma FoundWhileConnected(ttl: nat, id: string) returns (acts: seq<Action>)
    ensures Runs(Fresh(ttl, 0), acts)
    ensures After(Fresh(ttl, 0), acts) ==
            Sys(Ttl.Sys(ttl, ttl, map[id := 0], [Ttl.Timer(id, 0, Ttl.Fired, 0, 0)]), {id}, {id},
                [Gone, Connected(id)], [Work(id, Looked, Some(0))])
  {
    hide Runs, After;
    var s0 := Fresh(ttl, 0);
    acts := LeftSession(ttl, id);
    acts := Extend(s0, acts, Connect(id));
    acts := Extend(s0, acts, Fire(0));
    acts := Extend(s0, acts, Cancel(1));
    acts := Extend(s0, acts, Look(0));
  }

  /** The callback evicts it, and then the client leaves. */
  lemma EvictedThenLeft(ttl: nat, id: string) returns (acts: seq<Action>)
    ensures Runs(Fresh(ttl, 0), acts)
    ensures After(Fresh(ttl, 0), acts) ==
            Sys(Ttl.Sys(ttl, ttl, map[id := 1],
                        [Ttl.Timer(id, 0, Ttl.Fired, 0, 0), Ttl.Timer(id, ttl, Ttl.Armed, 0, 0)]),
                {}, {id}, [Gone, Gone], [Work(id, Over, Some(0))])
  {
    hide Runs, After;
    var s0 := Fresh(ttl, 0);
    acts := FoundWhileConnected(ttl, id);
    acts := Extend(s0, acts, Clear(0));
    acts := Extend(s0, acts, Drop(0));
    acts := Extend(s0, acts, Leave(1));
    var s := After(s0, acts);
    assert s.ttl.timers == map[id := 1] && s.stored == {};
  }

  /** Such timers exist: this callback's own delete then removes the new timer's map entry. */
  lemma LostTimerWitness(ttl: nat, id: string) returns (acts: seq<Action>)
    ensures Runs(Fresh(ttl, 0), acts)
    ensures var s := After(Fresh(ttl, 0), acts);
            |s.ttl.all| == 2 && s.ttl.all[1].id == id && s.ttl.all[1].phase.Armed? && !Ttl.Mapped(s.ttl, 1)
            && !Ttl.CanCancel(s.ttl, id) && id !in s.stored
  {
    hide Runs, After;
    var s0 := Fresh(ttl, 0);
    acts := EvictedThenLeft(ttl, id);
    acts := Extend(s0, acts, Return(0));
    acts := Extend(s0, acts, Forget(0));
  }

  /** An eviction under way goes through, in any reachable state: its remove silences the
      session's timer, its delete takes the session out of the store, and a callback then
      returns, having called onEvict once, and makes its own delete. */
  lemma EvictionGoesThrough(ttl: int, now: int, acts: seq<Action>, w: nat)
    requires Runs(Fresh(ttl, now), acts) && w < |After(Fresh(ttl, now), acts).works|
    requires After(Fresh(ttl, now), acts).works[w].stage.Looked?
    ensures var s := After(Fresh(ttl, now), acts); var work := s.works[w];
            && Enabled(s, Clear(w))
            && var s1 := Apply(s, Clear(w));
               && work.id !in s1.ttl.timers && Enabled(s1, Drop(w))
               && var s2 := Apply(s1, Drop(w));
                  && work.id !in s2.stored && s2.works[w] == work.(stage := Over)
                  && (work.timer.Some? ==>
                        && Enabled(s2, Return(w))
                        && var s3 := Apply(s2, Return(w));
                           && Enabled(s3, Forget(w)) && s3.ttl.all[work.timer.value].calls == 1
                           && Apply(s3, Forget(w)).works[w].stage.Ended?
                           && work.id !in Apply(s3, Forget(w)).ttl.timers)
  {
    RunKeeps(Fresh(ttl, now), acts);
    var s := After(Fresh(ttl, now), acts);
    hide Inv, Runs, After;
    StepKeeps(s, Clear(w));
    var s1 := Apply(s, Clear(w));
    StepKeeps(s1, Drop(w));
    var s2 := Apply(s1, Drop(w));
    if s2.works[w].timer.Some? {
      OverGoesOn(s2, w);
    }
  }

  lemma OverGoesOn(s: Sys, w: nat)
    requires Inv(s) && AtStage(s, w, Over) && s.works[w].timer.Some?
    ensures Enabled(s, Return(w))
    ensures var s' := Apply(s, Return(w));
            && Enabled(s', Forget(w)) && s'.ttl.all[s.works[w].timer.value].calls == 1
            && Apply(s', Forget(w)).works[w].stage.Ended?
            && s.works[w].id !in Apply(s', Forget(w)).ttl.timers
  {
    assert WorkInv(s, s.works[w]);
  }

  /** A timer that goes off starts a callback, which evicts the session if it is stored. */
  lemma FiringLooks(s: Sys, k: nat)
    requires Enabled(s, Fire(k))
    ensures var s' := Apply(s, Fire(k)); var w := |s.works|;
            && s'.works[w] == Work(s.ttl.all[k].id, Calling, Some(k)) && Enabled(s', Look(w))
            && Apply(s', Look(w)).works[w].stage == if s.ttl.all[k].id in s.stored then Looked else Over
  {
  }

  /** A delete request evicts the session it found. */
  lemma DeleteLooks(s: Sys, id: string)
    requires Enabled(s, Delete(id))
    ensures var s' := Apply(s, Delete(id)); var w := |s.works|;
            |s'.works| == w + 1 && s'.works[w] == Work(id, Looked, None) && Enabled(s', Clear(w))
  {
  }
}
