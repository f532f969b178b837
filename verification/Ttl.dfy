/**
 Session expiry (internal/session/ttl.go): a map of armed timers shared by StartTTL, CancelTTL,
 Remove and the timers' own callbacks, each of which runs in its own goroutine.
 */
module Ttl {

  /** `Armed` until stopped or due; `Fired` once its callback runs, `Called` once onEvict has
      returned and only the callback's delete is left. */
  datatype Phase = Armed | Stopped | Fired | Called | Done

  /** `calls` and `calledAt` record the timer's calls of onEvict. */
  datatype Timer = Timer(id: string, armedAt: int, phase: Phase, calls: nat, calledAt: int)
  {
    /** time.Timer.Stop: it succeeds only before the timer fires. */
    function Stop(): Timer {
      if phase.Armed? then this.(phase := Stopped) else this
    }
  }

  /** `timers` maps a session to an index into `all`, the timers ever made. */
  datatype Sys = Sys(ttl: int, now: int, timers: map<string, nat>, all: seq<Timer>)

  datatype Action =
    | Start(id: string) | Cancel(id: string) | Remove(id: string)
    | Tick(d: nat) | Fire(k: nat) | Call(k: nat) | Forget(k: nat)

  predicate Enabled(s: Sys, a: Action) {
    match a
    case Fire(k) => k < |s.all| && s.all[k].phase.Armed? && s.now >= s.all[k].armedAt + s.ttl
    case Call(k) => k < |s.all| && s.all[k].phase.Fired?
    case Forget(k) => k < |s.all| && s.all[k].phase.Called?
    case _ => true
  }

  /** Stops the timer mapped to `id`, if any. */
  function StopMapped(s: Sys, id: string): seq<Timer> {
    if id in s.timers && s.timers[id] < |s.all| then s.all[s.timers[id] := s.all[s.timers[id]].Stop()] else s.all
  }

  predicate CanCancel(s: Sys, id: string) {
    id in s.timers && s.timers[id] < |s.all| && s.all[s.timers[id]].phase.Armed?
  }

  function Apply(s: Sys, a: Action): Sys
    requires Enabled(s, a)
  {
    match a
    case Start(id) =>
      s.(all := StopMapped(s, id) + [Timer(id, s.now, Armed, 0, 0)], timers := s.timers[id := |s.all|])
    case Cancel(id) =>
      if CanCancel(s, id) then s.(all := StopMapped(s, id), timers := s.timers - {id}) else s
    case Remove(id) => s.(all := StopMapped(s, id), timers := s.timers - {id})
    case Tick(d) => s.(now := s.now + d)
    case Fire(k) => s.(all := s.all[k := s.all[k].(phase := Fired)])
    case Call(k) =>
      s.(all := s.all[k := s.all[k].(phase := Called, calls := s.all[k].calls + 1, calledAt := s.now)])
    case Forget(k) =>
      s.(all := s.all[k := s.all[k].(phase := Done)], timers := s.timers - {s.all[k].id})
  }

  function Fresh(ttl: int, now: int): Sys {
    Sys(ttl, now, map[], [])
  }

  predicate Runs(s: Sys, acts: seq<Action>)
    decreases |acts|
  {
    acts == [] || (Enabled(s, acts[0]) && Runs(Apply(s, acts[0]), acts[1..]))
  }

  function After(s: Sys, acts: seq<Action>): Sys
    requires Runs(s, acts)
    decreases |acts|
  {
    if acts == [] then s else After(Apply(s, acts[0]), acts[1..])
  }

  // ---- The class -------------------------------------------------------------------

  class TTLManager {
    const ttl: int
    var timers: map<string, nat>
    var all: seq<Timer>

    constructor (ttl: int)
      ensures forall now :: State(now) == Fresh(ttl, now)
    {
      this.ttl := ttl;
      timers, all := map[], [];
    }

    function State(now: int): Sys
      reads this
    {
      Sys(ttl, now, timers, all)
    }

    method StartTTL(id: string, now: int)
      requires Inv(State(now))
      modifies this
      ensures State(now) == Apply(old(State(now)), Start(id)) && Inv(State(now))
    {
      StepKeeps(State(now), Start(id));
      if id in timers {
        var k := timers[id];
        all := all[k := all[k].Stop()];
      }
      all := all + [Timer(id, now, Armed, 0, 0)];
      timers := timers[id := |all| - 1];
    }

    method CancelTTL(id: string, now: int) returns (stopped: bool)
      requires Inv(State(now))
      modifies this
      ensures State(now) == Apply(old(State(now)), Cancel(id)) && Inv(State(now))
      ensures stopped <==> CanCancel(old(State(now)), id)
    {
      StepKeeps(State(now), Cancel(id));
      if id !in timers {
        return false;
      }
      var k := timers[id];
      stopped := all[k].phase.Armed?;
      all := all[k := all[k].Stop()];
      if stopped {
        timers := timers - {id};
      }
    }

    method Remove(id: string, now: int)
      requires Inv(State(now))
      modifies this
      ensures State(now) == Apply(old(State(now)), Action.Remove(id)) && Inv(State(now))
    {
      StepKeeps(State(now), Action.Remove(id));
      if id in timers {
        var k := timers[id];
        all := all[k := all[k].Stop()];
        timers := timers - {id};
      } else {
        assert timers - {id} == timers;
      }
    }
  }

  // ---- Every run -------------------------------------------------------------------

  ghost predicate TimerInv(s: Sys, t: Timer) {
    match t.phase
    case Called => t.calls == 1 && t.armedAt + s.ttl <= t.calledAt <= s.now
    case Done => t.calls == 1 && t.armedAt + s.ttl <= t.calledAt <= s.now
    case Fired => t.calls == 0 && t.armedAt + s.ttl <= s.now
    case _ => t.calls == 0
  }

  ghost predicate Inv(s: Sys) {
    && (forall k :: 0 <= k < |s.all| ==> TimerInv(s, s.all[k]))
    && (forall id :: id in s.timers ==> s.timers[id] < |s.all| && s.all[s.timers[id]].id == id)
  }

  lemma StepKeeps(s: Sys, a: Action)
    requires Inv(s) && Enabled(s, a)
    ensures Inv(Apply(s, a))
  {
    hide Inv;
    match a
    case Start(id) => MapStepKeeps(s, a);
    case Cancel(id) => MapStepKeeps(s, a);
    case Remove(id) => MapStepKeeps(s, a);
    case _ => TimerStepKeeps(s, a);
  }

  lemma MapStepKeeps(s: Sys, a: Action)
    requires Inv(s) && (a.Start? || a.Cancel? || a.Remove?)
    ensures Inv(Apply(s, a))
  {
  }

  lemma TimerStepKeeps(s: Sys, a: Action)
    requires Inv(s) && Enabled(s, a) && (a.Tick? || a.Fire? || a.Call? || a.Forget?)
    ensures Inv(Apply(s, a))
  {
  }

  lemma {:induction false} RunKeeps(s: Sys, acts: seq<Action>)
    requires Inv(s) && Runs(s, acts)
    ensures Inv(After(s, acts))
    decreases |acts|
  {
    if acts != [] {
      StepKeeps(s, acts[0]);
      RunKeeps(Apply(s, acts[0]), acts[1..]);
    }
  }

  /** In every run: each timer calls onEvict at most once, only when its TTL has passed since
      the StartTTL that made it, and not at all if a Stop succeeded on it. */
  lemma EvictsAtMostOnceAndNotEarly(ttl: int, now: int, acts: seq<Action>, k: nat)
    requires Runs(Fresh(ttl, now), acts) && k < |After(Fresh(ttl, now), acts).all|
    ensures var t := After(Fresh(ttl, now), acts).all[k];
            && t.calls <= 1
            && (t.calls == 1 ==> t.calledAt >= t.armedAt + ttl)
            && (t.phase.Stopped? ==> t.calls == 0)
  {
    RunKeeps(Fresh(ttl, now), acts);
    TtlFixed(Fresh(ttl, now), acts);
  }

  lemma {:induction false} TtlFixed(s: Sys, acts: seq<Action>)
    requires Runs(s, acts)
    ensures After(s, acts).ttl == s.ttl
    decreases |acts|
  {
    if acts != [] {
      TtlFixed(Apply(s, acts[0]), acts[1..]);
    }
  }

  /** A timer whose Stop succeeded stays stopped through every later run. */
  lemma {:induction false} StoppedForever(s: Sys, acts: seq<Action>, k: nat)
    requires Runs(s, acts) && k < |s.all| && s.all[k].phase.Stopped?
    ensures k < |After(s, acts).all| && After(s, acts).all[k] == s.all[k]
    decreases |acts|
  {
    if acts != [] {
      StoppedForever(Apply(s, acts[0]), acts[1..], k);
    }
  }

  // ---- Which armed timers can still be cancelled -----------------------------------

  ghost predicate Mapped(s: Sys, k: nat)
    requires k < |s.all|
  {
    s.all[k].id in s.timers && s.timers[s.all[k].id] == k
  }

  /** Every armed timer is the map entry of its session. */
  ghost predicate AllMapped(s: Sys) {
    forall k :: 0 <= k < |s.all| && s.all[k].phase.Armed? ==> Mapped(s, k)
  }

  /** The callback's delete removes the entry of another, armed timer. */
  predicate Orphans(s: Sys, a: Action) {
    && a.Forget? && a.k < |s.all|
    && var id := s.all[a.k].id;
       id in s.timers && s.timers[id] != a.k && s.timers[id] < |s.all| && s.all[s.timers[id]].phase.Armed?
  }

  /** Exactly one kind of step can lose track of an armed timer. */
  lemma OnlyForgetOrphans(s: Sys, a: Action)
    requires Inv(s) && AllMapped(s) && Enabled(s, a)
    ensures AllMapped(Apply(s, a)) <==> !Orphans(s, a)
  {
    var s' := Apply(s, a);
    if Orphans(s, a) {
      var j := s.timers[s.all[a.k].id];
      assert s'.all[j].phase.Armed? && !Mapped(s', j);
    } else {
      forall k | 0 <= k < |s'.all| && s'.all[k].phase.Armed? ensures Mapped(s', k) {
        if k < |s.all| { assert Mapped(s, k); }
      }
    }
  }

  /** No StartTTL of a session whose earlier timer has fired and not yet made its delete. */
  ghost predicate Quiet(s: Sys, a: Action) {
    a.Start? ==> forall k :: 0 <= k < |s.all| && InCallback(s.all[k]) ==> s.all[k].id != a.id
  }

  predicate InCallback(t: Timer) {
    t.phase.Fired? || t.phase.Called?
  }

  ghost predicate QuietRun(s: Sys, acts: seq<Action>)
    requires Runs(s, acts)
    decreases |acts|
  {
    acts == [] || (Quiet(s, acts[0]) && QuietRun(Apply(s, acts[0]), acts[1..]))
  }

  /** No armed timer shares its session with one inside its callback. */
  ghost predicate Apart(s: Sys) {
    forall j, k :: 0 <= j < |s.all| && 0 <= k < |s.all| && s.all[j].phase.Armed? && InCallback(s.all[k]) ==>
      s.all[j].id != s.all[k].id
  }

  lemma QuietStepKeeps(s: Sys, a: Action)
    requires Inv(s) && AllMapped(s) && Apart(s) && Enabled(s, a) && Quiet(s, a)
    ensures AllMapped(Apply(s, a)) && Apart(Apply(s, a))
  {
    OnlyForgetOrphans(s, a);
    if a.Fire? {
      FireKeepsApart(s, a.k);
    }
    hide AllMapped;
  }

  lemma FireKeepsApart(s: Sys, k: nat)
    requires AllMapped(s) && Apart(s) && Enabled(s, Fire(k))
    ensures Apart(Apply(s, Fire(k)))
  {
    forall j | 0 <= j < |s.all| && j != k && s.all[j].phase.Armed? ensures s.all[j].id != s.all[k].id {
      assert Mapped(s, j) && Mapped(s, k);
    }
  }

  lemma {:induction false} QuietRunsKeepTrack(s: Sys, acts: seq<Action>)
    requires Inv(s) && AllMapped(s) && Apart(s) && Runs(s, acts) && QuietRun(s, acts)
    ensures AllMapped(After(s, acts))
    decreases |acts|
  {
    if acts != [] {
      StepKeeps(s, acts[0]);
      QuietStepKeeps(s, acts[0]);
      QuietRunsKeepTrack(Apply(s, acts[0]), acts[1..]);
    }
  }

  /** In a quiet run every armed timer is the map entry of its session, so a session has at
      most one armed timer. */
  lemma OneArmedTimerPerSession(ttl: int, now: int, acts: seq<Action>, j: nat, k: nat)
    requires Runs(Fresh(ttl, now), acts) && QuietRun(Fresh(ttl, now), acts)
    requires var s := After(Fresh(ttl, now), acts);
             && j < |s.all| && k < |s.all| && s.all[j].phase.Armed? && s.all[k].phase.Armed?
             && s.all[j].id == s.all[k].id
    ensures var s := After(Fresh(ttl, now), acts); Mapped(s, k) && j == k
  {
    QuietRunsKeepTrack(Fresh(ttl, now), acts);
    var s := After(Fresh(ttl, now), acts);
    assert Mapped(s, j) && Mapped(s, k);
  }

  lemma Extend(s: Sys, acts: seq<Action>, a: Action) returns (more: seq<Action>)
    requires Runs(s, acts) && Enabled(After(s, acts), a)
    ensures more == acts + [a] && Runs(s, more) && After(s, more) == Apply(After(s, acts), a)
    decreases |acts|
  {
    more := acts + [a];
    if acts != [] {
      var rest := Extend(Apply(s, acts[0]), acts[1..], a);
      assert more[1..] == rest;
    } else {
      assert more[1..] == [];
    }
  }

  /** Without quiet the claim fails: a session disconnected again while its old timer is inside
      the callback, past the callback's own Remove, ends up with an armed timer that CancelTTL
      cannot reach. Expiry.dfy shows that with the program's callback the session is gone then. */
  lemma OrphanWitness(ttl: nat, id: string) returns (acts: seq<Action>)
    ensures Runs(Fresh(ttl, 0), acts)
    ensures var s := After(Fresh(ttl, 0), acts);
            |s.all| == 2 && s.all[1].id == id && s.all[1].phase.Armed? && id !in s.timers && !CanCancel(s, id)
  {
    acts := Extend(Fresh(ttl, 0), [], Start(id));
    acts := Extend(Fresh(ttl, 0), acts, Tick(ttl));
    acts := Extend(Fresh(ttl, 0), acts, Fire(0));
    acts := Extend(Fresh(ttl, 0), acts, Action.Remove(id));
    acts := Extend(Fresh(ttl, 0), acts, Start(id));
    acts := Extend(Fresh(ttl, 0), acts, Call(0));
    acts := Extend(Fresh(ttl, 0), acts, Forget(0));
  }

  /** Starting again, and removing, silence the timer that was mapped, for good: if it had not
      fired yet it never calls onEvict. After a remove nothing is left to cancel, and a start
      leaves the session one armed timer, the new one. */
  lemma StartAndRemoveSilence(ttl: int, now: int, before: seq<Action>, id: string, a: Action, more: seq<Action>)
    requires Runs(Fresh(ttl, now), before) && (a == Start(id) || a == Action.Remove(id))
    requires Runs(Apply(After(Fresh(ttl, now), before), a), more)
    ensures var s := After(Fresh(ttl, now), before); var s' := Apply(s, a);
            && (id in s.timers ==>
                  && s.timers[id] < |s.all|
                  && (s.all[s.timers[id]].phase.Armed? ==>
                        var k := s.timers[id];
                        k < |After(s', more).all| && After(s', more).all[k].calls == 0))
            && (a.Remove? ==> id !in s'.timers)
            && (a.Start? ==> CanCancel(s', id) && s'.timers[id] == |s.all| && s'.all[|s.all|].armedAt == s.now)
  {
    RunKeeps(Fresh(ttl, now), before);
    var s := After(Fresh(ttl, now), before);
    StepKeeps(s, a);
    if id in s.timers && s.all[s.timers[id]].phase.Armed? {
      StoppedForever(Apply(s, a), more, s.timers[id]);
    }
  }

  /** A cancel silences the mapped timer exactly if it had not fired; then nothing is left to
      cancel, else nothing changes. */
  lemma CancelSilences(ttl: int, now: int, before: seq<Action>, id: string, more: seq<Action>)
    requires Runs(Fresh(ttl, now), before) && Runs(Apply(After(Fresh(ttl, now), before), Cancel(id)), more)
    ensures var s := After(Fresh(ttl, now), before); var s' := Apply(s, Cancel(id));
            if id in s.timers && s.timers[id] < |s.all| && s.all[s.timers[id]].phase.Armed? then
              && id !in s'.timers
              && s.timers[id] < |After(s', more).all| && After(s', more).all[s.timers[id]].calls == 0
            else s' == s
  {
    RunKeeps(Fresh(ttl, now), before);
    var s := After(Fresh(ttl, now), before);
    StepKeeps(s, Cancel(id));
    if id in s.timers && s.all[s.timers[id]].phase.Armed? {
      StoppedForever(Apply(s, Cancel(id)), more, s.timers[id]);
    }
  }

  /** A timer left alone for its TTL goes off: from then on its callback, call and delete follow
      one another. */
  lemma LeftAloneGoesOff(ttl: nat, now: int, acts: seq<Action>, k: nat)
    requires Runs(Fresh(ttl, now), acts) && k < |After(Fresh(ttl, now), acts).all|
    requires After(Fresh(ttl, now), acts).all[k].phase.Armed?
    ensures var s := After(Fresh(ttl, now), acts); var due := Apply(s, Tick(ttl));
            && due.now == s.now + ttl && Enabled(due, Fire(k))
            && var fired := Apply(due, Fire(k));
               && Enabled(fired, Call(k))
               && var called := Apply(fired, Call(k));
                  && called.all[k].calls == 1 && called.all[k].calledAt == due.now && Enabled(called, Forget(k))
                  && s.all[k].id !in Apply(called, Forget(k)).timers
  {
    RunKeeps(Fresh(ttl, now), acts);
    TtlFixed(Fresh(ttl, now), acts);
    ArmedInThePast(Fresh(ttl, now), acts, k);
  }

  lemma {:induction false} ArmedInThePast(s: Sys, acts: seq<Action>, k: nat)
    requires Runs(s, acts) && k < |After(s, acts).all|
    requires forall j :: 0 <= j < |s.all| ==> s.all[j].armedAt <= s.now
    ensures After(s, acts).all[k].armedAt <= After(s, acts).now
    decreases |acts|
  {
    if acts != [] {
      ArmedInThePast(Apply(s, acts[0]), acts[1..], k);
    }
  }
}
