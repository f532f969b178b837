/**
 Which overlaps of create and evict handlers (internal/api/server.go) break the accounts that
 hold when handlers run one at a time, and that no other overlap does.
 */
module Overlaps {
  import opened Wrappers
  import opened Store
  import opened Lifecycle

  // ---- One attach session per container --------------------------------------------

  /** The save of an attach session whose container has one by now: nothing between the lookup
      and the save looks again. */
  predicate Doubles(s: Sys, a: Action)
    requires Enabled(s, a)
  {
    a.Save? && !Full(s.cap, s.store) &&
    var sess := s.handlers[a.i].sess;
    sess.mode.Attach? && HasSession(s.store, sess.container, Attach)
  }

  lemma SaveDoubles(store: map<Id, Session>, sess: Session)
    requires AttachUnique(store) && sess.id !in store
    ensures AttachUnique(store[sess.id := sess]) <==>
            !(sess.mode.Attach? && HasSession(store, sess.container, Attach))
  {
    var after := store[sess.id := sess];
    if sess.mode.Attach? && HasSession(store, sess.container, Attach) {
      var id :| id in store && Matches(store[id], sess.container, Attach);
      assert Matches(after[id], sess.container, Attach) && Matches(after[sess.id], sess.container, Attach);
    } else {
      forall id, id', c | id in after && id' in after && Matches(after[id], c, Attach) && Matches(after[id'], c, Attach)
        ensures id == id'
      {
      }
    }
  }

  /** Exactly one kind of step gives a container its second attach session. */
  lemma OnlySaveDoubles(s: Sys, a: Action)
    requires Inv(s) && AttachUnique(s.store) && Enabled(s, a)
    ensures AttachUnique(Apply(s, a).store) <==> !Doubles(s, a)
  {
    if a.Save? {
      assert PcInv(s, s.handlers[a.i]);
      SaveDoubles(s.store, s.handlers[a.i].sess);
    }
  }

  ghost predicate UniqueThroughout(s: Sys, acts: seq<Action>)
    requires Runs(s, acts)
    decreases |acts|
  {
    AttachUnique(s.store) && (acts == [] || UniqueThroughout(Apply(s, acts[0]), acts[1..]))
  }

  ghost predicate NeverDoubles(s: Sys, acts: seq<Action>)
    requires Runs(s, acts)
    decreases |acts|
  {
    acts == [] || (!Doubles(s, acts[0]) && NeverDoubles(Apply(s, acts[0]), acts[1..]))
  }

  lemma {:induction false} UniqueExactly(s: Sys, acts: seq<Action>)
    requires Inv(s) && AttachUnique(s.store) && Runs(s, acts)
    ensures UniqueThroughout(s, acts) <==> NeverDoubles(s, acts)
    decreases |acts|
  {
    hide Inv, AttachUnique, Doubles;
    if acts != [] {
      StepKeeps(s, acts[0]);
      OnlySaveDoubles(s, acts[0]);
      if !Doubles(s, acts[0]) {
        UniqueExactly(Apply(s, acts[0]), acts[1..]);
      } else {
        assert !UniqueThroughout(Apply(s, acts[0]), acts[1..]);
      }
    }
  }

  /** An attach create between its lookup of `c` and its save. */
  predicate InFlight(pc: Pc, c: Container) {
    || (pc.Opening? && pc.mode.Attach? && pc.container == c)
    || (pc.Storing? && pc.sess.mode.Attach? && pc.sess.container == c)
  }

  /** An attach create looks its container up while another one for it is in flight. */
  ghost predicate LooksDuring(s: Sys, a: Action)
    requires Enabled(s, a)
  {
    a.Find? && exists j :: 0 <= j < |s.handlers| && InFlight(s.handlers[j], s.handlers[a.i].container)
  }

  ghost predicate Orderly(s: Sys, acts: seq<Action>)
    requires Runs(s, acts)
    decreases |acts|
  {
    acts == [] || (!LooksDuring(s, acts[0]) && Orderly(Apply(s, acts[0]), acts[1..]))
  }

  ghost predicate FlightInv(s: Sys) {
    && (forall j, c :: 0 <= j < |s.handlers| && InFlight(s.handlers[j], c) ==> !HasSession(s.store, c, Attach))
    && (forall j, k, c :: 0 <= j < k < |s.handlers| ==> !(InFlight(s.handlers[j], c) && InFlight(s.handlers[k], c)))
  }

  /** A step of handler `i` that leaves it in flight for no other container, and the store with
      no more attach sessions. */
  lemma FlightKept(s: Sys, i: nat, s': Sys)
    requires FlightInv(s) && Moved(s, i, s')
    requires forall c :: InFlight(s'.handlers[i], c) ==> InFlight(s.handlers[i], c)
    requires forall c :: HasSession(s'.store, c, Attach) ==> HasSession(s.store, c, Attach)
    ensures FlightInv(s')
  {
    hide HasSession, InFlight;
  }

  lemma FewerSessions(store: map<Id, Session>, id: Id, c: Container)
    requires HasSession(store - {id}, c, Attach)
    ensures HasSession(store, c, Attach)
  {
    var x :| x in store - {id} && Matches((store - {id})[x], c, Attach);
    assert Matches(store[x], c, Attach);
  }

  lemma SaveKeepsFlights(s: Sys, i: nat)
    requires FlightInv(s) && Enabled(s, Save(i))
    ensures FlightInv(Apply(s, Save(i)))
  {
    var s', sess := Apply(s, Save(i)), s.handlers[i].sess;
    forall j, c | 0 <= j < |s'.handlers| && InFlight(s'.handlers[j], c) ensures !HasSession(s'.store, c, Attach) {
      assert j != i && InFlight(s.handlers[j], c) && !HasSession(s.store, c, Attach);
      assert !InFlight(s.handlers[i], c);
      forall x | x in s'.store ensures !Matches(s'.store[x], c, Attach) {
        assert s'.store[x] == sess || (x in s.store && s'.store[x] == s.store[x]);
      }
    }
  }

  lemma FlightStep(s: Sys, a: Action)
    requires FlightInv(s) && Enabled(s, a) && !LooksDuring(s, a)
    ensures FlightInv(Apply(s, a))
  {
    var s' := Apply(s, a);
    if Starts(a) {
      BeginAppends(s, a);
      hide Apply, HasSession;
    } else if a.Save? {
      SaveKeepsFlights(s, a.i);
    } else if a.Find? {
      FindKeepsFlights(s, a.i);
    } else {
      forall c | HasSession(s'.store, c, Attach) ensures HasSession(s.store, c, Attach) {
        if a.Remove? { FewerSessions(s.store, s.handlers[a.i].sess.id, c); }
      }
      FlightKept(s, a.i, s');
    }
  }

  lemma FindKeepsFlights(s: Sys, i: nat)
    requires FlightInv(s) && Enabled(s, Find(i)) && !LooksDuring(s, Find(i))
    ensures FlightInv(Apply(s, Find(i)))
  {
    hide HasSession;
    var s' := Apply(s, Find(i));
    assert forall j :: 0 <= j < |s.handlers| && j != i ==> s'.handlers[j] == s.handlers[j];
  }

  lemma FlightDoublesNot(s: Sys, a: Action)
    requires FlightInv(s) && Enabled(s, a)
    ensures !Doubles(s, a)
  {
    if a.Save? && s.handlers[a.i].sess.mode.Attach? {
      assert InFlight(s.handlers[a.i], s.handlers[a.i].sess.container);
    }
  }

  lemma {:induction false} OrderlyRun(s: Sys, acts: seq<Action>)
    requires Inv(s) && FlightInv(s) && AttachUnique(s.store) && Runs(s, acts) && Orderly(s, acts)
    ensures UniqueThroughout(s, acts)
    decreases |acts|
  {
    hide Inv, FlightInv, AttachUnique, Doubles, LooksDuring;
    if acts != [] {
      StepKeeps(s, acts[0]);
      FlightStep(s, acts[0]);
      FlightDoublesNot(s, acts[0]);
      OnlySaveDoubles(s, acts[0]);
      OrderlyRun(Apply(s, acts[0]), acts[1..]);
    }
  }

  /** In any run of any handlers: no container ever has two attach sessions exactly when no save
      of one found the container taken; and that never happens if no attach create looks its
      container up while another one for it is between its lookup and its save. */
  lemma AttachSessions(cap: int, acts: seq<Action>)
    requires Runs(Empty(cap), acts)
    ensures UniqueThroughout(Empty(cap), acts) <==> NeverDoubles(Empty(cap), acts)
    ensures Orderly(Empty(cap), acts) ==> UniqueThroughout(Empty(cap), acts)
  {
    UniqueExactly(Empty(cap), acts);
    if Orderly(Empty(cap), acts) {
      OrderlyRun(Empty(cap), acts);
    }
  }

  // ---- One end per session ---------------------------------------------------------

  /** An eviction that has yet to delete its session. */
  predicate ToRemove(pc: Pc, id: Id) {
    (pc.Closing? || pc.Removing?) && pc.sess.id == id
  }

  function Removals(hs: seq<Pc>, id: Id): nat {
    if hs == [] then 0 else Removals(hs[..|hs| - 1], id) + if ToRemove(hs[|hs| - 1], id) then 1 else 0
  }

  lemma {:induction false} RemovalsUpdate(hs: seq<Pc>, i: nat, pc: Pc, id: Id)
    requires i < |hs|
    ensures Removals(hs[i := pc], id) == Removals(hs, id)
              - (if ToRemove(hs[i], id) then 1 else 0) + (if ToRemove(pc, id) then 1 else 0)
  {
    var n := |hs| - 1;
    if i == n {
      assert hs[i := pc][..n] == hs[..n];
    } else {
      assert hs[i := pc][..n] == hs[..n][i := pc];
      RemovalsUpdate(hs[..n], i, pc, id);
    }
  }

  lemma RemovalsSnoc(hs: seq<Pc>, pc: Pc, id: Id)
    ensures Removals(hs + [pc], id) == Removals(hs, id) + if ToRemove(pc, id) then 1 else 0
  {
    assert (hs + [pc])[..|hs|] == hs;
  }

  lemma {:induction false} RemovalsExist(hs: seq<Pc>, id: Id)
    ensures Removals(hs, id) > 0 <==> exists j :: 0 <= j < |hs| && ToRemove(hs[j], id)
  {
    if hs != [] {
      var n := |hs| - 1;
      RemovalsExist(hs[..n], id);
      if Removals(hs[..n], id) > 0 {
        var j :| 0 <= j < n && ToRemove(hs[..n][j], id);
        assert ToRemove(hs[j], id);
      }
      forall j | 0 <= j < n && ToRemove(hs[j], id) ensures Removals(hs[..n], id) > 0 {
        assert ToRemove(hs[..n][j], id);
      }
    }
  }

  /** An eviction starts while another of the same session has yet to delete it. */
  ghost predicate Rivals(s: Sys, a: Action, id: Id) {
    a == Evict(id) && exists j :: 0 <= j < |s.handlers| && ToRemove(s.handlers[j], id)
  }

  ghost predicate Rivalry(s: Sys, acts: seq<Action>, id: Id)
    requires Runs(s, acts)
    decreases |acts|
  {
    acts != [] && (Rivals(s, acts[0], id) || Rivalry(Apply(s, acts[0]), acts[1..], id))
  }

  /** More evictions of `id` have missed or are under way than there is a session for. */
  predicate Surplus(s: Sys, id: Id) {
    Times(s.misses, id) + Removals(s.handlers, id) > One(id in s.store)
  }

  predicate MissInv(s: Sys, id: Id) {
    && (id in s.store ==> Times(s.misses, id) == 0)
    && (id !in s.stored ==> Times(s.misses, id) == 0 && Removals(s.handlers, id) == 0)
  }

  lemma StartSurplus(s: Sys, a: Action, id: Id)
    requires Inv(s) && MissInv(s, id) && Enabled(s, a) && Starts(a)
    ensures MissInv(Apply(s, a), id)
    ensures Surplus(Apply(s, a), id) <==> Surplus(s, id) || Rivals(s, a, id)
  {
    BeginAppends(s, a);
    var pc := Apply(s, a).handlers[|s.handlers|];
    hide Apply, Times, Removals;
    RemovalsSnoc(s.handlers, pc, id);
    RemovalsExist(s.handlers, id);
  }

  lemma MoveSurplus(s: Sys, a: Action, id: Id)
    requires MissInv(s, id) && Enabled(s, a) && Filed(s, a) && !Starts(a) && !a.Remove?
    ensures MissInv(Apply(s, a), id)
    ensures Surplus(Apply(s, a), id) <==> Surplus(s, id)
  {
    hide Times, Removals, HasSession;
    MovesOne(s, a);
    RemovalsUpdate(s.handlers, a.i, Apply(s, a).handlers[a.i], id);
  }

  lemma RemoveSurplus(s: Sys, i: nat, id: Id)
    requires MissInv(s, id) && Enabled(s, Remove(i)) && Filed(s, Remove(i))
    ensures MissInv(Apply(s, Remove(i)), id)
    ensures Surplus(Apply(s, Remove(i)), id) <==> Surplus(s, id)
  {
    hide Times, Removals;
    MovesOne(s, Remove(i));
    RemovalsUpdate(s.handlers, i, Apply(s, Remove(i)).handlers[i], id);
    TimesSnoc(s.misses, s.handlers[i].sess.id, id);
  }

  lemma {:induction false} RunSurplus(s: Sys, acts: seq<Action>, id: Id)
    requires Inv(s) && MissInv(s, id) && Runs(s, acts)
    ensures MissInv(After(s, acts), id)
    ensures Surplus(After(s, acts), id) <==> Surplus(s, id) || Rivalry(s, acts, id)
    decreases |acts|
  {
    hide Inv, MissInv, Surplus, Rivals;
    if acts != [] {
      StepKeeps(s, acts[0]);
      if Starts(acts[0]) {
        StartSurplus(s, acts[0], id);
      } else {
        FiledHolds(s, acts[0]);
        if acts[0].Remove? {
          RemoveSurplus(s, acts[0].i, id);
        } else {
          MoveSurplus(s, acts[0], id);
        }
        assert !Rivals(s, acts[0], id) by { NoRivals(s, acts[0], id); }
      }
      RunSurplus(Apply(s, acts[0]), acts[1..], id);
    }
  }

  lemma NoRivals(s: Sys, a: Action, id: Id)
    requires !Starts(a)
    ensures !Rivals(s, a, id)
  {
  }

  lemma {:induction false} NoneToRemove(hs: seq<Pc>, id: Id)
    requires forall i :: 0 <= i < |hs| ==> hs[i].Done?
    ensures Removals(hs, id) == 0
  {
    if hs != [] {
      NoneToRemove(hs[..|hs| - 1], id);
    }
  }

  lemma MissedMeansRivals(cap: int, acts: seq<Action>, id: Id)
    requires Runs(Empty(cap), acts) && AtRest(After(Empty(cap), acts))
    ensures Times(After(Empty(cap), acts).misses, id) > 0 <==> Rivalry(Empty(cap), acts, id)
  {
    RunSurplus(Empty(cap), acts, id);
    NoneToRemove(After(Empty(cap), acts).handlers, id);
  }

  /** With any handlers overlapping, at rest: every stored id has exactly one session.start; a
      session has one session.end if deleted and none if not, exactly when no eviction of it
      started while another had yet to delete it; and the gauge is the number of stored sessions
      exactly when that happened to no session. */
  lemma OverlapAccounts(cap: int, acts: seq<Action>, id: Id)
    requires Runs(Empty(cap), acts) && AtRest(After(Empty(cap), acts))
    ensures var s := After(Empty(cap), acts);
            && Times(s.starts, id) == One(id in s.stored)
            && (Times(s.ends, id) == One(id in s.stored && id !in s.store) <==> !Rivalry(Empty(cap), acts, id))
            && (s.gauge == |s.store| <==> forall x :: !Rivalry(Empty(cap), acts, x))
  {
    AccountsAtRest(cap, acts, id);
    MissedMeansRivals(cap, acts, id);
    var s := After(Empty(cap), acts);
    if s.misses == [] {
      forall x ensures !Rivalry(Empty(cap), acts, x) {
        MissedMeansRivals(cap, acts, x);
      }
    } else {
      MissedMeansRivals(cap, acts, s.misses[0]);
      assert s.misses[0] in multiset(s.misses);
    }
  }
}
