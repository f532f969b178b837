/**
 Creating and evicting sessions (internal/api/server.go, createSession, EvictSession,
 deleteSession, evict) as steps of concurrent HTTP handlers and TTL callbacks over one store.
 Session ids and stream handles are fresh; that is the only assumption about the world.
 */
module Lifecycle {
  import opened Store
  import opened Wrappers

  /** Program counter of a create or evict handler. */
  datatype Pc =
    | Finding(container: Container)
    | Opening(container: Container, mode: Mode)
    | Storing(sess: Session) | Rejecting(sess: Session)
    | Counting(sess: Session) | Announcing(sess: Session)
    | Closing(sess: Session) | Removing(sess: Session) | Discounting(sess: Session) | Ending(sess: Session)
    | Done
  {
    predicate Evicting() {
      Closing? || Removing? || Discounting? || Ending?
    }
  }

  /** `streams` and `closed` are the streams ever opened and closed, `ids` and `stored` the session
      ids ever generated and stored, `gauge` the active-sessions metric, `starts` and `ends` the
      webhook log, and `misses` the deletes that found nothing to delete. */
  datatype Sys = Sys(
    cap: int, store: map<Id, Session>, streams: set<nat>, closed: set<nat>,
    ids: set<Id>, stored: set<Id>, gauge: int,
    starts: seq<Id>, ends: seq<Id>, misses: seq<Id>, handlers: seq<Pc>)

  datatype Action =
    | Create(container: Container, mode: Mode) | Evict(id: Id)
    | Find(i: nat) | Open(i: nat, id: Id, stream: nat, ok: bool) | Save(i: nat) | Reject(i: nat)
    | Count(i: nat) | Announce(i: nat)
    | Close(i: nat) | Remove(i: nat) | Discount(i: nat) | End(i: nat)

  predicate Starts(a: Action) {
    a.Create? || a.Evict?
  }

  predicate Enabled(s: Sys, a: Action) {
    match a
    case Create(_, _) => true
    case Evict(id) => id in s.store
    case Find(i) => i < |s.handlers| && s.handlers[i].Finding?
    case Open(i, id, stream, _) =>
      i < |s.handlers| && s.handlers[i].Opening? && id !in s.ids && stream !in s.streams
    case Save(i) => i < |s.handlers| && s.handlers[i].Storing?
    case Reject(i) => i < |s.handlers| && s.handlers[i].Rejecting?
    case Count(i) => i < |s.handlers| && s.handlers[i].Counting?
    case Announce(i) => i < |s.handlers| && s.handlers[i].Announcing?
    case Close(i) => i < |s.handlers| && s.handlers[i].Closing?
    case Remove(i) => i < |s.handlers| && s.handlers[i].Removing?
    case Discount(i) => i < |s.handlers| && s.handlers[i].Discounting?
    case End(i) => i < |s.handlers| && s.handlers[i].Ending?
  }

  function StreamOf(sess: Session): set<nat> {
    if sess.stream.Some? then {sess.stream.value} else {}
  }

  function Goto(s: Sys, i: nat, pc: Pc): Sys
    requires i < |s.handlers|
  {
    s.(handlers := s.handlers[i := pc])
  }

  function Apply(s: Sys, a: Action): Sys
    requires Enabled(s, a)
  {
    match a
    case Create(container, mode) =>
      s.(handlers := s.handlers + [if mode.Attach? then Finding(container) else Opening(container, mode)])
    case Evict(id) => s.(handlers := s.handlers + [Closing(s.store[id])])
    case Find(i) =>
      var c := s.handlers[i].container;
      Goto(s, i, if HasSession(s.store, c, Attach) then Done else Opening(c, Attach))
    case Open(i, id, stream, ok) =>
      var Opening(c, mode) := s.handlers[i];
      if mode.Logs? then Goto(s.(ids := s.ids + {id}), i, Storing(Session(id, c, mode, None)))
      else if ok then
        Goto(s.(ids := s.ids + {id}, streams := s.streams + {stream}), i, Storing(Session(id, c, mode, Some(stream))))
      else Goto(s, i, Done)
    case Save(i) =>
      var sess := s.handlers[i].sess;
      if Full(s.cap, s.store) then Goto(s, i, Rejecting(sess))
      else Goto(s.(store := s.store[sess.id := sess], stored := s.stored + {sess.id}), i, Counting(sess))
    case Reject(i) => Goto(s.(closed := s.closed + StreamOf(s.handlers[i].sess)), i, Done)
    case Count(i) => Goto(s.(gauge := s.gauge + 1), i, Announcing(s.handlers[i].sess))
    case Announce(i) => Goto(s.(starts := s.starts + [s.handlers[i].sess.id]), i, Done)
    case Close(i) =>
      Goto(s.(closed := s.closed + StreamOf(s.handlers[i].sess)), i, Removing(s.handlers[i].sess))
    case Remove(i) =>
      var sess := s.handlers[i].sess;
      Goto(s.(store := s.store - {sess.id}, misses := if sess.id in s.store then s.misses else s.misses + [sess.id]),
           i, Discounting(sess))
    case Discount(i) => Goto(s.(gauge := s.gauge - 1), i, Ending(s.handlers[i].sess))
    case End(i) => Goto(s.(ends := s.ends + [s.handlers[i].sess.id]), i, Done)
  }

  function Empty(cap: int): Sys {
    Sys(cap, map[], {}, {}, {}, {}, 0, [], [], [], [])
  }

  predicate Runs(s: Sys, acts: seq<Action>)
    decreases |acts|
  {
    acts == [] || (Enabled(s, acts[0]) && Runs(Apply(s, acts[0]), acts[1..]))
  }

  function After(s: Sys, acts: seq<Action>): Sys
    requires Runs(s, acts)
    decreases |acts|
  {
    if acts == [] then s else After(Apply(s, acts[0]), acts[1..])
  }

  // ---- Streams ---------------------------------------------------------------------

  /** The stream a create holds before its session is stored. */
  function InHand(pc: Pc): set<nat> {
    if pc.Storing? || pc.Rejecting? then StreamOf(pc.sess) else {}
  }

  ghost predicate Owned(s: Sys, stream: nat) {
    exists id :: id in s.store && s.store[id].stream == Some(stream)
  }

  ghost predicate Held(s: Sys, stream: nat) {
    exists i :: 0 <= i < |s.handlers| && stream in InHand(s.handlers[i])
  }

  /** An eviction has closed this session's stream and has yet to delete the session. */
  ghost predicate BeingRemoved(s: Sys, sess: Session) {
    exists i :: 0 <= i < |s.handlers| && s.handlers[i] == Removing(sess)
  }

  ghost predicate StoreInv(s: Sys) {
    && (s.cap > 0 ==> |s.store| <= s.cap)
    && s.store.Keys <= s.stored <= s.ids
    && s.closed <= s.streams
    && (forall id :: id in s.store ==> s.store[id].id == id && StreamOf(s.store[id]) <= s.streams)
    && (forall id, id' :: id in s.store && id' in s.store && id != id' ==>
          StreamOf(s.store[id]) !! StreamOf(s.store[id']))
    && (forall id :: id in s.store && !(StreamOf(s.store[id]) !! s.closed) ==> BeingRemoved(s, s.store[id]))
  }

  ghost predicate PcInv(s: Sys, pc: Pc) {
    && InHand(pc) <= s.streams && InHand(pc) !! s.closed
    && (forall id :: id in s.store ==> InHand(pc) !! StreamOf(s.store[id]))
    && (pc.Storing? ==> pc.sess.id in s.ids && pc.sess.id !in s.stored)
    && (pc.Evicting() ==>
          && pc.sess.id in s.stored && StreamOf(pc.sess) <= s.streams
          && (pc.sess.id in s.store ==> s.store[pc.sess.id] == pc.sess)
          && (pc.sess.id !in s.store || pc.Removing? ==> StreamOf(pc.sess) <= s.closed)
          && (pc.Discounting? || pc.Ending? ==> pc.sess.id !in s.store))
  }

  ghost predicate PairInv(p: Pc, q: Pc) {
    InHand(p) !! InHand(q) && (p.Storing? && q.Storing? ==> p.sess.id != q.sess.id)
  }

  ghost predicate HandlersInv(s: Sys) {
    && (forall i :: 0 <= i < |s.handlers| ==> PcInv(s, s.handlers[i]))
    && (forall i, j :: 0 <= i < j < |s.handlers| ==> PairInv(s.handlers[i], s.handlers[j]))
  }

  ghost predicate NoneLost(s: Sys) {
    forall x :: x in s.streams ==> Held(s, x) || Owned(s, x) || x in s.closed
  }

  ghost predicate Inv(s: Sys) {
    StoreInv(s) && HandlersInv(s) && NoneLost(s)
  }

  /** `s'` differs from `s` at handler `i` only, as far as handlers go. */
  ghost predicate Moved(s: Sys, i: nat, s': Sys) {
    i < |s.handlers| == |s'.handlers| && s'.handlers == s.handlers[i := s'.handlers[i]]
  }

  lemma NoneLostStep(s: Sys, i: nat, s': Sys)
    requires NoneLost(s) && Moved(s, i, s') && s.closed <= s'.closed
    requires forall x :: x in InHand(s.handlers[i]) ==> x in InHand(s'.handlers[i]) || Owned(s', x) || x in s'.closed
    requires forall x :: Owned(s, x) ==> Owned(s', x) || x in s'.closed
    requires forall x :: x in s'.streams ==> x in s.streams || x in InHand(s'.handlers[i])
    ensures NoneLost(s')
  {
    forall x | x in s'.streams ensures Held(s', x) || Owned(s', x) || x in s'.closed {
      if x in InHand(s'.handlers[i]) {
      } else if j :| 0 <= j < |s.handlers| && x in InHand(s.handlers[j]) {
        if j != i { assert x in InHand(s'.handlers[j]); }
      } else {
        assert !Held(s, x);
      }
    }
  }

  lemma HandlersStep(s: Sys, i: nat, s': Sys)
    requires HandlersInv(s) && Moved(s, i, s')
    requires PcInv(s', s'.handlers[i])
    requires forall j :: 0 <= j < |s.handlers| && j != i ==>
               PcInv(s', s.handlers[j]) && PairInv(s.handlers[j], s'.handlers[i])
    ensures HandlersInv(s')
  {
    hide PcInv;
    forall j, k | 0 <= j < k < |s'.handlers| ensures PairInv(s'.handlers[j], s'.handlers[k]) {
      if j == i {
        assert PairInv(s.handlers[k], s'.handlers[i]);
      }
    }
  }

  lemma PairsKeep(s: Sys, i: nat, pc: Pc)
    requires HandlersInv(s) && i < |s.handlers|
    requires InHand(pc) <= InHand(s.handlers[i]) && (pc.Storing? ==> pc == s.handlers[i])
    ensures forall j :: 0 <= j < |s.handlers| && j != i ==> PairInv(s.handlers[j], pc)
  {
    hide PcInv;
    forall j | 0 <= j < |s.handlers| && j != i ensures PairInv(s.handlers[j], pc) {
      assert if j < i then PairInv(s.handlers[j], s.handlers[i]) else PairInv(s.handlers[i], s.handlers[j]);
    }
  }

  lemma RemovalsKeep(s: Sys, i: nat, s': Sys, sess: Session)
    requires Moved(s, i, s') && !s.handlers[i].Removing? && BeingRemoved(s, sess)
    ensures BeingRemoved(s', sess)
  {
    var j :| 0 <= j < |s.handlers| && s.handlers[j] == Removing(sess);
    assert s'.handlers[j] == Removing(sess);
  }

  /** A handler that starts is appended, holding no stream. */
  lemma BeginAppends(s: Sys, a: Action)
    requires Enabled(s, a) && Starts(a)
    ensures |Apply(s, a).handlers| == |s.handlers| + 1
    ensures var pc := Apply(s, a).handlers[|s.handlers|];
            && Apply(s, a) == s.(handlers := s.handlers + [pc])
            && (a.Create? ==> pc.Finding? || (pc.Opening? && !pc.mode.Attach?))
            && (a.Evict? ==> a.id in s.store && pc == Closing(s.store[a.id]))
  {
  }

  lemma BeginKeepsHandlers(s: Sys, a: Action)
    requires HandlersInv(s) && StoreInv(s) && Enabled(s, a) && Starts(a)
    ensures HandlersInv(Apply(s, a))
  {
    BeginAppends(s, a);
    hide Apply, Enabled;
    var s' := Apply(s, a);
    var pc := s'.handlers[|s.handlers|];
    assert InHand(pc) == {} && PcInv(s', pc);
    forall i | 0 <= i < |s.handlers| ensures PcInv(s', s'.handlers[i]) {
      assert PcInv(s, s.handlers[i]);
    }
    hide PcInv;
  }

  lemma BeginKeeps(s: Sys, a: Action)
    requires Inv(s) && Enabled(s, a) && Starts(a)
    ensures Inv(Apply(s, a))
  {
    BeginKeepsHandlers(s, a);
    BeginAppends(s, a);
    hide Apply, Enabled, HandlersInv, PcInv;
    var s' := Apply(s, a);
    assert forall i :: 0 <= i < |s.handlers| ==> s'.handlers[i] == s.handlers[i];
    assert forall x :: Owned(s, x) ==> Owned(s', x);
  }

  /** Steps that leave the store and the streams alone. */
  lemma QuietKeeps(s: Sys, a: Action)
    requires Inv(s) && Enabled(s, a) && (a.Find? || a.Count? || a.Announce? || a.Discount? || a.End?)
    ensures Inv(Apply(s, a))
  {
    var s', i := Apply(s, a), a.i;
    var pc, pc' := s.handlers[i], s'.handlers[i];
    assert PcInv(s, pc) && InHand(pc) == InHand(pc') == {};
    assert PcInv(s', pc');
    forall j | 0 <= j < |s.handlers| ensures PcInv(s', s.handlers[j]) { assert PcInv(s, s.handlers[j]); }
    PairsKeep(s, i, pc');
    HandlersStep(s, i, s');
    assert forall x :: Owned(s, x) ==> Owned(s', x);
    NoneLostStep(s, i, s');
    forall id | id in s.store && !(StreamOf(s.store[id]) !! s.closed) ensures BeingRemoved(s', s.store[id]) {
      RemovalsKeep(s, i, s', s.store[id]);
    }
  }

  lemma OpenKeepsHandlers(s: Sys, i: nat, id: Id, stream: nat, ok: bool)
    requires HandlersInv(s) && StoreInv(s) && Enabled(s, Open(i, id, stream, ok))
    ensures HandlersInv(Apply(s, Open(i, id, stream, ok)))
  {
    var s' := Apply(s, Open(i, id, stream, ok));
    var pc' := s'.handlers[i];
    assert InHand(pc') <= {stream};
    assert PcInv(s', pc');
    forall j | 0 <= j < |s.handlers| && j != i ensures PcInv(s', s.handlers[j]) {
      assert PcInv(s, s.handlers[j]);
    }
    forall j | 0 <= j < |s.handlers| && j != i ensures PairInv(s.handlers[j], pc') {
      assert PcInv(s, s.handlers[j]);
    }
    hide Apply, PcInv, PairInv;
    HandlersStep(s, i, s');
  }

  lemma OpenKeeps(s: Sys, i: nat, id: Id, stream: nat, ok: bool)
    requires Inv(s) && Enabled(s, Open(i, id, stream, ok))
    ensures Inv(Apply(s, Open(i, id, stream, ok)))
  {
    OpenKeepsHandlers(s, i, id, stream, ok);
    hide HandlersInv, PcInv, PairInv;
    var s' := Apply(s, Open(i, id, stream, ok));
    assert s'.store == s.store && s'.closed == s.closed && Moved(s, i, s') && InHand(s.handlers[i]) == {};
    assert forall x :: x in s'.streams ==> x in s.streams || x in InHand(s'.handlers[i]);
    assert s.ids <= s'.ids && s.streams <= s'.streams && s'.cap == s.cap && s'.stored == s.stored;
    hide Apply;
    assert forall x :: Owned(s, x) ==> Owned(s', x);
    NoneLostStep(s, i, s');
    forall id | id in s.store && !(StreamOf(s.store[id]) !! s.closed) ensures BeingRemoved(s', s.store[id]) {
      RemovalsKeep(s, i, s', s.store[id]);
    }
  }

  lemma SaveKeepsHandlers(s: Sys, i: nat)
    requires HandlersInv(s) && Enabled(s, Save(i))
    ensures HandlersInv(Apply(s, Save(i)))
  {
    var s' := Apply(s, Save(i));
    var pc' := s'.handlers[i];
    assert PcInv(s, s.handlers[i]);
    assert PcInv(s', pc');
    PairsKeep(s, i, pc');
    forall j | 0 <= j < |s.handlers| && j != i ensures PcInv(s', s.handlers[j]) {
      assert PcInv(s, s.handlers[j]);
      assert if j < i then PairInv(s.handlers[j], s.handlers[i]) else PairInv(s.handlers[i], s.handlers[j]);
    }
    HandlersStep(s, i, s');
  }

  lemma SaveKeeps(s: Sys, i: nat)
    requires Inv(s) && Enabled(s, Save(i))
    ensures Inv(Apply(s, Save(i)))
  {
    var s' := Apply(s, Save(i));
    var sess, pc' := s.handlers[i].sess, s'.handlers[i];
    SaveKeepsHandlers(s, i);
    SaveKeepsStore(s, i);
    assert PcInv(s, s.handlers[i]);
    hide HandlersInv, PairInv, StoreInv, PcInv;
    assert forall id :: id in s.store ==> id in s'.store && s'.store[id] == s.store[id];
    assert forall x :: Owned(s, x) ==> Owned(s', x);
    if pc'.Counting? {
      assert s'.store[sess.id] == sess;
    }
    NoneLostStep(s, i, s');
  }

  lemma SaveKeepsStore(s: Sys, i: nat)
    requires StoreInv(s) && Enabled(s, Save(i)) && PcInv(s, s.handlers[i])
    ensures StoreInv(Apply(s, Save(i)))
  {
    var s' := Apply(s, Save(i));
    forall id | id in s.store && !(StreamOf(s.store[id]) !! s.closed) ensures BeingRemoved(s', s.store[id]) {
      RemovalsKeep(s, i, s', s.store[id]);
    }
  }

  lemma RejectKeepsHandlers(s: Sys, i: nat)
    requires HandlersInv(s) && Enabled(s, Reject(i))
    ensures HandlersInv(Apply(s, Reject(i)))
  {
    var s' := Apply(s, Reject(i));
    var pc := s.handlers[i];
    assert PcInv(s, pc) && PcInv(s', Done);
    PairsKeep(s, i, Done);
    forall j | 0 <= j < |s.handlers| && j != i ensures PcInv(s', s.handlers[j]) {
      assert PcInv(s, s.handlers[j]);
      assert if j < i then PairInv(s.handlers[j], pc) else PairInv(pc, s.handlers[j]);
    }
    HandlersStep(s, i, s');
  }

  lemma RejectKeepsStore(s: Sys, i: nat)
    requires StoreInv(s) && Enabled(s, Reject(i)) && PcInv(s, s.handlers[i])
    ensures StoreInv(Apply(s, Reject(i)))
  {
    var s' := Apply(s, Reject(i));
    forall id | id in s.store && !(StreamOf(s.store[id]) !! s'.closed) ensures BeingRemoved(s', s.store[id]) {
      assert InHand(s.handlers[i]) !! StreamOf(s.store[id]);
      RemovalsKeep(s, i, s', s.store[id]);
    }
  }

  lemma RejectKeeps(s: Sys, i: nat)
    requires Inv(s) && Enabled(s, Reject(i))
    ensures Inv(Apply(s, Reject(i)))
  {
    RejectKeepsHandlers(s, i);
    assert PcInv(s, s.handlers[i]);
    RejectKeepsStore(s, i);
    hide HandlersInv, StoreInv, PairInv, PcInv;
    var s' := Apply(s, Reject(i));
    assert forall x :: Owned(s, x) ==> Owned(s', x);
    NoneLostStep(s, i, s');
  }

  lemma CloseKeeps(s: Sys, i: nat)
    requires Inv(s) && Enabled(s, Close(i))
    ensures Inv(Apply(s, Close(i)))
  {
    var s' := Apply(s, Close(i));
    var sess := s.handlers[i].sess;
    assert PcInv(s, s.handlers[i]) && PcInv(s', Removing(sess));
    PairsKeep(s, i, Removing(sess));
    forall j | 0 <= j < |s.handlers| && j != i ensures PcInv(s', s.handlers[j]) {
      assert PcInv(s, s.handlers[j]);
      assert sess.id in s.store ==> InHand(s.handlers[j]) !! StreamOf(s.store[sess.id]);
    }
    HandlersStep(s, i, s');
    assert forall x :: Owned(s, x) ==> Owned(s', x);
    NoneLostStep(s, i, s');
    forall id | id in s.store && !(StreamOf(s.store[id]) !! s'.closed) ensures BeingRemoved(s', s.store[id]) {
      if id == sess.id {
        assert s'.handlers[i] == Removing(sess);
      } else {
        assert sess.id in s.store ==> StreamOf(s.store[id]) !! StreamOf(s.store[sess.id]);
        RemovalsKeep(s, i, s', s.store[id]);
      }
    }
  }

  lemma RemoveKeepsHandlers(s: Sys, i: nat)
    requires HandlersInv(s) && Enabled(s, Remove(i))
    ensures HandlersInv(Apply(s, Remove(i)))
  {
    var s' := Apply(s, Remove(i));
    var sess := s.handlers[i].sess;
    assert PcInv(s, s.handlers[i]) && PcInv(s', Discounting(sess));
    PairsKeep(s, i, Discounting(sess));
    forall j | 0 <= j < |s.handlers| && j != i ensures PcInv(s', s.handlers[j]) {
      assert PcInv(s, s.handlers[j]);
    }
    HandlersStep(s, i, s');
  }

  lemma RemoveKeepsStore(s: Sys, i: nat)
    requires StoreInv(s) && Enabled(s, Remove(i)) && PcInv(s, s.handlers[i])
    ensures StoreInv(Apply(s, Remove(i)))
  {
    var s' := Apply(s, Remove(i));
    var sess := s.handlers[i].sess;
    DeleteShrinks(s.store, sess.id);
    forall id | id in s'.store && !(StreamOf(s.store[id]) !! s.closed) ensures BeingRemoved(s', s.store[id]) {
      var j :| 0 <= j < |s.handlers| && s.handlers[j] == Removing(s.store[id]);
      assert j != i && s'.handlers[j] == Removing(s.store[id]);
    }
  }

  lemma RemoveKeeps(s: Sys, i: nat)
    requires Inv(s) && Enabled(s, Remove(i))
    ensures Inv(Apply(s, Remove(i)))
  {
    var s' := Apply(s, Remove(i));
    var sess := s.handlers[i].sess;
    RemoveKeepsHandlers(s, i);
    RemoveKeepsStore(s, i);
    assert PcInv(s, s.handlers[i]);
    hide PcInv, PairInv, StoreInv, HandlersInv;
    forall x | Owned(s, x) ensures Owned(s', x) || x in s'.closed {
      var id :| id in s.store && s.store[id].stream == Some(x);
      if id != sess.id { assert id in s'.store && s'.store[id] == s.store[id]; }
    }
    NoneLostStep(s, i, s');
  }

  lemma StepKeeps(s: Sys, a: Action)
    requires Inv(s) && Enabled(s, a)
    ensures Inv(Apply(s, a))
  {
    hide Inv;
    match a
    case Create(_, _) => BeginKeeps(s, a);
    case Evict(_) => BeginKeeps(s, a);
    case Open(i, id, stream, ok) => OpenKeeps(s, i, id, stream, ok);
    case Save(i) => SaveKeeps(s, i);
    case Reject(i) => RejectKeeps(s, i);
    case Close(i) => CloseKeeps(s, i);
    case Remove(i) => RemoveKeeps(s, i);
    case _ => QuietKeeps(s, a);
  }

  lemma {:induction false} RunKeeps(s: Sys, acts: seq<Action>)
    requires Inv(s) && Runs(s, acts)
    ensures Inv(After(s, acts))
    decreases |acts|
  {
    hide Inv;
    if acts != [] {
      StepKeeps(s, acts[0]);
      RunKeeps(Apply(s, acts[0]), acts[1..]);
    }
  }

  /** In every interleaving: each stream ever opened is in the hand of exactly one create, or
      owned by exactly one stored session, or closed, and never in a hand and elsewhere; a
      stored session's stream is closed only while an eviction is about to delete the session;
      and a positive cap is never exceeded. */
  lemma StreamsConserved(cap: int, acts: seq<Action>, x: nat)
    requires Runs(Empty(cap), acts) && x in After(Empty(cap), acts).streams
    ensures var s := After(Empty(cap), acts);
            && (Held(s, x) || Owned(s, x) || x in s.closed)
            && (Held(s, x) ==> !Owned(s, x) && x !in s.closed)
            && (forall i, j :: 0 <= i < j < |s.handlers| ==>
                  !(x in InHand(s.handlers[i]) && x in InHand(s.handlers[j])))
            && (forall id, id' :: id in s.store && id' in s.store ==>
                  s.store[id].stream == Some(x) == s.store[id'].stream ==> id == id')
            && (forall id :: id in s.store && s.store[id].stream == Some(x) && x in s.closed ==>
                  BeingRemoved(s, s.store[id]))
            && (cap > 0 ==> |s.store| <= cap)
  {
    RunKeeps(Empty(cap), acts);
    CapFixed(Empty(cap), acts);
    var s := After(Empty(cap), acts);
    forall i, j | 0 <= i < j < |s.handlers| ensures !(x in InHand(s.handlers[i]) && x in InHand(s.handlers[j])) {
      assert PairInv(s.handlers[i], s.handlers[j]);
    }
    if Held(s, x) {
      var i :| 0 <= i < |s.handlers| && x in InHand(s.handlers[i]);
      assert PcInv(s, s.handlers[i]);
      forall id | id in s.store ensures s.store[id].stream != Some(x) {
        assert x !in StreamOf(s.store[id]);
      }
    }
    forall id, id' | id in s.store && id' in s.store && s.store[id].stream == Some(x) == s.store[id'].stream
      ensures id == id'
    {
      assert x in StreamOf(s.store[id]) && x in StreamOf(s.store[id']);
    }
    forall id | id in s.store && s.store[id].stream == Some(x) && x in s.closed ensures BeingRemoved(s, s.store[id]) {
      assert x in StreamOf(s.store[id]);
    }
  }

  lemma {:induction false} CapFixed(s: Sys, acts: seq<Action>)
    requires Runs(s, acts)
    ensures After(s, acts).cap == s.cap
    decreases |acts|
  {
    if acts != [] {
      CapFixed(Apply(s, acts[0]), acts[1..]);
    }
  }

  predicate AtRest(s: Sys) {
    forall i :: 0 <= i < |s.handlers| ==> s.handlers[i].Done?
  }

  /** When no handler is running, nothing leaks: a stream is open exactly while a stored session
      owns it. */
  lemma NoLeakAtRest(cap: int, acts: seq<Action>, x: nat)
    requires Runs(Empty(cap), acts) && AtRest(After(Empty(cap), acts)) && x in After(Empty(cap), acts).streams
    ensures var s := After(Empty(cap), acts); x !in s.closed <==> Owned(s, x)
  {
    StreamsConserved(cap, acts, x);
  }

  // ---- Accounting ------------------------------------------------------------------

  /** What is tallied: the gauge, or the start or end notices of one session id. */
  datatype Tally = OfGauge | OfStarts(id: Id) | OfEnds(id: Id)

  /** What a handler has done to the store and not yet to the tally. */
  function Owes(t: Tally, pc: Pc): int {
    match t
    case OfGauge => if pc.Counting? then 1 else if pc.Discounting? then -1 else 0
    case OfStarts(id) => if (pc.Counting? || pc.Announcing?) && pc.sess.id == id then 1 else 0
    case OfEnds(id) => if (pc.Discounting? || pc.Ending?) && pc.sess.id == id then 1 else 0
  }

  function Owed(t: Tally, hs: seq<Pc>): int {
    if hs == [] then 0 else Owed(t, hs[..|hs| - 1]) + Owes(t, hs[|hs| - 1])
  }

  lemma {:induction false} OwedUpdate(t: Tally, hs: seq<Pc>, i: nat, pc: Pc)
    requires i < |hs|
    ensures Owed(t, hs[i := pc]) == Owed(t, hs) - Owes(t, hs[i]) + Owes(t, pc)
  {
    var n := |hs| - 1;
    if i == n {
      assert hs[i := pc][..n] == hs[..n];
    } else {
      assert hs[i := pc][..n] == hs[..n][i := pc];
      OwedUpdate(t, hs[..n], i, pc);
    }
  }

  lemma {:induction false} NothingOwedAtRest(t: Tally, hs: seq<Pc>)
    requires forall i :: 0 <= i < |hs| ==> hs[i].Done?
    ensures Owed(t, hs) == 0
  {
    if hs != [] {
      NothingOwedAtRest(t, hs[..|hs| - 1]);
    }
  }

  function Times(log: seq<Id>, id: Id): nat {
    multiset(log)[id]
  }

  function One(b: bool): int {
    if b then 1 else 0
  }

  /** What the invariant says of a session about to be saved or deleted. */
  ghost predicate Filed(s: Sys, a: Action)
    requires Enabled(s, a)
  {
    && (a.Save? ==> s.handlers[a.i].sess.id !in s.stored && s.handlers[a.i].sess.id !in s.store)
    && (a.Remove? ==> s.handlers[a.i].sess.id in s.stored)
  }

  /** What a tally should be, by the store's own account. */
  function Due(s: Sys, t: Tally): int {
    match t
    case OfGauge => |s.store| - |s.misses|
    case OfStarts(id) => One(id in s.stored)
    case OfEnds(id) => One(id in s.stored && id !in s.store) + Times(s.misses, id)
  }

  function Tallied(s: Sys, t: Tally): int {
    match t
    case OfGauge => s.gauge
    case OfStarts(id) => Times(s.starts, id)
    case OfEnds(id) => Times(s.ends, id)
  }

  lemma TimesSnoc(log: seq<Id>, x: Id, id: Id)
    ensures Times(log + [x], id) == Times(log, id) + One(x == id)
  {
  }

  lemma SaveSizes(s: Sys, sess: Session)
    requires sess.id !in s.store
    ensures |s.store[sess.id := sess]| == |s.store| + 1
  {
    assert s.store[sess.id := sess].Keys == s.store.Keys + {sess.id};
  }

  /** A step changes the tally, the debts and the dues alike. */
  ghost predicate InStep(s: Sys, a: Action, t: Tally)
    requires Enabled(s, a) && !a.Create? && !a.Evict?
  {
    var s' := Apply(s, a);
    Tallied(s', t) - Owes(t, s.handlers[a.i]) + Owes(t, s'.handlers[a.i]) - Due(s', t) == Tallied(s, t) - Due(s, t)
  }

  lemma IdleInStep(s: Sys, a: Action, t: Tally)
    requires Enabled(s, a) && (a.Find? || a.Open? || a.Reject? || a.Close?)
    ensures InStep(s, a, t)
  {
    hide Times, HasSession, StreamOf;
  }

  lemma SaveInStep(s: Sys, i: nat, t: Tally)
    requires Enabled(s, Save(i)) && Filed(s, Save(i))
    ensures InStep(s, Save(i), t)
  {
    SaveSizes(s, s.handlers[i].sess);
    hide Times;
  }

  lemma CountInStep(s: Sys, a: Action, t: Tally)
    requires Enabled(s, a) && (a.Count? || a.Discount?)
    ensures InStep(s, a, t)
  {
    hide Times;
  }

  lemma AnnounceInStep(s: Sys, i: nat, t: Tally)
    requires Enabled(s, Announce(i))
    ensures InStep(s, Announce(i), t)
  {
    hide Times;
    if t.OfStarts? {
      TimesSnoc(s.starts, s.handlers[i].sess.id, t.id);
    }
  }

  lemma EndInStep(s: Sys, i: nat, t: Tally)
    requires Enabled(s, End(i))
    ensures InStep(s, End(i), t)
  {
    hide Times;
    if t.OfEnds? {
      TimesSnoc(s.ends, s.handlers[i].sess.id, t.id);
    }
  }

  lemma RemoveGaugeInStep(s: Sys, i: nat)
    requires Enabled(s, Remove(i))
    ensures InStep(s, Remove(i), OfGauge)
  {
    DeleteShrinks(s.store, s.handlers[i].sess.id);
  }

  lemma RemoveStartsInStep(s: Sys, i: nat, id: Id)
    requires Enabled(s, Remove(i))
    ensures InStep(s, Remove(i), OfStarts(id))
  {
    hide Times;
  }

  lemma RemoveInStep(s: Sys, i: nat, t: Tally)
    requires Enabled(s, Remove(i)) && Filed(s, Remove(i))
    ensures InStep(s, Remove(i), t)
  {
    hide InStep;
    match t
    case OfGauge => RemoveGaugeInStep(s, i);
    case OfStarts(id) => RemoveStartsInStep(s, i, id);
    case OfEnds(id) => RemoveEndsInStep(s, i, id);
  }

  lemma RemoveEndsInStep(s: Sys, i: nat, id: Id)
    requires Enabled(s, Remove(i)) && Filed(s, Remove(i))
    ensures InStep(s, Remove(i), OfEnds(id))
  {
    hide Times;
    var gone := s.handlers[i].sess.id;
    TimesSnoc(s.misses, gone, id);
    assert id in s.store - {gone} <==> id in s.store && id != gone;
  }

  /** In every interleaving the tallies are off by what handlers still owe. */
  predicate Balanced(s: Sys, t: Tally) {
    Tallied(s, t) + Owed(t, s.handlers) == Due(s, t)
  }

  lemma FiledHolds(s: Sys, a: Action)
    requires Inv(s) && Enabled(s, a)
    ensures Filed(s, a)
  {
    if a.Save? || a.Remove? {
      assert PcInv(s, s.handlers[a.i]);
    }
  }

  lemma MovesOne(s: Sys, a: Action)
    requires Enabled(s, a) && !a.Create? && !a.Evict?
    ensures Moved(s, a.i, Apply(s, a))
  {
  }

  lemma BeginBalances(s: Sys, a: Action, t: Tally)
    requires Enabled(s, a) && Starts(a) && Balanced(s, t)
    ensures Balanced(Apply(s, a), t)
  {
    BeginAppends(s, a);
    var pc := Apply(s, a).handlers[|s.handlers|];
    hide Apply, Enabled, Tallied, Due, Owed;
    OwedSnoc(t, s.handlers, pc);
    HandlersAside(s, s.handlers + [pc], t);
  }

  lemma HandlersAside(s: Sys, hs: seq<Pc>, t: Tally)
    ensures Tallied(s.(handlers := hs), t) == Tallied(s, t) && Due(s.(handlers := hs), t) == Due(s, t)
  {
    hide Times;
  }

  lemma OwedSnoc(t: Tally, hs: seq<Pc>, pc: Pc)
    ensures Owed(t, hs + [pc]) == Owed(t, hs) + Owes(t, pc)
  {
    assert (hs + [pc])[..|hs|] == hs;
  }

  lemma StepBalances(s: Sys, a: Action, t: Tally)
    requires Inv(s) && Enabled(s, a) && Balanced(s, t)
    ensures Balanced(Apply(s, a), t)
  {
    hide Inv, Apply, Enabled, Filed, Tallied, Due, Owed, Owes;
    if a.Create? || a.Evict? {
      BeginBalances(s, a, t);
    } else {
      FiledHolds(s, a);
      MovesOne(s, a);
      OwedUpdate(t, s.handlers, a.i, Apply(s, a).handlers[a.i]);
      match a
      case Save(i) => SaveInStep(s, i, t);
      case Count(_) => CountInStep(s, a, t);
      case Discount(_) => CountInStep(s, a, t);
      case Announce(i) => AnnounceInStep(s, i, t);
      case End(i) => EndInStep(s, i, t);
      case Remove(i) => RemoveInStep(s, i, t);
      case _ => IdleInStep(s, a, t);
    }
  }

  lemma {:induction false} RunBalances(s: Sys, acts: seq<Action>, t: Tally)
    requires Inv(s) && Runs(s, acts) && Balanced(s, t)
    ensures Balanced(After(s, acts), t)
    decreases |acts|
  {
    hide Inv, Balanced;
    if acts != [] {
      StepKeeps(s, acts[0]);
      StepBalances(s, acts[0], t);
      RunBalances(Apply(s, acts[0]), acts[1..], t);
    }
  }

  /** When no handler is running: every stored id has exactly one session.start; the gauge is
      the number of stored sessions exactly when no deletion ever missed; and a deleted
      session has exactly one session.end exactly when none of its own did. */
  lemma AccountsAtRest(cap: int, acts: seq<Action>, id: Id)
    requires Runs(Empty(cap), acts) && AtRest(After(Empty(cap), acts))
    ensures var s := After(Empty(cap), acts);
            && Times(s.starts, id) == One(id in s.stored)
            && (s.gauge == |s.store| <==> s.misses == [])
            && s.gauge == |s.store| - |s.misses|
            && Times(s.ends, id) == One(id in s.stored && id !in s.store) + Times(s.misses, id)
  {
    var s := After(Empty(cap), acts);
    RunBalances(Empty(cap), acts, OfGauge);
    RunBalances(Empty(cap), acts, OfStarts(id));
    RunBalances(Empty(cap), acts, OfEnds(id));
    NothingOwedAtRest(OfGauge, s.handlers);
    NothingOwedAtRest(OfStarts(id), s.handlers);
    NothingOwedAtRest(OfEnds(id), s.handlers);
  }

  // ---- Handlers one at a time ------------------------------------------------------

  /** A run in which a handler starts only when no other is running. */
  predicate Serial(s: Sys, acts: seq<Action>)
    requires Runs(s, acts)
    decreases |acts|
  {
    acts == [] || ((Starts(acts[0]) ==> AtRest(s)) && Serial(Apply(s, acts[0]), acts[1..]))
  }

  /** No container has two attach sessions. */
  ghost predicate AttachUnique(store: map<Id, Session>) {
    forall id, id', c :: id in store && id' in store && Matches(store[id], c, Attach) && Matches(store[id'], c, Attach)
                         ==> id == id'
  }

  /** Only the last handler may be running, and it found the store as it still is. */
  ghost predicate SerialInv(s: Sys) {
    && (forall i :: 0 <= i < |s.handlers| - 1 ==> s.handlers[i].Done?)
    && s.misses == []
    && AttachUnique(s.store)
    && (s.handlers != [] ==> LastInv(s, s.handlers[|s.handlers| - 1]))
  }

  ghost predicate LastInv(s: Sys, pc: Pc) {
    && (pc.Opening? && pc.mode.Attach? ==> !HasSession(s.store, pc.container, Attach))
    && (pc.Storing? && pc.sess.mode.Attach? ==> !HasSession(s.store, pc.sess.container, Attach))
    && (pc.Closing? || pc.Removing? ==> pc.sess.id in s.store)
  }

  lemma SerialStarts(s: Sys, a: Action)
    requires StoreInv(s) && SerialInv(s) && Enabled(s, a) && Starts(a) && AtRest(s)
    ensures SerialInv(Apply(s, a))
  {
    BeginAppends(s, a);
    hide Apply, Enabled, AttachUnique;
  }

  lemma SerialMoves(s: Sys, a: Action)
    requires SerialInv(s) && Enabled(s, a) && !Starts(a) && a.i == |s.handlers| - 1
    requires a.Find? || a.Open? || a.Reject? || a.Count? || a.Announce?
    ensures SerialInv(Apply(s, a))
  {
    hide AttachUnique;
    assert Apply(s, a).store == s.store;
  }

  lemma SerialEvicts(s: Sys, a: Action)
    requires SerialInv(s) && Enabled(s, a) && !Starts(a) && a.i == |s.handlers| - 1
    requires a.Close? || a.Remove? || a.Discount? || a.End?
    ensures SerialInv(Apply(s, a))
  {
    hide HasSession;
  }

  lemma SerialStep(s: Sys, a: Action)
    requires Inv(s) && SerialInv(s) && Enabled(s, a) && (Starts(a) ==> AtRest(s))
    ensures SerialInv(Apply(s, a))
  {
    hide StoreInv, NoneLost, PcInv, PairInv, Apply;
    if Starts(a) {
      SerialStarts(s, a);
    } else {
      assert a.i == |s.handlers| - 1;
      match a
      case Save(i) => SaveKeepsAttachUnique(s, i);
      case Close(_) => SerialEvicts(s, a);
      case Remove(_) => SerialEvicts(s, a);
      case Discount(_) => SerialEvicts(s, a);
      case End(_) => SerialEvicts(s, a);
      case _ => SerialMoves(s, a);
    }
  }

  lemma SaveKeepsAttachUnique(s: Sys, i: nat)
    requires SerialInv(s) && Enabled(s, Save(i)) && i == |s.handlers| - 1
    ensures SerialInv(Apply(s, Save(i)))
  {
    var s', sess := Apply(s, Save(i)), s.handlers[i].sess;
    forall id | id in s.store && sess.mode.Attach? && Matches(s.store[id], sess.container, Attach) ensures false {
      assert HasSession(s.store, sess.container, Attach);
    }
  }

  lemma {:induction false} SerialRunKeeps(s: Sys, acts: seq<Action>)
    requires Inv(s) && SerialInv(s) && Runs(s, acts) && Serial(s, acts)
    ensures SerialInv(After(s, acts))
    decreases |acts|
  {
    hide Inv, SerialInv;
    if acts != [] {
      StepKeeps(s, acts[0]);
      SerialStep(s, acts[0]);
      SerialRunKeeps(Apply(s, acts[0]), acts[1..]);
    }
  }

  /** Handlers one at a time: at rest the gauge is the number of stored sessions, every stored
      id has one start, a deleted one exactly one end and a live one none, and no container has
      two attach sessions. */
  lemma SerialAccounts(cap: int, acts: seq<Action>, id: Id)
    requires Runs(Empty(cap), acts) && Serial(Empty(cap), acts) && AtRest(After(Empty(cap), acts))
    ensures var s := After(Empty(cap), acts);
            && s.gauge == |s.store|
            && Times(s.starts, id) == One(id in s.stored)
            && Times(s.ends, id) == One(id in s.stored && id !in s.store)
            && AttachUnique(s.store)
  {
    SerialRunKeeps(Empty(cap), acts);
    AccountsAtRest(cap, acts, id);
  }

  lemma Extend(s: Sys, acts: seq<Action>, a: Action) returns (more: seq<Action>)
    requires Runs(s, acts) && Enabled(After(s, acts), a)
    ensures more == acts + [a] && Runs(s, more) && After(s, more) == Apply(After(s, acts), a)
    decreases |acts|
  {
    more := acts + [a];
    if acts != [] {
      var rest := Extend(Apply(s, acts[0]), acts[1..], a);
      assert more[1..] == rest;
    } else {
      assert more[1..] == [];
    }
  }

  /** A stored logs session `id`, its create handler finished. */
  lemma OneSession(id: Id, c: Container) returns (acts: seq<Action>)
    ensures Runs(Empty(0), acts)
    ensures After(Empty(0), acts) ==
            Sys(0, map[id := Session(id, c, Logs, None)], {}, {}, {id}, {id}, 1, [id], [], [], [Done])
  {
    acts := Extend(Empty(0), [], Create(c, Logs));
    acts := Extend(Empty(0), acts, Open(0, id, 0, true));
    acts := Extend(Empty(0), acts, Save(0));
    acts := Extend(Empty(0), acts, Count(0));
    acts := Extend(Empty(0), acts, Announce(0));
    var s := After(Empty(0), acts);
    assert s.store == map[id := Session(id, c, Logs, None)];
  }

  /** Two evictions of that session, both past the lookup; the second one's delete misses. */
  lemma TwoEvictions(id: Id, c: Container) returns (acts: seq<Action>)
    ensures Runs(Empty(0), acts)
    ensures var sess := Session(id, c, Logs, None);
            After(Empty(0), acts) ==
            Sys(0, map[], {}, {}, {id}, {id}, 1, [id], [], [id], [Done, Discounting(sess), Discounting(sess)])
  {
    acts := OneSession(id, c);
    acts := Extend(Empty(0), acts, Evict(id));
    acts := Extend(Empty(0), acts, Evict(id));
    acts := Extend(Empty(0), acts, Close(1));
    acts := Extend(Empty(0), acts, Remove(1));
    acts := Extend(Empty(0), acts, Close(2));
    acts := Extend(Empty(0), acts, Remove(2));
    var s := After(Empty(0), acts);
    assert s.store == map[];
  }

  /** Together it fails: a delete request and the TTL callback that both looked the session up
      before either removed it end it twice, and leave the gauge one short. */
  lemma DoubleEndWitness(id: Id, c: Container) returns (acts: seq<Action>)
    ensures Runs(Empty(0), acts) && AtRest(After(Empty(0), acts))
    ensures var s := After(Empty(0), acts); s.store == map[] && s.gauge == -1 && s.ends == [id, id]
  {
    acts := TwoEvictions(id, c);
    acts := Extend(Empty(0), acts, Discount(1));
    acts := Extend(Empty(0), acts, End(1));
    acts := Extend(Empty(0), acts, Discount(2));
    acts := Extend(Empty(0), acts, End(2));
  }

  /** Two attach requests that both looked before either stored give one container two sessions. */
  lemma TwoAttachWitness(a: Id, b: Id, c: Container) returns (acts: seq<Action>)
    requires a != b
    ensures Runs(Empty(0), acts)
    ensures var s := After(Empty(0), acts);
            && a in s.store && Matches(s.store[a], c, Attach)
            && b in s.store && Matches(s.store[b], c, Attach)
  {
    acts := Extend(Empty(0), [], Create(c, Attach));
    acts := Extend(Empty(0), acts, Create(c, Attach));
    acts := Extend(Empty(0), acts, Find(0));
    acts := Extend(Empty(0), acts, Find(1));
    acts := Extend(Empty(0), acts, Open(0, a, 0, true));
    acts := Extend(Empty(0), acts, Open(1, b, 1, true));
    acts := Extend(Empty(0), acts, Save(0));
    acts := Extend(Empty(0), acts, Save(1));
  }
}
