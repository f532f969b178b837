/** The capped registry of sessions (internal/session/store.go). */
module Store {
  import opened Wrappers

  datatype Id = Id(hex: string)

  datatype Container = Container(name: string)

  datatype Mode = Exec | Attach | Logs

  /** What the store needs to know of a session; `stream` is a stream handle, absent in logs mode. */
  datatype Session = Session(id: Id, container: Container, mode: Mode, stream: Option<nat>)

  /** Whether Create refuses: a positive cap is reached. */
  predicate Full(cap: int, sessions: map<Id, Session>) {
    cap > 0 && |sessions| >= cap
  }

  predicate Matches(s: Session, container: Container, mode: Mode) {
    s.container == container && s.mode == mode
  }

  predicate HasSession(sessions: map<Id, Session>, container: Container, mode: Mode) {
    exists id :: id in sessions && Matches(sessions[id], container, mode)
  }

  lemma DeleteShrinks(sessions: map<Id, Session>, id: Id)
    ensures |sessions - {id}| == |sessions| - if id in sessions then 1 else 0
  {
    var rest := sessions - {id};
    if id in sessions {
      assert sessions.Keys == rest.Keys + {id};
    } else {
      assert rest == sessions;
    }
  }

  class Store {
    const maxSessions: int
    var sessions: map<Id, Session>

    constructor (maxSessions: int)
      ensures Valid() && sessions == map[] && this.maxSessions == maxSessions
    {
      this.maxSessions := maxSessions;
      sessions := map[];
    }

    /** A positive cap is never exceeded, and a session is filed under its own id. */
    ghost predicate Valid()
      reads this
    {
      && (maxSessions > 0 ==> |sessions| <= maxSessions)
      && forall id :: id in sessions ==> sessions[id].id == id
    }

    method Create(sess: Session) returns (ok: bool)
      requires Valid()
      modifies this`sessions
      ensures Valid()
      ensures ok <==> maxSessions <= 0 || |old(sessions)| < maxSessions
      ensures sessions == if ok then old(sessions)[sess.id := sess] else old(sessions)
    {
      if maxSessions > 0 && |sessions| >= maxSessions {
        return false;
      }
      DeleteShrinks(sessions, sess.id);
      assert sessions[sess.id := sess].Keys == (sessions - {sess.id}).Keys + {sess.id};
      sessions := sessions[sess.id := sess];
      ok := true;
    }

    method Get(id: Id) returns (found: Option<Session>)
      requires Valid()
      ensures found.Some? <==> id in sessions
      ensures found.Some? ==> found.value == sessions[id] && found.value.id == id
    {
      found := if id in sessions then Some(sessions[id]) else None;
    }

    method Delete(id: Id)
      requires Valid()
      modifies this`sessions
      ensures Valid() && sessions == old(sessions) - {id}
    {
      DeleteShrinks(sessions, id);
      sessions := sessions - {id};
    }

    /** Go visits the map in any order; the first match wins. */
    method GetByContainer(container: Container, mode: Mode) returns (found: Option<Session>)
      requires Valid()
      ensures found.Some? <==> HasSession(sessions, container, mode)
      ensures found.Some? ==> found.value.id in sessions && sessions[found.value.id] == found.value
      ensures found.Some? ==> Matches(found.value, container, mode)
    {
      var left := sessions.Keys;
      while left != {}
        invariant left <= sessions.Keys
        invariant forall id :: id in sessions && id !in left ==> !Matches(sessions[id], container, mode)
        decreases |left|
      {
        var id :| id in left;
        if Matches(sessions[id], container, mode) {
          return Some(sessions[id]);
        }
        left := left - {id};
      }
      found := None;
    }
  }
}
