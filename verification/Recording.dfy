/** The append-only event log of a live session (internal/recorder/recorder.go). */
module Recording {
  import opened Events
  import opened Clamp

  /** `now` stands for the clock reading Add takes under the lock. */
  class Recorder {
    var events: seq<Event>
    const start: int

    constructor (now: int)
      ensures events == [] && start == now
    {
      events := [];
      start := now;
    }

    method Add(typ: string, data: string, now: int)
      modifies this`events
      ensures events == Logged(old(events), start, Call(typ, data, now))
    {
      events := events + [Event(now - start, typ, data)];
    }

    method AddAt(typ: string, data: string, elapsed: int)
      modifies this`events
      ensures events == old(events) + [Event(elapsed, typ, data)]
    {
      events := events + [Event(elapsed, typ, data)];
    }

    /** A negative offset panics in the original. */
    method EventsSince(offset: int) returns (result: seq<Event>)
      requires offset >= 0
      ensures |result| == if offset >= |events| then 0 else |events| - offset
      ensures result != [] ==> events == events[..offset] + result
    {
      if offset >= |events| {
        return [];
      }
      result := events[offset..];
    }

    method All() returns (result: seq<Event>)
      ensures result == events
    {
      result := EventsSince(0);
    }
  }

  datatype Call = Call(typ: string, data: string, now: int)

  function Logged(events: seq<Event>, start: int, c: Call): seq<Event> {
    events + [Event(c.now - start, c.typ, c.data)]
  }

  /** The log after a series of Add calls, in the order they took the lock. */
  function Log(start: int, calls: seq<Call>): (es: seq<Event>)
    ensures |es| == |calls|
  {
    if calls == [] then [] else Logged(Log(start, calls[..|calls| - 1]), start, calls[|calls| - 1])
  }

  /** Clock readings taken in lock order, none before the recorder was made. */
  ghost predicate ClockOk(start: int, calls: seq<Call>) {
    forall i, j :: 0 <= i <= j < |calls| ==> start <= calls[i].now <= calls[j].now
  }

  lemma {:induction false} LogTimes(start: int, calls: seq<Call>)
    ensures forall i :: 0 <= i < |calls| ==>
              Log(start, calls)[i] == Event(calls[i].now - start, calls[i].typ, calls[i].data)
  {
    if calls != [] {
      LogTimes(start, calls[..|calls| - 1]);
    }
  }

  /** A recorder fed only by Add never goes back in time, and an export taken after `before`
      calls is a sorted initial part of an export taken later. */
  lemma LiveExport(start: int, before: seq<Call>, after: seq<Call>, limit: int)
    requires ClockOk(start, before + after)
    ensures NonDecreasing(Times(Log(start, before + after)))
    ensures NonDecreasing(Times(Exported(Log(start, before + after), limit)))
    ensures Exported(Log(start, before), limit) <= Exported(Log(start, before + after), limit)
  {
    var es := Log(start, before + after);
    LogSorted(start, before + after);
    LogPrefix(start, before, after);
    hide Exported, Log, ClockOk;
    ExportSorted(es, limit);
    ExportPrefix(Log(start, before), es[|before|..], limit);
  }

  lemma LogSorted(start: int, calls: seq<Call>)
    requires ClockOk(start, calls)
    ensures NonDecreasing(Times(Log(start, calls))) && forall e :: e in Log(start, calls) ==> e.time >= 0
  {
    LogTimes(start, calls);
    hide Log;
    forall i, j | 0 <= i <= j < |calls| ensures 0 <= Log(start, calls)[i].time <= Log(start, calls)[j].time {
      assert start <= calls[i].now <= calls[j].now;
    }
  }

  lemma LogPrefix(start: int, before: seq<Call>, after: seq<Call>)
    ensures Log(start, before + after) == Log(start, before) + Log(start, before + after)[|before|..]
  {
    LogTimes(start, before + after);
    LogTimes(start, before);
    hide Log;
  }
}
