/**
 The time arithmetic of the cast export (internal/recorder/cast.go, Marshal): which events are
 exported and at which adjusted times. Durations are integer nanoseconds.
 */
module Clamp {
  import opened Events

  /** One step of the cursor: a gap above a positive limit is cut to it. */
  function ClampGap(gap: int, limit: int): int {
    if limit > 0 && gap > limit then limit else gap
  }

  /** Raw time since the previous output event, or since the start. */
  function Gap(ts: seq<int>, i: nat): int
    requires i < |ts|
  {
    ts[i] - if i == 0 then 0 else ts[i - 1]
  }

  /** The adjusted time of output event `i`: the sum of the clamped gaps up to it. */
  function Cursor(ts: seq<int>, limit: int, i: nat): int
    requires i < |ts|
  {
    (if i == 0 then 0 else Cursor(ts, limit, i - 1)) + ClampGap(Gap(ts, i), limit)
  }

  function Cursors(ts: seq<int>, limit: int): (cs: seq<int>) {
    seq(|ts|, i requires 0 <= i < |ts| => Cursor(ts, limit, i))
  }

  /** The events a cast file holds: the outputs, same data, adjusted times. */
  function Exported(es: seq<Event>, limit: int): seq<Event> {
    Rows(Outputs(es), limit)
  }

  function Rows(os: seq<Event>, limit: int): seq<Event> {
    seq(|os|, i requires 0 <= i < |os| => Event(Cursor(Times(os), limit, i), OUTPUT, os[i].data))
  }

  /** The limit in force after exporting with `l1` and exporting the result with `l2`. */
  function Tighter(l1: int, l2: int): int {
    if l1 <= 0 then l2 else if l2 <= 0 || l1 < l2 then l1 else l2
  }

  /** The rows of a recording of outputs only: one per event, stepping by the clamped gaps. */
  lemma OutputRows(es: seq<Event>, limit: int, i: nat)
    requires i < |es| && forall k :: 0 <= k < |es| ==> es[k].typ == OUTPUT
    ensures var rows := Exported(es, limit);
            && |rows| == |es|
            && rows[i].data == es[i].data
            && rows[0].time == ClampGap(es[0].time, limit)
            && (i > 0 ==> rows[i].time - rows[i - 1].time == ClampGap(es[i].time - es[i - 1].time, limit))
  {
    OutputsOfOutputs(es);
    hide Outputs, ClampGap;
    var ts := Times(es);
    assert Exported(es, limit) == Rows(es, limit);
    assert Cursor(ts, limit, 0) == 0 + ClampGap(Gap(ts, 0), limit);
    if i > 0 {
      assert Cursor(ts, limit, i) == Cursor(ts, limit, i - 1) + ClampGap(Gap(ts, i), limit);
    }
  }

  // ---- Clamp algebra ---------------------------------------------------------------

  lemma GapOfCursors(ts: seq<int>, limit: int, i: nat)
    requires i < |ts|
    ensures Gap(Cursors(ts, limit), i) == ClampGap(Gap(ts, i), limit)
  {
  }

  lemma {:induction false} CursorTwice(ts: seq<int>, l1: int, l2: int, i: nat)
    requires i < |ts|
    ensures Cursor(Cursors(ts, l1), l2, i) == Cursor(ts, Tighter(l1, l2), i)
  {
    GapOfCursors(ts, l1, i);
    if i > 0 {
      CursorTwice(ts, l1, l2, i - 1);
    }
  }

  /** Exporting an export is one export with the tighter limit, for any event list and limits,
      sorted or not; with the same limit it changes nothing. */
  lemma ExportTwice(es: seq<Event>, l1: int, l2: int)
    ensures Exported(Exported(es, l1), l2) == Exported(es, Tighter(l1, l2))
    ensures Exported(Exported(es, l1), l1) == Exported(es, l1)
    ensures l1 > 0 && l2 > 0 ==> Tighter(l1, l2) == if l1 < l2 then l1 else l2
  {
    RowsTwice(Outputs(es), l1, l2);
    RowsTwice(Outputs(es), l1, l1);
    OutputsOfOutputs(Exported(es, l1));
    hide Outputs, Rows;
  }

  lemma RowsTwice(os: seq<Event>, l1: int, l2: int)
    ensures Rows(Rows(os, l1), l2) == Rows(os, Tighter(l1, l2))
  {
    var ts := Times(os);
    assert Times(Rows(os, l1)) == Cursors(ts, l1);
    forall i | 0 <= i < |os| ensures Cursor(Cursors(ts, l1), l2, i) == Cursor(ts, Tighter(l1, l2), i) {
      CursorTwice(ts, l1, l2, i);
    }
    hide Cursor, Cursors, Tighter;
  }

  /** Input and resize events never change the rows. */
  lemma OnlyOutputsMatter(a: seq<Event>, e: Event, b: seq<Event>, limit: int)
    requires e.typ != OUTPUT
    ensures Exported(a + [e] + b, limit) == Exported(a + b, limit)
  {
    assert Outputs(a + [e] + b) == Outputs(a + b) by {
      OutputsAppend(a + [e], b);
      OutputsAppend(a, [e]);
      OutputsAppend(a, b);
      assert Outputs([e]) == [];
      assert Outputs(a) + [] == Outputs(a);
    }
  }

  lemma {:induction false} CursorPrefix(ts: seq<int>, more: seq<int>, limit: int, i: nat)
    requires i < |ts|
    ensures Cursor(ts + more, limit, i) == Cursor(ts, limit, i)
  {
    if i > 0 {
      CursorPrefix(ts, more, limit, i - 1);
    }
  }

  /** Rows exported mid-session are an initial part of the rows exported later. */
  lemma ExportPrefix(es: seq<Event>, more: seq<Event>, limit: int)
    ensures Exported(es, limit) <= Exported(es + more, limit)
  {
    OutputsAppend(es, more);
    RowsPrefix(Outputs(es), Outputs(more), limit);
  }

  lemma RowsPrefix(os: seq<Event>, ms: seq<Event>, limit: int)
    ensures Rows(os, limit) <= Rows(os + ms, limit)
  {
    assert Times(os + ms) == Times(os) + Times(ms);
    forall i | 0 <= i < |os| ensures Cursor(Times(os + ms), limit, i) == Cursor(Times(os), limit, i) {
      CursorPrefix(Times(os), Times(ms), limit, i);
    }
    hide Cursor;
  }

  // ---- Clamp arithmetic ------------------------------------------------------------

  /** Without a limit the cursor telescopes to the raw time. */
  lemma {:induction false} NoLimitTelescopes(ts: seq<int>, limit: int, i: nat)
    requires i < |ts| && limit <= 0
    ensures Cursor(ts, limit, i) == ts[i]
  {
    if i > 0 {
      NoLimitTelescopes(ts, limit, i - 1);
    }
  }

  /** For any times: the cursor is never above the raw time, and i + 1 clamped gaps never add
      up to more than i + 1 limits. */
  lemma {:induction false} CursorBounds(ts: seq<int>, limit: int, i: nat)
    requires i < |ts|
    ensures Cursor(ts, limit, i) <= ts[i]
    ensures limit > 0 ==> Cursor(ts, limit, i) <= (i + 1) * limit
  {
    if i > 0 {
      CursorBounds(ts, limit, i - 1);
    }
  }

  /** For sorted, non-negative times the cursor starts non-negative and never goes back, and
      the time cut out so far never shrinks. */
  lemma {:induction false} CursorMonotone(ts: seq<int>, limit: int, i: nat, j: nat)
    requires i <= j < |ts| && NonDecreasing(ts) && ts[0] >= 0
    ensures 0 <= Cursor(ts, limit, i) <= Cursor(ts, limit, j)
    ensures ts[i] - Cursor(ts, limit, i) <= ts[j] - Cursor(ts, limit, j)
    decreases j
  {
    if j > 0 {
      assert ts[j - 1] <= ts[j];
      if i < j {
        CursorMonotone(ts, limit, i, j - 1);
      } else {
        CursorMonotone(ts, limit, i - 1, j - 1);
      }
    }
  }

  lemma {:induction false} OutputsStaySorted(es: seq<Event>)
    requires NonDecreasing(Times(es))
    ensures NonDecreasing(Times(Outputs(es)))
  {
    if es != [] {
      var n := |es| - 1;
      var init := es[..n];
      assert forall k :: 0 <= k < n ==> Times(init)[k] == Times(es)[k];
      OutputsStaySorted(init);
      var os := Outputs(init);
      OutputsAre(init);
      forall k | 0 <= k < |os| ensures os[k].time <= es[n].time {
        assert os[k] in init;
        var m :| 0 <= m < n && init[m] == os[k];
        assert Times(es)[m] <= Times(es)[n];
      }
      forall i, j | 0 <= i <= j < |Outputs(es)| ensures Times(Outputs(es))[i] <= Times(Outputs(es))[j] {
        if j < |os| {
          assert Times(os)[i] <= Times(os)[j];
        }
      }
    }
  }

  /** The exported rows of a sorted recording are sorted. */
  lemma ExportSorted(es: seq<Event>, limit: int)
    requires NonDecreasing(Times(es)) && forall e :: e in es ==> e.time >= 0
    ensures NonDecreasing(Times(Exported(es, limit)))
  {
    OutputsStaySorted(es);
    OutputsAre(es);
    hide Outputs;
    var ts := Times(Outputs(es));
    forall i, j | 0 <= i <= j < |ts| ensures Cursor(ts, limit, i) <= Cursor(ts, limit, j) {
      assert Outputs(es)[0] in Outputs(es);
      CursorMonotone(ts, limit, i, j);
    }
  }

  /** The rows of any recording: one per output, each stepping from the row before it by the
      clamped gap between the two outputs. */
  lemma RowSteps(es: seq<Event>, limit: int, i: nat)
    requires i < |Outputs(es)|
    ensures var os, rows := Outputs(es), Exported(es, limit);
            && |rows| == |os| && rows[i].data == os[i].data && rows[i].typ == OUTPUT
            && rows[i].time - (if i == 0 then 0 else rows[i - 1].time) ==
               ClampGap(os[i].time - (if i == 0 then 0 else os[i - 1].time), limit)
  {
    hide Outputs, ClampGap;
    var ts := Times(Outputs(es));
    assert Cursor(ts, limit, i) == (if i == 0 then 0 else Cursor(ts, limit, i - 1)) + ClampGap(Gap(ts, i), limit);
  }
}
