/**
 The browser's replay player (frontend/src/views/ReplayView.vue): a machine of button clicks,
 slider moves, speed changes and one timer. `events` is the recording once it has loaded.
 */
module Replay {
  import opened Events
  import opened Wrappers

  /** The component's variables; then the browser's: the `pending` timer ids, how many `timers`
      were made and the latest `delay` in milliseconds; then what the terminal shows, with two
      histories since the last seek: the indices of the events written to it (`log`) and the
      number of times playing was started (`starts`). */
  datatype Sys = Sys(
    seekPos: nat, playing: bool, playTimer: Option<nat>, playIndex: nat, speed: real,
    pending: set<nat>, timers: nat, delay: real,
    screen: string, log: seq<nat>, starts: nat)

  datatype Action = Toggle | Seek(pos: nat) | SetSpeed(speed: real) | TimerFires(t: nat) | Leave

  predicate Enabled(es: seq<Event>, s: Sys, a: Action) {
    match a
    case Seek(pos) => pos <= |es|
    case SetSpeed(speed) => speed > 0.0
    case TimerFires(t) => t in s.pending
    case _ => true
  }

  /** The first output at or after `i`, or the end. */
  function NextOutput(es: seq<Event>, i: nat): (k: nat)
    ensures i <= |es| ==> i <= k <= |es|
    ensures k < |es| ==> es[k].typ == OUTPUT
    ensures forall j :: i <= j < k && j < |es| ==> es[j].typ != OUTPUT
    decreases |es| - i
  {
    if i >= |es| || es[i].typ == OUTPUT then i else NextOutput(es, i + 1)
  }

  /** Nanoseconds to milliseconds of playing time, never negative. */
  function Wait(gap: int, speed: real): real
    requires speed > 0.0
  {
    if gap > 0 then gap as real / speed / 1000000.0 else 0.0
  }

  function Stopped(s: Sys): Sys {
    s.(pending := if s.playTimer.Some? then s.pending - {s.playTimer.value} else s.pending,
       playTimer := None, playing := false)
  }

  function Wrote(es: seq<Event>, s: Sys, k: nat): Sys
    requires k < |es|
  {
    s.(screen := s.screen + es[k].data, log := s.log + [k], seekPos := k, playIndex := k + 1)
  }

  function Stepped(es: seq<Event>, s: Sys): Sys
    requires s.playIndex <= |es| && s.speed > 0.0
  {
    if !s.playing then s
    else
      var k := NextOutput(es, s.playIndex);
      if k >= |es| then Stopped(s.(playIndex := k))
      else
        var s' := Wrote(es, s, k);
        if k + 1 < |es| then
          s'.(playTimer := Some(s.timers), pending := s.pending + {s.timers}, timers := s.timers + 1,
              delay := Wait(es[k + 1].time - es[k].time, s.speed))
        else Stopped(s')
  }

  function PlayedFrom(es: seq<Event>, s: Sys, index: nat): Sys
    requires index <= |es| && s.speed > 0.0
  {
    Stepped(es, Stopped(s).(playIndex := index, playing := true, starts := s.starts + 1))
  }

  function Sought(es: seq<Event>, s: Sys): Sys
    requires s.seekPos <= |es|
  {
    Stopped(s).(screen := Concat(OutputTexts(es[..s.seekPos])), log := OutputIndices(es, s.seekPos), starts := 0)
  }

  predicate Ok(es: seq<Event>, s: Sys) {
    s.seekPos <= |es| && s.playIndex <= |es| && s.speed > 0.0
  }

  function Apply(es: seq<Event>, s: Sys, a: Action): (s': Sys)
    requires Enabled(es, s, a) && Ok(es, s)
    ensures Ok(es, s')
  {
    match a
    case Toggle => if s.playing then Stopped(s) else PlayedFrom(es, s, s.seekPos)
    case Seek(pos) => Sought(es, s.(seekPos := pos))
    case SetSpeed(speed) => s.(speed := speed)
    case TimerFires(t) => Stepped(es, s.(pending := s.pending - {t}))
    case Leave => Stopped(s)
  }

  const FRESH := Sys(0, false, None, 0, 1.0, {}, 0, 0.0, "", [], 0)

  ghost predicate Runs(es: seq<Event>, s: Sys, acts: seq<Action>)
    requires Ok(es, s)
    decreases |acts|
  {
    acts == [] || (Enabled(es, s, acts[0]) && Runs(es, Apply(es, s, acts[0]), acts[1..]))
  }

  function After(es: seq<Event>, s: Sys, acts: seq<Action>): (s': Sys)
    requires Ok(es, s) && Runs(es, s, acts)
    ensures Ok(es, s')
    decreases |acts|
  {
    if acts == [] then s else After(es, Apply(es, s, acts[0]), acts[1..])
  }

  // ---- The component ---------------------------------------------------------------

  class ReplayView {
    const events: seq<Event>
    var seekPos: nat
    var playing: bool
    var playTimer: Option<nat>
    var playIndex: nat
    var speed: real

    var pending: set<nat>
    var timers: nat
    var delay: real
    var screen: string
    var log: seq<nat>
    var starts: nat

    function State(): Sys
      reads this
    {
      Sys(seekPos, playing, playTimer, playIndex, speed, pending, timers, delay, screen, log, starts)
    }

    constructor (events: seq<Event>)
      ensures this.events == events && State() == FRESH
    {
      this.events := events;
      seekPos, playing, playTimer, playIndex, speed := 0, false, None, 0, 1.0;
      pending, timers, delay, screen, log, starts := {}, 0, 0.0, "", [], 0;
    }

    method StopPlay()
      modifies this
      ensures State() == Stopped(old(State()))
    {
      if playTimer.Some? {
        pending := pending - {playTimer.value};
        playTimer := None;
      }
      playing := false;
    }

    method PlayFrom(index: nat)
      requires index <= |events| && Ok(events, State())
      modifies this
      ensures State() == PlayedFrom(events, old(State()), index)
    {
      StopPlay();
      playIndex := index;
      playing := true;
      starts := starts + 1;
      StepPlay();
    }

    method StepPlay()
      requires Ok(events, State())
      modifies this
      ensures State() == Stepped(events, old(State()))
    {
      hide Wait;
      if !playing {
        return;
      }
      while playIndex < |events| && events[playIndex].typ != OUTPUT
        invariant playIndex <= |events|
        invariant NextOutput(events, playIndex) == NextOutput(events, old(playIndex))
        modifies this`playIndex
      {
        playIndex := playIndex + 1;
      }
      if playIndex >= |events| {
        StopPlay();
        return;
      }
      var ev := events[playIndex];
      Write(playIndex);
      seekPos := playIndex;
      playIndex := playIndex + 1;
      if playIndex < |events| {
        SetTimeout(Wait(events[playIndex].time - ev.time, speed));
      } else {
        StopPlay();
      }
    }

    method SetTimeout(wait: real)
      modifies this`delay, this`playTimer, this`pending, this`timers
      ensures delay == wait && playTimer == Some(old(timers))
      ensures pending == old(pending) + {old(timers)} && timers == old(timers) + 1
    {
      delay := wait;
      playTimer := Some(timers);
      pending := pending + {timers};
      timers := timers + 1;
    }

    method Write(k: nat)
      requires k < |events|
      modifies this`screen, this`log
      ensures screen == old(screen) + events[k].data && log == old(log) + [k]
    {
      screen := screen + events[k].data;
      log := log + [k];
    }

    method TogglePlay()
      requires Ok(events, State())
      modifies this
      ensures State() == Apply(events, old(State()), Toggle)
    {
      if playing {
        StopPlay();
      } else {
        PlayFrom(seekPos);
      }
    }

    /** The slider sets `seekPos` before its handler runs. */
    method OnSeek(pos: nat)
      requires pos <= |events| && Ok(events, State())
      modifies this
      ensures State() == Apply(events, old(State()), Seek(pos))
    {
      seekPos := pos;
      StopPlay();
      screen, log, starts := "", OutputIndices(events, pos), 0;
      var outputEvents := Outputs(events[..seekPos]);
      var i := 0;
      while i < |outputEvents|
        invariant 0 <= i <= |outputEvents|
        invariant screen == Concat(Texts(outputEvents)[..i])
        invariant State() == Stopped(old(State()).(seekPos := pos))
                             .(screen := screen, log := OutputIndices(events, pos), starts := 0)
      {
        assert Texts(outputEvents)[..i + 1][..i] == Texts(outputEvents)[..i];
        screen := screen + outputEvents[i].data;
        i := i + 1;
      }
      assert Texts(outputEvents)[..i] == OutputTexts(events[..pos]);
    }

    method OnTimer(t: nat)
      requires t in pending && Ok(events, State())
      modifies this
      ensures State() == Apply(events, old(State()), TimerFires(t))
    {
      pending := pending - {t};
      StepPlay();
    }
  }

  // ---- What has been written -------------------------------------------------------

  /** The indices of the outputs among the first `k` events. */
  function OutputIndices(es: seq<Event>, k: nat): seq<nat>
    requires k <= |es|
  {
    if k == 0 then []
    else OutputIndices(es, k - 1) + if es[k - 1].typ == OUTPUT then [k - 1] else []
  }

  function TextOf(es: seq<Event>, log: seq<nat>): string {
    if log == [] then ""
    else
      var k := log[|log| - 1];
      TextOf(es, log[..|log| - 1]) + if k < |es| then es[k].data else ""
  }

  /** A log with immediate repeats removed. */
  function Dedup(log: seq<nat>): (d: seq<nat>)
    ensures |d| <= |log|
    ensures log != [] ==> d != [] && d[|d| - 1] == log[|log| - 1]
  {
    if log == [] then []
    else
      var n := |log| - 1;
      if n > 0 && log[n - 1] == log[n] then Dedup(log[..n]) else Dedup(log[..n]) + [log[n]]
  }

  lemma NothingShown(es: seq<Event>)
    ensures TextOf(es, OutputIndices(es, 0)) == Concat(OutputTexts(es[..0]))
  {
    NoText();
    assert es[..0] == [];
  }

  lemma {:induction false} IndicesText(es: seq<Event>, k: nat)
    requires k <= |es|
    ensures TextOf(es, OutputIndices(es, k)) == Concat(OutputTexts(es[..k]))
  {
    hide TextOf, Concat, OutputTexts;
    if k == 0 {
      NothingShown(es);
    } else {
      IndicesText(es, k - 1);
      Advance(es, k - 1);
      var before := OutputIndices(es, k - 1);
      TextSnoc(es, before, k - 1);
      assert before + [] == before;
    }
  }

  lemma {:induction false} IndicesUnder(es: seq<Event>, k: nat)
    requires k <= |es|
    ensures forall i :: i in OutputIndices(es, k) ==> i < k
  {
    if k > 0 {
      IndicesUnder(es, k - 1);
    }
  }

  lemma IndexAdded(es: seq<Event>, k: nat)
    requires k < |es| && Dedup(OutputIndices(es, k)) == OutputIndices(es, k)
    ensures Dedup(OutputIndices(es, k + 1)) == OutputIndices(es, k + 1)
  {
    hide Dedup;
    var before := OutputIndices(es, k);
    assert before + [] == before;
    IndicesUnder(es, k);
    DedupSnoc(before, k);
    if before != [] { assert before[|before| - 1] in before; }
  }

  lemma {:induction false} IndicesBelow(es: seq<Event>, k: nat)
    requires k <= |es|
    ensures forall i :: i in OutputIndices(es, k) ==> i < k
    ensures Dedup(OutputIndices(es, k)) == OutputIndices(es, k)
  {
    IndicesUnder(es, k);
    if k > 0 {
      IndicesBelow(es, k - 1);
      IndexAdded(es, k - 1);
    }
  }

  lemma {:induction false} IndicesSkip(es: seq<Event>, i: nat, k: nat)
    requires i <= k <= |es| && forall j :: i <= j < k ==> es[j].typ != OUTPUT
    ensures OutputIndices(es, k) == OutputIndices(es, i)
  {
    if i < k {
      IndicesSkip(es, i, k - 1);
      assert OutputIndices(es, k - 1) + [] == OutputIndices(es, k - 1);
    }
  }

  // ---- Every run -------------------------------------------------------------------

  /** Between handlers a timer is pending exactly while playing, and it is the one on record. */
  ghost predicate TimerInv(s: Sys) {
    && (s.playTimer.Some? <==> s.playing)
    && s.pending == (if s.playing then {s.playTimer.value} else {})
    && (s.playing ==> s.playTimer.value < s.timers)
  }

  /** Since the last seek: either nothing has been played, or the last event played is at
      `seekPos`, everything before it has been shown, and each start but the first repeated
      one event. */
  ghost predicate LogInv(es: seq<Event>, s: Sys)
    requires Ok(es, s)
  {
    if s.log == OutputIndices(es, s.seekPos) then
      !s.playing && (s.starts > 0 ==> NextOutput(es, s.seekPos) == |es|)
    else
      && s.seekPos < |es| && es[s.seekPos].typ == OUTPUT
      && s.log != [] && s.log[|s.log| - 1] == s.seekPos
      && Dedup(s.log) == OutputIndices(es, s.seekPos + 1)
      && |s.log| + 1 == |Dedup(s.log)| + s.starts
      && (s.playing ==> s.playIndex == s.seekPos + 1 < |es|)
  }

  ghost predicate Inv(es: seq<Event>, s: Sys) {
    Ok(es, s) && TimerInv(s) && s.screen == TextOf(es, s.log) && LogInv(es, s)
  }

  lemma TextSnoc(es: seq<Event>, log: seq<nat>, k: nat)
    requires k < |es|
    ensures TextOf(es, log + [k]) == TextOf(es, log) + es[k].data
  {
    assert (log + [k])[..|log|] == log;
  }

  lemma DedupSnoc(log: seq<nat>, k: nat)
    ensures Dedup(log + [k]) == if log != [] && log[|log| - 1] == k then Dedup(log) else Dedup(log) + [k]
  {
    assert (log + [k])[..|log|] == log;
  }

  /** Writing the next output after everything shown so far. */
  lemma NextWritten(es: seq<Event>, log: seq<nat>, i: nat)
    requires i <= |es| && Dedup(log) == OutputIndices(es, i) && NextOutput(es, i) < |es|
    ensures var k := NextOutput(es, i);
            && Dedup(log + [k]) == Dedup(log) + [k] == OutputIndices(es, k + 1)
            && k !in Dedup(log)
  {
    assert OutputIndices(es, NextOutput(es, i) + 1) == OutputIndices(es, NextOutput(es, i)) + [NextOutput(es, i)];
    hide OutputIndices, Dedup, NextOutput;
    var k := NextOutput(es, i);
    IndicesSkip(es, i, k);
    IndicesBelow(es, i);
    assert k !in Dedup(log);
    DedupSnoc(log, k);
  }

  lemma NotYetWritten(es: seq<Event>, log: seq<nat>, k: nat)
    requires k < |es| && log != [] && log[|log| - 1] == k
    ensures log != OutputIndices(es, k)
  {
    IndicesBelow(es, k);
    assert k in log;
  }

  lemma StepKeepsScreen(es: seq<Event>, s: Sys)
    requires Ok(es, s) && s.screen == TextOf(es, s.log)
    ensures Stepped(es, s).screen == TextOf(es, Stepped(es, s).log)
  {
    var k := NextOutput(es, s.playIndex);
    if k < |es| {
      TextSnoc(es, s.log, k);
    }
    hide TextOf;
  }

  /** A handler that runs with its timer spent leaves a timer exactly if it goes on playing. */
  lemma StepKeepsTimer(es: seq<Event>, s: Sys)
    requires Ok(es, s) && s.playing && s.pending == {}
    ensures TimerInv(Stepped(es, s))
  {
    var s' := Stepped(es, s);
    if !s'.playing {
      assert s'.pending == {};
    }
  }

  lemma GoesOn(es: seq<Event>, s: Sys)
    requires Ok(es, s) && s.playing && LogInv(es, s) && NextOutput(es, s.playIndex) < |es|
    ensures var k := NextOutput(es, s.playIndex);
            && LogInv(es, Wrote(es, s, k).(playing := k + 1 < |es|))
            && Dedup(s.log + [k]) == OutputIndices(es, k + 1)
  {
    hide OutputIndices, Dedup, NextOutput;
    var k := NextOutput(es, s.playIndex);
    NextWritten(es, s.log, s.playIndex);
    NotYetWritten(es, s.log + [k], k);
  }

  /** The timer armed after a write makes up, at the current speed, for the recorded gap between
      the event written and the one after it. */
  lemma TimerWaitsForGap(es: seq<Event>, s: Sys)
    requires Ok(es, s) && s.playing && Stepped(es, s).playing
    ensures var s' := Stepped(es, s); var gap := es[s'.seekPos + 1].time - es[s'.seekPos].time;
            && s'.seekPos + 1 == s'.playIndex < |es|
            && s'.delay * s.speed * 1000000.0 == (if gap > 0 then gap else 0) as real
  {
    hide NextOutput;
    var k := NextOutput(es, s.playIndex);
    Unscaled((es[k + 1].time - es[k].time) as real, s.speed);
  }

  lemma Unscaled(x: real, speed: real)
    requires speed > 0.0
    ensures x / speed / 1000000.0 * speed * 1000000.0 == x
  {
    var y := x / speed;
    assert y * speed == x;
  }

  /** The timer goes off while playing: the next output is written, or none is left. */
  lemma TimerKeepsLog(es: seq<Event>, s: Sys)
    requires Ok(es, s) && s.playing && LogInv(es, s)
    ensures var s' := Stepped(es, s);
            && LogInv(es, s') && s'.starts == s.starts && s'.playIndex > s.playIndex
            && (!s'.playing ==> Dedup(s'.log) == OutputIndices(es, |es|))
  {
    hide OutputIndices, Dedup, NextOutput;
    var k := NextOutput(es, s.playIndex);
    if k < |es| {
      GoesOn(es, s);
    } else {
      IndicesSkip(es, s.playIndex, |es|);
    }
  }

  /** Starting writes the first output not yet shown, or the last one shown once more. */
  lemma StartKeepsLog(es: seq<Event>, s: Sys)
    requires Ok(es, s) && !s.playing && LogInv(es, s)
    ensures LogInv(es, PlayedFrom(es, s, s.seekPos))
    ensures s.log == OutputIndices(es, s.seekPos) && !PlayedFrom(es, s, s.seekPos).playing ==>
              Dedup(PlayedFrom(es, s, s.seekPos).log) == OutputIndices(es, |es|)
  {
    if s.log == OutputIndices(es, s.seekPos) {
      StartFresh(es, s);
    } else {
      StartAgain(es, s);
    }
  }

  lemma StartFreshWrites(es: seq<Event>, s: Sys)
    requires Ok(es, s) && LogInv(es, s) && s.log == OutputIndices(es, s.seekPos) && NextOutput(es, s.seekPos) < |es|
    ensures var k := NextOutput(es, s.seekPos);
            && LogInv(es, Wrote(es, s, k).(playing := k + 1 < |es|, starts := s.starts + 1))
            && Dedup(s.log + [k]) == OutputIndices(es, k + 1)
  {
    hide OutputIndices, Dedup, NextOutput;
    var k := NextOutput(es, s.seekPos);
    IndicesBelow(es, s.seekPos);
    NextWritten(es, s.log, s.seekPos);
    NotYetWritten(es, s.log + [k], k);
  }

  lemma StartFresh(es: seq<Event>, s: Sys)
    requires Ok(es, s) && LogInv(es, s) && s.log == OutputIndices(es, s.seekPos)
    ensures var s' := PlayedFrom(es, s, s.seekPos);
            && LogInv(es, s')
            && (!s'.playing ==> Dedup(s'.log) == OutputIndices(es, |es|))
  {
    hide OutputIndices, Dedup, NextOutput;
    IndicesBelow(es, s.seekPos);
    if NextOutput(es, s.seekPos) < |es| {
      StartFreshWrites(es, s);
    } else {
      IndicesSkip(es, s.seekPos, |es|);
    }
  }

  lemma StartAgainWrites(es: seq<Event>, s: Sys)
    requires Ok(es, s) && LogInv(es, s) && s.log != OutputIndices(es, s.seekPos)
    ensures LogInv(es, Wrote(es, s, s.seekPos).(playing := s.seekPos + 1 < |es|, starts := s.starts + 1))
  {
    hide OutputIndices, Dedup, NextOutput;
    DedupSnoc(s.log, s.seekPos);
    NotYetWritten(es, s.log + [s.seekPos], s.seekPos);
  }

  lemma StartAgain(es: seq<Event>, s: Sys)
    requires Ok(es, s) && LogInv(es, s) && s.log != OutputIndices(es, s.seekPos)
    ensures LogInv(es, PlayedFrom(es, s, s.seekPos))
  {
    assert NextOutput(es, s.seekPos) == s.seekPos;
    hide OutputIndices, Dedup, NextOutput;
    StartAgainWrites(es, s);
  }

  lemma ActionKeeps(es: seq<Event>, s: Sys, a: Action)
    requires Inv(es, s) && Enabled(es, s, a)
    ensures Inv(es, Apply(es, s, a))
  {
    hide LogInv, Stepped, TextOf, OutputIndices;
    match a
    case Toggle =>
      if s.playing {
        StopKeepsLog(es, s);
      } else {
        StartKeepsLog(es, s);
        StepKeepsScreen(es, Stopped(s).(playIndex := s.seekPos, playing := true, starts := s.starts + 1));
        StepKeepsTimer(es, Stopped(s).(playIndex := s.seekPos, playing := true, starts := s.starts + 1));
      }
    case Seek(pos) =>
      IndicesText(es, pos);
      SeekKeepsLog(es, s.(seekPos := pos));
    case SetSpeed(speed) => SpeedKeepsLog(es, s, speed);
    case TimerFires(t) =>
      var s0 := s.(pending := s.pending - {t});
      PendingAside(es, s, s0.pending);
      TimerKeepsLog(es, s0);
      StepKeepsScreen(es, s0);
      StepKeepsTimer(es, s0);
    case Leave => StopKeepsLog(es, s);
  }

  lemma StopKeepsLog(es: seq<Event>, s: Sys)
    requires Ok(es, s) && LogInv(es, s)
    ensures LogInv(es, Stopped(s))
  {
  }

  lemma SeekKeepsLog(es: seq<Event>, s: Sys)
    requires Ok(es, s)
    ensures LogInv(es, Sought(es, s))
  {
  }

  lemma SpeedKeepsLog(es: seq<Event>, s: Sys, speed: real)
    requires Ok(es, s) && LogInv(es, s) && speed > 0.0
    ensures LogInv(es, s.(speed := speed))
  {
  }

  lemma PendingAside(es: seq<Event>, s: Sys, pending: set<nat>)
    requires Ok(es, s) && LogInv(es, s)
    ensures LogInv(es, s.(pending := pending))
  {
  }

  lemma {:induction false} RunKeeps(es: seq<Event>, s: Sys, acts: seq<Action>)
    requires Inv(es, s) && Runs(es, s, acts)
    ensures Inv(es, After(es, s, acts))
    decreases |acts|
  {
    hide TimerInv, LogInv, TextOf;
    if acts != [] {
      ActionKeeps(es, s, acts[0]);
      RunKeeps(es, Apply(es, s, acts[0]), acts[1..]);
    }
  }

  lemma FreshOk(es: seq<Event>)
    ensures Inv(es, FRESH)
  {
  }

  /** In every run of clicks, slider moves, speed changes and timers: a timer is pending between
      handlers exactly while playing; and since the last seek the screen was given the outputs
      up to some event `k`, in order and none skipped, except that some were given again right
      after themselves, fewer times than playing was started. */
  lemma ReplayInOrder(es: seq<Event>, acts: seq<Action>) returns (k: nat)
    requires Runs(es, FRESH, acts)
    ensures var s := After(es, FRESH, acts);
            && |s.pending| == (if s.playing then 1 else 0)
            && k <= |es| && Dedup(s.log) == OutputIndices(es, k)
            && |s.log| <= |Dedup(s.log)| + (if s.starts == 0 then 0 else s.starts - 1)
            && s.screen == TextOf(es, s.log)
  {
    FreshOk(es);
    RunKeeps(es, FRESH, acts);
    var s := After(es, FRESH, acts);
    k := s.seekPos;
    if s.log == OutputIndices(es, k) {
      IndicesBelow(es, k);
    } else {
      k := k + 1;
    }
  }

  predicate Undisturbed(a: Action) {
    a.TimerFires? || a.SetSpeed?
  }

  function Ticks(acts: seq<Action>): nat {
    if acts == [] then 0 else (if acts[0].TimerFires? then 1 else 0) + Ticks(acts[1..])
  }

  /** Playing on without pause or seek takes at most one timer per event left, can go on as long
      as it has not stopped, and stops only with every output shown. */
  lemma {:induction false} PlaysOn(es: seq<Event>, s: Sys, acts: seq<Action>)
    requires Inv(es, s) && Runs(es, s, acts) && forall a :: a in acts ==> Undisturbed(a)
    requires !s.playing ==> Dedup(s.log) == OutputIndices(es, |es|)
    ensures var s' := After(es, s, acts);
            && Inv(es, s') && s'.starts == s.starts
            && s.playIndex + Ticks(acts) <= s'.playIndex <= |es|
            && (!s'.playing ==> Dedup(s'.log) == OutputIndices(es, |es|))
    decreases |acts|
  {
    hide LogInv, Stepped, TextOf, OutputIndices, Dedup;
    if acts != [] {
      assert acts[0] in acts;
      ActionKeeps(es, s, acts[0]);
      if acts[0].TimerFires? {
        PendingAside(es, s, s.pending - {acts[0].t});
        TimerKeepsLog(es, s.(pending := s.pending - {acts[0].t}));
      }
      PlaysOn(es, Apply(es, s, acts[0]), acts[1..]);
    }
  }

  lemma AllShown(es: seq<Event>, s: Sys)
    requires Inv(es, s) && s.starts == 1 && Dedup(s.log) == OutputIndices(es, |es|)
    ensures s.log == OutputIndices(es, |es|) && s.screen == Concat(OutputTexts(es))
  {
    IndicesText(es, |es|);
    assert es[..|es|] == es;
    if s.log == OutputIndices(es, s.seekPos) {
      IndicesBelow(es, s.seekPos);
    } else {
      NoRepeats(s.log);
    }
  }

  lemma {:induction false} NoRepeats(log: seq<nat>)
    requires |Dedup(log)| == |log|
    ensures Dedup(log) == log
  {
    if log != [] {
      NoRepeats(log[..|log| - 1]);
    }
  }

  /** From any reachable state: seek to any position, play, and let it run, at any speeds. It
      stops within one timer per event after the position, some timer is there to fire until it
      has, and then the screen shows all outputs of the recording, each exactly once. */
  lemma SeekThenPlay(es: seq<Event>, before: seq<Action>, pos: nat, acts: seq<Action>)
    requires Runs(es, FRESH, before) && pos <= |es|
    requires var s := Apply(es, Apply(es, After(es, FRESH, before), Seek(pos)), Toggle);
             Runs(es, s, acts) && forall a :: a in acts ==> Undisturbed(a)
    ensures var s := Apply(es, Apply(es, After(es, FRESH, before), Seek(pos)), Toggle);
            var s' := After(es, s, acts);
            && pos + Ticks(acts) <= |es|
            && (s'.playing ==> s'.pending != {})
            && (!s'.playing ==> s'.screen == Concat(OutputTexts(es)) && s'.log == OutputIndices(es, |es|))
  {
    FreshOk(es);
    RunKeeps(es, FRESH, before);
    var s0 := After(es, FRESH, before);
    ActionKeeps(es, s0, Seek(pos));
    var s1 := Apply(es, s0, Seek(pos));
    ActionKeeps(es, s1, Toggle);
    StartKeepsLog(es, s1);
    var s := Apply(es, s1, Toggle);
    hide LogInv, Stepped, TextOf, OutputIndices, Dedup, Runs, After;
    PlaysOn(es, s, acts);
    if !After(es, s, acts).playing {
      AllShown(es, After(es, s, acts));
    }
  }

  /** Pausing pauses: in every reachable playing state a click, or leaving the view, stops the
      timer and touches neither the screen nor the position. */
  lemma PauseStops(es: seq<Event>, acts: seq<Action>, a: Action)
    requires Runs(es, FRESH, acts) && After(es, FRESH, acts).playing && (a.Toggle? || a.Leave?)
    ensures var s := After(es, FRESH, acts); var s' := Apply(es, s, a);
            && !s'.playing && s'.pending == {} && s'.screen == s.screen && s'.seekPos == s.seekPos
  {
    FreshOk(es);
    RunKeeps(es, FRESH, acts);
    hide LogInv, TextOf;
    assert Apply(es, After(es, FRESH, acts), a).pending == {};
  }

  /** While it is not playing nothing is written, until the next click on play or seek. */
  lemma {:induction false} StoppedStays(es: seq<Event>, s: Sys, acts: seq<Action>)
    requires Inv(es, s) && !s.playing && Runs(es, s, acts) && forall a :: a in acts ==> !a.Toggle? && !a.Seek?
    ensures var s' := After(es, s, acts);
            !s'.playing && s'.pending == {} && s'.screen == s.screen && s'.log == s.log && s'.seekPos == s.seekPos
    decreases |acts|
  {
    hide LogInv, TextOf;
    if acts != [] {
      assert acts[0] in acts && !acts[0].TimerFires?;
      ActionKeeps(es, s, acts[0]);
      StoppedStays(es, Apply(es, s, acts[0]), acts[1..]);
    }
  }

  /** The speed last chosen, or 1. */
  function Chosen(acts: seq<Action>, speed: real): real {
    if acts == [] then speed
    else Chosen(acts[1..], if acts[0].SetSpeed? then acts[0].speed else speed)
  }

  lemma StepKeepsSpeed(es: seq<Event>, s: Sys, a: Action)
    requires Ok(es, s) && Enabled(es, s, a)
    ensures Apply(es, s, a).speed == if a.SetSpeed? then a.speed else s.speed
  {
  }

  /** The speed chosen last is the one in force, whatever else happens. */
  lemma {:induction false} ChosenSpeedHolds(es: seq<Event>, s: Sys, acts: seq<Action>)
    requires Ok(es, s) && Runs(es, s, acts)
    ensures After(es, s, acts).speed == Chosen(acts, s.speed)
    decreases |acts|
  {
    if acts != [] {
      StepKeepsSpeed(es, s, acts[0]);
      ChosenSpeedHolds(es, Apply(es, s, acts[0]), acts[1..]);
    }
  }
}
