/** Replaying a recording to a writer (internal/recorder/player.go). Speeds are exact rationals. */
module Player {
  import opened Events

  /** time.Duration of an exact quotient: truncated toward zero. */
  function Trunc(x: real): (n: int)
    ensures x >= 0.0 ==> n as real <= x < n as real + 1.0
    ensures x <= 0.0 ==> n as real - 1.0 < x <= n as real
  {
    if x >= 0.0 then x.Floor else -(-x).Floor
  }

  /** The wait before event `i`, measured from the event just before it, whatever its type. */
  function Delay(es: seq<Event>, speed: real, i: nat): int
    requires i < |es| && speed > 0.0
  {
    Trunc((es[i].time - if i == 0 then 0 else es[i - 1].time) as real / speed)
  }

  function Max0(d: int): int {
    if d > 0 then d else 0
  }

  /** How the environment treats event `i`: whether the wait before it is interrupted, and
      whether its write fails. */
  datatype World = World(interrupted: nat -> bool, broken: nat -> bool)

  /** The event at which playback stops, or the number of events. */
  function StopAt(es: seq<Event>, speed: real, w: World, i: nat): (k: nat)
    requires i <= |es| && speed > 0.0
    ensures i <= k <= |es|
    decreases |es| - i
  {
    if i == |es| then i
    else if es[i].typ == OUTPUT && ((Delay(es, speed, i) > 0 && w.interrupted(i)) || w.broken(i)) then i
    else StopAt(es, speed, w, i + 1)
  }

  /** Total time waited for the outputs among the first `k` events. */
  function Waited(es: seq<Event>, speed: real, k: nat): int
    requires k <= |es| && speed > 0.0
  {
    if k == 0 then 0
    else Waited(es, speed, k - 1) + if es[k - 1].typ == OUTPUT then Max0(Delay(es, speed, k - 1)) else 0
  }

  class Player {
    const events: seq<Event>
    const speed: real

    /** A speed of zero or less means real time. */
    constructor (events: seq<Event>, speed: real)
      ensures this.events == events && this.speed > 0.0
      ensures this.speed == if speed <= 0.0 then 1.0 else speed
    {
      this.events := events;
      this.speed := if speed <= 0.0 then 1.0 else speed;
    }

    /** Writes the outputs in order, waiting before each. Whatever the moment of cancellation or
        failure, the text written is that of the outputs among an initial run of the events. */
    method Play(w: World) returns (failed: bool, written: string, waited: int)
      requires speed > 0.0
      ensures var k := StopAt(events, speed, w, 0);
              && written == Concat(OutputTexts(events[..k]))
              && waited == Waited(events, speed, k)
              && (failed ==> k < |events| && w.broken(k))
              && (!failed && k < |events| ==> w.interrupted(k))
    {
      hide OutputTexts, Concat, Trunc;
      assert OutputTexts([]) == [] && Concat([]) == "" by { NoText(); }
      failed, written, waited := false, "", 0;
      var prev := 0;
      var i := 0;
      while i < |events|
        invariant 0 <= i <= |events|
        invariant prev == if i == 0 then 0 else events[i - 1].time
        invariant StopAt(events, speed, w, 0) == StopAt(events, speed, w, i)
        invariant written == Concat(OutputTexts(events[..i])) && waited == Waited(events, speed, i)
      {
        var ev := events[i];
        Advance(events, i);
        if ev.typ != OUTPUT {
          prev := ev.time;
          i := i + 1;
          continue;
        }
        var delay := Trunc((ev.time - prev) as real / speed);
        assert delay == Delay(events, speed, i);
        if delay > 0 && w.interrupted(i) {
          return;
        }
        if w.broken(i) {
          failed := true;
          return;
        }
        if delay > 0 {
          waited := waited + delay;
        }
        written := written + ev.data;
        prev := ev.time;
        i := i + 1;
      }
      assert events[..i] == events;
    }
  }

  /** Playback from a seek position, any integer: below zero is the start, past the end nothing. */
  method NewPlayerFrom(events: seq<Event>, speed: real, seekIndex: int) returns (p: Player)
    ensures fresh(p) && p.events == events[SeekTo(events, seekIndex)..]
    ensures p.speed == if speed <= 0.0 then 1.0 else speed
  {
    var k := seekIndex;
    if k < 0 {
      k := 0;
    }
    if k >= |events| {
      k := |events|;
    }
    p := new Player(events[k..], speed);
  }

  /** The index nearest to `k`. */
  function SeekTo(es: seq<Event>, k: int): (j: nat)
    ensures j <= |es| && (0 <= k <= |es| ==> j == k)
    ensures (j > k ==> j == 0) && (j < k ==> j == |es|)
  {
    if k < 0 then 0 else if k > |es| then |es| else k
  }

  /** Cutting the recording anywhere cuts its text: what a stopped playback wrote is a prefix,
      and for any seek index the outputs before it and a playback from it are the whole text. */
  lemma CutAnywhere(es: seq<Event>, seekIndex: int)
    ensures var k := SeekTo(es, seekIndex);
            Concat(OutputTexts(es)) == Concat(OutputTexts(es[..k])) + Concat(OutputTexts(es[k..]))
  {
    var k := SeekTo(es, seekIndex);
    OutputsAppend(es[..k], es[k..]);
    assert es == es[..k] + es[k..];
    TextsAppend(Outputs(es[..k]), Outputs(es[k..]));
    ConcatAppend(OutputTexts(es[..k]), OutputTexts(es[k..]));
  }

  /** An uninterrupted playback writes every output. */
  lemma {:induction false} RunsToTheEnd(es: seq<Event>, speed: real, w: World, i: nat)
    requires i <= |es| && speed > 0.0
    requires forall k :: i <= k < |es| ==> !w.interrupted(k) && !w.broken(k)
    ensures StopAt(es, speed, w, i) == |es|
    decreases |es| - i
  {
    if i < |es| {
      RunsToTheEnd(es, speed, w, i + 1);
    }
  }

  lemma QuotientSum(a: real, b: real, speed: real)
    requires speed > 0.0
    ensures a / speed + b / speed == (a + b) / speed
  {
    assert (a / speed + b / speed) * speed == a + b;
  }

  /** For k sorted outputs the waits add up to the last time over the speed, less at most one
      nanosecond each. */
  lemma {:induction false} WaitBounds(es: seq<Event>, speed: real, k: nat)
    requires k <= |es| && speed > 0.0
    requires forall e :: e in es ==> e.typ == OUTPUT
    requires NonDecreasing(Times(es)) && (es != [] ==> es[0].time >= 0)
    ensures var end := if k == 0 then 0.0 else es[k - 1].time as real / speed;
            && end - k as real <= Waited(es, speed, k) as real <= end
            && (k > 0 ==> end - k as real < Waited(es, speed, k) as real)
  {
    if k > 0 {
      WaitBounds(es, speed, k - 1);
      assert es[k - 1] in es;
      var prev := if k == 1 then 0 else es[k - 2].time;
      assert k > 1 ==> Times(es)[k - 2] <= Times(es)[k - 1];
      var gap := (es[k - 1].time - prev) as real;
      assert gap / speed >= 0.0;
      QuotientSum(gap, prev as real, speed);
      assert gap / speed - 1.0 < Delay(es, speed, k - 1) as real <= gap / speed;
    }
  }

  /** What stops playback at an output: an interrupted wait, if there is one, or a failed write. */
  predicate Disturbed(es: seq<Event>, speed: real, w: World, i: nat)
    requires i < |es| && speed > 0.0
  {
    es[i].typ == OUTPUT && ((Delay(es, speed, i) > 0 && w.interrupted(i)) || w.broken(i))
  }

  /** Playback stops at the first output disturbed, and at none before it. */
  lemma {:induction false} StopsAtFirst(es: seq<Event>, speed: real, w: World, i: nat)
    requires i <= |es| && speed > 0.0
    ensures var k := StopAt(es, speed, w, i);
            && (forall j :: i <= j < k ==> !Disturbed(es, speed, w, j))
            && (k < |es| ==> Disturbed(es, speed, w, k))
    decreases |es| - i
  {
    hide Delay;
    if i < |es| && !Disturbed(es, speed, w, i) {
      StopsAtFirst(es, speed, w, i + 1);
    }
  }

  /** The wait for an output, after an event of any type: the time since that event over the
      speed, less than a nanosecond short; none for an event out of order or of another type.
      Time before an input or resize event is never waited for. */
  lemma WaitForEach(es: seq<Event>, speed: real, i: nat)
    requires i < |es| && speed > 0.0
    ensures var wait := Waited(es, speed, i + 1) - Waited(es, speed, i);
            var gap := (es[i].time - if i == 0 then 0 else es[i - 1].time) as real;
            if es[i].typ == OUTPUT && gap > 0.0 then
              wait as real * speed <= gap < wait as real * speed + speed
            else wait == 0
  {
    var gap := (es[i].time - if i == 0 then 0 else es[i - 1].time) as real;
    var q := gap / speed;
    var wait := Waited(es, speed, i + 1) - Waited(es, speed, i);
    assert q * speed == gap;
    SignOf(q, gap, speed);
    if gap > 0.0 {
      FloorTimes(q, q.Floor as real, gap, speed);
      assert Delay(es, speed, i) == q.Floor >= 0;
    } else {
      assert Delay(es, speed, i) <= 0;
    }
  }

  lemma SignOf(q: real, gap: real, speed: real)
    requires q * speed == gap && speed > 0.0
    ensures q > 0.0 <==> gap > 0.0
  {
  }

  lemma FloorTimes(q: real, low: real, gap: real, speed: real)
    requires q * speed == gap && speed > 0.0 && low <= q < low + 1.0
    ensures low * speed <= gap < low * speed + speed
  {
    var rest := q - low;
    assert rest * speed == gap - low * speed;
    assert (1.0 - rest) * speed > 0.0;
  }
}
