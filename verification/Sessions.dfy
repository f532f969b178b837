/**
 A session's subscriber list, its fan-out and its stream pump (internal/session/session.go),
 each operation taken as one atomic step. Fanout.dfy interleaves the same operations.
 */
module Sessions {
  import opened Events
  import opened Crlf
  import opened Recording

  const SUBSCRIBER_SLOTS: nat := 64

  /** The non-blocking send: append if the channel has room, else drop. */
  function TrySend(ch: seq<string>, data: string): seq<string> {
    if |ch| < SUBSCRIBER_SLOTS then ch + [data] else ch
  }

  /** A channel nobody reads, after a series of broadcasts. */
  function TrySendAll(ch: seq<string>, chunks: seq<string>): seq<string> {
    if chunks == [] then ch
    else TrySend(TrySendAll(ch, chunks[..|chunks| - 1]), chunks[|chunks| - 1])
  }

  /** Splice the first occurrence of `x` out of a list. */
  function Without<T(==)>(xs: seq<T>, x: T): seq<T> {
    if xs == [] then [] else if xs[0] == x then xs[1..] else [xs[0]] + Without(xs[1..], x)
  }

  ghost predicate Distinct<T>(xs: seq<T>) {
    forall j, k :: 0 <= j < k < |xs| ==> xs[j] != xs[k]
  }

  lemma {:induction false} WithoutRemoves<T>(xs: seq<T>, x: T)
    requires Distinct(xs)
    ensures Distinct(Without(xs, x))
    ensures forall y :: y in Without(xs, x) <==> y in xs && y != x
  {
    if xs != [] {
      var rest := xs[1..];
      WithoutRemoves(rest, x);
      assert xs == [xs[0]] + rest;
      assert forall y :: y in xs <==> y == xs[0] || y in rest;
      assert xs[0] !in rest;
      if xs[0] != x {
        var w := Without(rest, x);
        assert forall y :: y in Without(xs, x) <==> y == xs[0] || y in w;
      }
    }
  }

  lemma {:induction false} WithoutAt<T>(xs: seq<T>, x: T, i: nat)
    requires i < |xs| && xs[i] == x && x !in xs[..i]
    ensures Without(xs, x) == xs[..i] + xs[i + 1..]
  {
    if i > 0 {
      assert xs[0] == xs[..i][0];
      assert xs[1..][..i - 1] == xs[..i][1..];
      WithoutAt(xs[1..], x, i - 1);
    }
  }

  lemma {:induction false} WithoutAbsent<T>(xs: seq<T>, x: T)
    requires x !in xs
    ensures Without(xs, x) == xs
  {
    if xs != [] {
      WithoutAbsent(xs[1..], x);
    }
  }

  /** `closes` counts the closes of the Done channel. */
  class Subscription {
    var ch: seq<string>
    var closes: nat

    constructor ()
      ensures ch == [] && closes == 0
    {
      ch, closes := [], 0;
    }
  }

  class Session {
    const exec: bool
    const hasStream: bool
    const recorder: Recorder
    var subscribers: seq<Subscription>
    var pumps: nat
    var pumpStarted: bool

    constructor (exec: bool, hasStream: bool, recorder: Recorder)
      ensures this.exec == exec && this.hasStream == hasStream && this.recorder == recorder
      ensures Valid() && subscribers == [] && pumps == 0
    {
      this.exec, this.hasStream, this.recorder := exec, hasStream, recorder;
      subscribers, pumps, pumpStarted := [], 0, false;
    }

    /** No subscription is listed twice, and at most one pump was ever started. */
    ghost predicate Valid()
      reads this
    {
      Distinct(subscribers) && pumps == if pumpStarted && hasStream then 1 else 0
    }

    method Subscribe() returns (sub: Subscription)
      requires Valid()
      modifies this`subscribers
      ensures Valid() && fresh(sub) && sub.ch == [] && sub.closes == 0
      ensures subscribers == old(subscribers) + [sub]
    {
      sub := new Subscription();
      subscribers := subscribers + [sub];
    }

    method Unsubscribe(sub: Subscription)
      requires Valid()
      modifies this`subscribers, sub`closes
      ensures Valid() && sub !in subscribers
      ensures subscribers == Without(old(subscribers), sub)
      ensures sub.closes == old(sub.closes) + 1
    {
      WithoutRemoves(subscribers, sub);
      var i := 0;
      while i < |subscribers| && subscribers[i] != sub
        invariant i <= |subscribers| && subscribers == old(subscribers)
        invariant sub !in subscribers[..i]
      {
        i := i + 1;
      }
      if i < |subscribers| {
        WithoutAt(subscribers, sub, i);
        subscribers := subscribers[..i] + subscribers[i + 1..];
      } else {
        assert subscribers[..i] == subscribers;
        WithoutAbsent(subscribers, sub);
      }
      sub.closes := sub.closes + 1;
    }

    method Broadcast(data: string)
      requires Valid()
      modifies (set s | s in subscribers)`ch
      ensures Valid()
      ensures forall s :: s in subscribers ==> s.ch == TrySend(old(s.ch), data)
    {
      var subs := subscribers;
      var i := 0;
      while i < |subs|
        invariant 0 <= i <= |subs|
        invariant forall k :: 0 <= k < i ==> subs[k].ch == TrySend(old(subs[k].ch), data)
        invariant forall k :: i <= k < |subs| ==> subs[k].ch == old(subs[k].ch)
      {
        if |subs[i].ch| < SUBSCRIBER_SLOTS {
          subs[i].ch := subs[i].ch + [data];
        }
        i := i + 1;
      }
    }

    /** sync.Once around the goroutine start; a session without a stream never starts one. */
    method StartStreamPump()
      requires Valid()
      modifies this`pumps, this`pumpStarted
      ensures Valid() && pumps <= 1
      ensures pumps == if hasStream then 1 else old(pumps)
    {
      if !hasStream {
        return;
      }
      if !pumpStarted {
        pumpStarted := true;
        pumps := pumps + 1;
      }
    }

    /** The pump's loop over the chunks the stream yields before it fails; `clock[i]` is the
        time at which chunk `i` is recorded. */
    method Pump(taken: seq<string>, clock: seq<int>)
      requires Valid() && |clock| == |taken|
      modifies recorder`events, (set s | s in subscribers)`ch
      ensures Valid() && subscribers == old(subscribers)
      ensures recorder.events == old(recorder.events) + PumpEvents(exec, recorder.start, taken, clock)
      ensures forall s :: s in subscribers ==>
                s.ch == TrySendAll(old(s.ch), Texts(PumpEvents(exec, recorder.start, taken, clock)))
    {
      var i := 0;
      ghost var start := recorder.start;
      while i < |taken|
        invariant 0 <= i <= |taken|
        invariant recorder.events == old(recorder.events) + PumpEvents(exec, start, taken[..i], clock[..i])
        invariant forall s :: s in subscribers ==>
                    s.ch == TrySendAll(old(s.ch), Texts(PumpEvents(exec, start, taken[..i], clock[..i])))
      {
        var data := taken[i];
        if !exec {
          data := NormalizeLF(data);
        }
        ghost var before := PumpEvents(exec, start, taken[..i], clock[..i]);
        recorder.Add(OUTPUT, data, clock[i]);
        Broadcast(data);
        i := i + 1;
        PumpEventsSnoc(exec, start, taken, clock, i - 1);
        TextsAppend(before, [Event(clock[i - 1] - start, OUTPUT, data)]);
      }
      assert taken[..i] == taken && clock[..i] == clock;
    }
  }

  function PumpEvents(exec: bool, start: int, taken: seq<string>, clock: seq<int>): seq<Event>
    requires |clock| == |taken|
  {
    seq(|taken|, i requires 0 <= i < |taken| =>
      Event(clock[i] - start, OUTPUT, if exec then taken[i] else NormalizeLF(taken[i])))
  }

  lemma PumpEventsSnoc(exec: bool, start: int, taken: seq<string>, clock: seq<int>, i: nat)
    requires |clock| == |taken| && i < |taken|
    ensures PumpEvents(exec, start, taken[..i + 1], clock[..i + 1]) ==
            PumpEvents(exec, start, taken[..i], clock[..i])
            + [Event(clock[i] - start, OUTPUT, if exec then taken[i] else NormalizeLF(taken[i]))]
  {
  }

  /** What an attach-mode pump records, all together, is the normal form of the whole stream
      exactly when no read split a CRLF; otherwise it is longer by one CR per split. */
  lemma {:induction false} PumpRecordsStream(start: int, taken: seq<string>, clock: seq<int>)
    requires |clock| == |taken|
    ensures Concat(OutputTexts(PumpEvents(false, start, taken, clock))) == PumpOutput(taken)
    ensures Concat(OutputTexts(PumpEvents(false, start, taken, clock))) == NormalizeLF(Concat(taken)) <==>
            Splits(taken) == 0
    ensures |PumpOutput(taken)| == |NormalizeLF(Concat(taken))| + Splits(taken)
  {
    PumpLaw(taken);
    var es := PumpEvents(false, start, taken, clock);
    OutputsOfOutputs(es);
    PumpTexts(taken);
    assert Texts(es) == seq(|taken|, i requires 0 <= i < |taken| => NormalizeLF(taken[i]));
  }

  lemma {:induction false} PumpTexts(taken: seq<string>)
    ensures Concat(seq(|taken|, i requires 0 <= i < |taken| => NormalizeLF(taken[i]))) == PumpOutput(taken)
  {
    if taken != [] {
      var n := |taken| - 1;
      PumpTexts(taken[..n]);
      var ts := seq(|taken|, i requires 0 <= i < |taken| => NormalizeLF(taken[i]));
      assert ts[..n] == seq(n, i requires 0 <= i < n => NormalizeLF(taken[..n][i]));
    }
  }
}
