/** Recorded terminal events (internal/recorder/event.go). */
module Events {

  const OUTPUT := "o"
  const INPUT := "i"
  const RESIZE := "r"

  /** `time` is a duration in nanoseconds since the recording started. */
  datatype Event = Event(time: int, typ: string, data: string)

  /** The output events, in order: the filter every consumer of a recording applies. */
  function Outputs(es: seq<Event>): (os: seq<Event>)
    ensures |os| <= |es|
  {
    if es == [] then []
    else
      var last := es[|es| - 1];
      Outputs(es[..|es| - 1]) + if last.typ == OUTPUT then [last] else []
  }

  /** They are among the events, and outputs all. */
  lemma {:induction false} OutputsAre(es: seq<Event>)
    ensures forall o :: o in Outputs(es) ==> o in es && o.typ == OUTPUT
  {
    if es != [] {
      OutputsAre(es[..|es| - 1]);
    }
  }

  function Times(es: seq<Event>): (ts: seq<int>) {
    seq(|es|, i requires 0 <= i < |es| => es[i].time)
  }

  function Texts(es: seq<Event>): (ts: seq<string>) {
    seq(|es|, i requires 0 <= i < |es| => es[i].data)
  }

  function Concat(ts: seq<string>): string {
    if ts == [] then "" else Concat(ts[..|ts| - 1]) + ts[|ts| - 1]
  }

  /** The texts of the output events: what a terminal that sees the whole recording shows. */
  function OutputTexts(es: seq<Event>): seq<string> {
    Texts(Outputs(es))
  }

  ghost predicate NonDecreasing(ts: seq<int>) {
    forall i, j :: 0 <= i <= j < |ts| ==> ts[i] <= ts[j]
  }

  lemma {:induction false} OutputsAppend(a: seq<Event>, b: seq<Event>)
    ensures Outputs(a + b) == Outputs(a) + Outputs(b)
  {
    if b == [] {
      assert a + b == a;
    } else {
      var init := b[..|b| - 1];
      assert (a + b)[..|a + b| - 1] == a + init;
      OutputsAppend(a, init);
    }
  }

  lemma TextsAppend(a: seq<Event>, b: seq<Event>)
    ensures Texts(a + b) == Texts(a) + Texts(b)
  {
  }

  lemma OutputTextsSnoc(es: seq<Event>, e: Event)
    ensures OutputTexts(es + [e]) == if e.typ == OUTPUT then OutputTexts(es) + [e.data] else OutputTexts(es)
  {
    assert (es + [e])[..|es|] == es;
  }

  lemma {:induction false} OutputsOfOutputs(es: seq<Event>)
    requires forall e :: e in es ==> e.typ == OUTPUT
    ensures Outputs(es) == es
  {
    if es != [] {
      OutputsOfOutputs(es[..|es| - 1]);
    }
  }

  lemma {:induction false} ConcatAppend(a: seq<string>, b: seq<string>)
    ensures Concat(a + b) == Concat(a) + Concat(b)
  {
    if b == [] {
      assert a + b == a;
    } else {
      var init, last := b[..|b| - 1], b[|b| - 1];
      assert (a + b)[..|a + b| - 1] == a + init;
      ConcatAppend(a, init);
      assert Concat(a) + (Concat(init) + last) == (Concat(a) + Concat(init)) + last;
    }
  }

  lemma NoText()
    ensures OutputTexts([]) == [] && Concat([]) == ""
  {
  }

  lemma Advance(es: seq<Event>, i: nat)
    requires i < |es|
    ensures Concat(OutputTexts(es[..i + 1])) ==
            if es[i].typ == OUTPUT then Concat(OutputTexts(es[..i])) + es[i].data else Concat(OutputTexts(es[..i]))
  {
    var before := es[..i];
    assert es[..i + 1] == before + [es[i]];
    OutputTextsSnoc(before, es[i]);
    if es[i].typ == OUTPUT {
      var ts := OutputTexts(before);
      assert (ts + [es[i].data])[..|ts|] == ts;
    }
  }
}
