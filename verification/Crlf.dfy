/**
 The LF-to-CRLF normaliser and its behaviour on a stream cut into chunks
 (internal/api/ws.go, cmd/cternal/logscast.go, internal/session/session.go).

 A Go byte string and a Unicode text are both a `string` here: the normaliser only
 compares elements with CR and LF, so a law about every `string` covers both readings.
 */
module Crlf {
  import opened Events

  const CR := '\r'
  const LF := '\n'
  const CRLF := "\r\n"

  /** bytes.ReplaceAll for a non-empty pattern: leftmost matches, not overlapping. */
  function ReplaceAll(s: string, pat: string, rep: string): string
    requires pat != ""
    decreases |s|
  {
    if |s| < |pat| then s
    else if s[..|pat|] == pat then rep + ReplaceAll(s[|pat|..], pat, rep)
    else [s[0]] + ReplaceAll(s[1..], pat, rep)
  }

  /** normalizeLF: fold CRLF into LF, then unfold every LF. */
  function NormalizeLF(data: string): string {
    ReplaceAll(ReplaceAll(data, CRLF, "\n"), "\n", CRLF)
  }

  predicate EndsInCR(s: string) {
    s != "" && s[|s| - 1] == CR
  }

  predicate StartsWithLF(s: string) {
    s != "" && s[0] == LF
  }

  /** A chunk boundary that falls between a CR and its LF. */
  predicate SplitsCRLF(a: string, b: string) {
    EndsInCR(a) && StartsWithLF(b)
  }

  /** The reference: one left-to-right pass that puts a CR before each LF not preceded by one. */
  function OnePass(afterCR: bool, s: string): string
    decreases |s|
  {
    if s == "" then "" else Emit(afterCR, s[0]) + OnePass(s[0] == CR, s[1..])
  }

  function Emit(afterCR: bool, c: char): string {
    if c == LF && !afterCR then CRLF else [c]
  }

  function BareLFs(afterCR: bool, s: string): nat
    decreases |s|
  {
    if s == "" then 0
    else (if s[0] == LF && !afterCR then 1 else 0) + BareLFs(s[0] == CR, s[1..])
  }

  predicate FollowsCR(afterCR: bool, s: string, i: nat)
    requires i < |s|
  {
    if i == 0 then afterCR else s[i - 1] == CR
  }

  ghost predicate EveryLFAfterCR(afterCR: bool, s: string) {
    forall i :: 0 <= i < |s| && s[i] == LF ==> FollowsCR(afterCR, s, i)
  }

  // ---- The two passes --------------------------------------------------------------

  /** Folding undoes unfolding on every string. */
  lemma {:induction false} FoldUndoesUnfold(t: string)
    ensures ReplaceAll(ReplaceAll(t, "\n", CRLF), CRLF, "\n") == t
    decreases |t|
  {
    if t != "" {
      var u := ReplaceAll(t[1..], "\n", CRLF);
      FoldUndoesUnfold(t[1..]);
      if t[0] == LF {
        assert t[..1] == "\n";
        var v := CRLF + u;
        assert v[..2] == CRLF && v[2..] == u;
      } else {
        assert t[..1] != "\n" by { assert t[..1][0] == t[0]; }
        UnfoldedStart(t[1..]);
        var v := [t[0]] + u;
        assert v[1..] == u;
        assert |v| >= 2 ==> v[..2] != CRLF by { assert |v| >= 2 ==> v[..2][1] == u[0]; }
      }
    }
  }

  lemma UnfoldedStart(t: string)
    ensures !StartsWithLF(ReplaceAll(t, "\n", CRLF))
  {
    if t != "" {
      assert t[..1][0] == t[0];
    }
  }

  lemma NormalizeIdempotent(s: string)
    ensures NormalizeLF(NormalizeLF(s)) == NormalizeLF(s)
  {
    FoldUndoesUnfold(ReplaceAll(s, CRLF, "\n"));
  }

  /** The two library passes compute the one-pass reference. */
  lemma {:induction false} NormalizeIsOnePass(s: string)
    ensures NormalizeLF(s) == OnePass(false, s)
    decreases |s|
  {
    if |s| >= 2 && s[..2] == CRLF {
      var t := ReplaceAll(s[2..], CRLF, "\n");
      assert ("\n" + t)[..1] == "\n" && ("\n" + t)[1..] == t;
      NormalizeIsOnePass(s[2..]);
      assert s[0] == CR && s[1] == LF by { assert s[..2][0] == CR && s[..2][1] == LF; }
      assert s[1..][1..] == s[2..];
    } else if s != "" {
      var t := ReplaceAll(s[1..], CRLF, "\n");
      assert ReplaceAll(s, CRLF, "\n") == [s[0]] + t by {
        if |s| == 1 { assert s == [s[0]]; }
      }
      assert ([s[0]] + t)[1..] == t && ([s[0]] + t)[..1] == [s[0]];
      NormalizeIsOnePass(s[1..]);
      if s[0] == CR && |s| >= 2 {
        assert s[..2] == [s[0], s[1]];
        OnePassStart(s[1..]);
      }
    }
  }

  lemma OnePassStart(s: string)
    ensures StartsWithLF(s) ==> OnePass(false, s) == [CR] + OnePass(true, s)
    ensures !StartsWithLF(s) ==> OnePass(false, s) == OnePass(true, s)
  {
  }

  lemma {:induction false} OnePassLength(afterCR: bool, s: string)
    ensures |OnePass(afterCR, s)| == |s| + BareLFs(afterCR, s)
    ensures BareLFs(afterCR, s) == 0 ==> OnePass(afterCR, s) == s
    ensures BareLFs(afterCR, s) == 0 <==> EveryLFAfterCR(afterCR, s)
    decreases |s|
  {
    if s != "" {
      var t := s[1..];
      OnePassLength(s[0] == CR, t);
      forall i | 0 <= i < |t|
        ensures t[i] == s[i + 1] && FollowsCR(s[0] == CR, t, i) == FollowsCR(afterCR, s, i + 1)
      {
        assert i > 0 ==> t[i - 1] == s[i];
      }
      if s[0] == LF && !afterCR {
        assert !FollowsCR(afterCR, s, 0);
      } else if !EveryLFAfterCR(s[0] == CR, t) {
        var j :| 0 <= j < |t| && t[j] == LF && !FollowsCR(s[0] == CR, t, j);
        assert !FollowsCR(afterCR, s, j + 1);
      } else {
        forall i | 0 <= i < |s| && s[i] == LF ensures FollowsCR(afterCR, s, i) {
          if i > 0 { assert t[i - 1] == LF; }
        }
      }
    }
  }

  /** The fixed points are exactly the strings whose every LF follows a CR. */
  lemma FixedPoints(s: string)
    ensures NormalizeLF(s) == s <==> EveryLFAfterCR(false, s)
  {
    NormalizeIsOnePass(s);
    OnePassLength(false, s);
  }

  // ---- Chunks ----------------------------------------------------------------------

  lemma {:induction false} OnePassAppend(afterCR: bool, a: string, b: string)
    ensures OnePass(afterCR, a + b) == OnePass(afterCR, a) + OnePass(if a == "" then afterCR else EndsInCR(a), b)
    decreases |a|
  {
    if a == "" {
      assert a + b == b;
    } else {
      OnePassAppend(a[0] == CR, a[1..], b);
      OnePassPrepend(afterCR, a[0], a[1..], b, OnePass(EndsInCR(a), b));
      assert a == [a[0]] + a[1..];
    }
  }

  lemma OnePassPrepend(afterCR: bool, c: char, t: string, b: string, y: string)
    requires OnePass(c == CR, t + b) == OnePass(c == CR, t) + y
    ensures OnePass(afterCR, [c] + t + b) == OnePass(afterCR, [c] + t) + y
  {
    hide OnePass;
    assert [c] + t + b == [c] + (t + b);
    OnePassStep(afterCR, c, t + b);
    OnePassStep(afterCR, c, t);
    Associate(Emit(afterCR, c), OnePass(c == CR, t), y);
  }

  lemma Associate(x: string, y: string, z: string)
    ensures x + (y + z) == (x + y) + z
  {
  }

  lemma OnePassStep(afterCR: bool, c: char, t: string)
    ensures OnePass(afterCR, [c] + t) == Emit(afterCR, c) + OnePass(c == CR, t)
  {
    assert ([c] + t)[1..] == t;
  }

  /** Normalising two chunks apart differs from normalising them joined by exactly one CR,
      and only when the boundary splits a CRLF. */
  lemma ChunkLaw(a: string, b: string) returns (rest: string)
    ensures NormalizeLF(a + b) == NormalizeLF(a) + rest
    ensures NormalizeLF(b) == (if SplitsCRLF(a, b) then [CR] else "") + rest
    ensures NormalizeLF(a + b) == NormalizeLF(a) + NormalizeLF(b) <==> !SplitsCRLF(a, b)
  {
    rest := OnePass(EndsInCR(a), b);
    NormalizeIsOnePass(a);
    NormalizeIsOnePass(b);
    NormalizeIsOnePass(a + b);
    OnePassAppend(false, a, b);
    OnePassStart(b);
  }

  /** What the pump emits: each chunk normalised on its own. */
  function PumpOutput(chunks: seq<string>): string {
    if chunks == [] then ""
    else PumpOutput(chunks[..|chunks| - 1]) + NormalizeLF(chunks[|chunks| - 1])
  }

  function Splits(chunks: seq<string>): nat {
    if chunks == [] then 0
    else
      var init := chunks[..|chunks| - 1];
      Splits(init) + if SplitsCRLF(Concat(init), chunks[|chunks| - 1]) then 1 else 0
  }

  /** The stream with one more CR at each boundary that splits a CRLF. */
  function Doubled(chunks: seq<string>): string {
    if chunks == [] then ""
    else
      var init := chunks[..|chunks| - 1];
      Doubled(init) + (if SplitsCRLF(Concat(init), chunks[|chunks| - 1]) then [CR] else "") + chunks[|chunks| - 1]
  }

  lemma {:induction false} DoubledShape(chunks: seq<string>)
    ensures |Doubled(chunks)| == |Concat(chunks)| + Splits(chunks)
    ensures EndsInCR(Doubled(chunks)) == EndsInCR(Concat(chunks))
    ensures Splits(chunks) == 0 ==> Doubled(chunks) == Concat(chunks)
  {
    if chunks != [] {
      DoubledShape(chunks[..|chunks| - 1]);
    }
  }

  /** Normalising one more chunk apart keeps the output the normal form of the doubled stream. */
  lemma PumpStep(init: seq<string>, last: string)
    requires PumpOutput(init) == NormalizeLF(Doubled(init))
    ensures PumpOutput(init) + NormalizeLF(last) == NormalizeLF(Doubled(init + [last]))
  {
    hide NormalizeLF, PumpOutput, Splits, Concat;
    DoubledShape(init);
    assert (init + [last])[..|init|] == init;
    var d := Doubled(init);
    if SplitsCRLF(Concat(init), last) {
      var one := ChunkLaw(d, [CR]);
      var two := ChunkLaw(d + [CR], last);
      FixedPoints([CR]);
    } else {
      var one := ChunkLaw(d, last);
      assert d + "" == d;
    }
  }

  /** The pump's output is the normal form of the whole stream with one CR doubled per split
      CRLF, hence longer than the normal form of the stream by exactly that many CRs. */
  lemma {:induction false} PumpLaw(chunks: seq<string>)
    ensures PumpOutput(chunks) == NormalizeLF(Doubled(chunks))
    ensures |PumpOutput(chunks)| == |NormalizeLF(Concat(chunks))| + Splits(chunks)
    ensures PumpOutput(chunks) == NormalizeLF(Concat(chunks)) <==> Splits(chunks) == 0
  {
    if chunks != [] {
      var init, last := chunks[..|chunks| - 1], chunks[|chunks| - 1];
      PumpLaw(init);
      PumpStep(init, last);
      assert init + [last] == chunks;
      DoubledShape(chunks);
      var whole := ChunkLaw(Concat(init), last);
    }
  }

  /** A scanned log line, given its LF back and normalised, loses one trailing CR and ends in
      the only LF of the result. */
  lemma LineData(display: string)
    requires LF !in display
    ensures NormalizeLF(display + "\n") == (if EndsInCR(display) then display[..|display| - 1] else display) + CRLF
  {
    var rest := ChunkLaw(display, "\n");
    FixedPoints(display);
    NormalizeIsOnePass("\n");
    NormalizeIsOnePass(CRLF);
    if EndsInCR(display) {
      var d := display[..|display| - 1];
      assert display + "\n" == d + CRLF;
      var tail := ChunkLaw(d, CRLF);
      FixedPoints(d);
      assert OnePass(false, CRLF) == CRLF;
    }
  }

  /** A stream "a CR LF b" read in two chunks, the first ending in the CR, shows one CR too many. */
  lemma SplitWitness()
    ensures PumpOutput(["a\r", "\nb"]) == "a\r\r\nb"
    ensures NormalizeLF(Concat(["a\r", "\nb"])) == "a\r\nb"
  {
    var chunks := ["a\r", "\nb"];
    assert chunks[..1] == ["a\r"] && chunks[..1][..0] == [];
    FixedPoints("a\r");
    FixedPoints("a\r\nb");
    NormalizeIsOnePass("\nb");
    assert "\nb"[1..] == "b" && "b"[1..] == "";
    assert OnePass(false, "\nb") == CRLF + OnePass(false, "b");
    assert "" + "a\r" + "\nb" == "a\r\nb" && "a\r" + "\r\nb" == "a\r\r\nb";
  }
}
