/**
 bufio.Scanner splitting a text into lines, as loadCast and the log converters use it: a raw
 line of `max` bytes or more stops the scan, and one trailing CR is dropped from each line.
 */
module Scanner {
  import opened Json

  function Utf8Length(s: string): nat {
    if s == "" then 0
    else
      var c := s[0];
      (if c < '\U{0080}' then 1 else if c < '\U{0800}' then 2 else if c < '\U{10000}' then 3 else 4)
      + Utf8Length(s[1..])
  }

  /** Index of the first LF, or the length. */
  function LineEnd(t: string): (k: nat)
    ensures k <= |t| && (k < |t| ==> t[k] == '\n')
  {
    if t == "" || t[0] == '\n' then 0 else 1 + LineEnd(t[1..])
  }

  function DropCR(line: string): string {
    if line != "" && line[|line| - 1] == '\r' then line[..|line| - 1] else line
  }

  /** The text after the first line and its LF. */
  function AfterLine(t: string): (rest: string)
    ensures t != "" ==> |rest| < |t|
  {
    var k := LineEnd(t);
    if k < |t| then t[k + 1..] else ""
  }

  /** A text of LF-terminated lines. */
  function Lines(ls: seq<string>): string {
    if ls == [] then "" else Lines(ls[..|ls| - 1]) + ls[|ls| - 1] + "\n"
  }

  datatype Scanned = Scanned(lines: seq<string>, tooLong: bool)

  /** The lines bufio.Scanner delivers, and whether it gave up on a line that was too long. */
  function Scan(t: string, max: nat): Scanned
    decreases |t|
  {
    if t == "" then Scanned([], false)
    else
      var raw := t[..LineEnd(t)];
      if Utf8Length(raw) >= max then Scanned([], true)
      else
        var later := Scan(AfterLine(t), max);
        Scanned([DropCR(raw)] + later.lines, later.tooLong)
  }

  lemma {:induction false} LinesCons(l: string, ls: seq<string>)
    ensures Lines([l] + ls) == l + "\n" + Lines(ls)
  {
    if ls == [] {
      assert [l] + ls == [l] && [l][..0] == [];
    } else {
      var n := |ls| - 1;
      assert ([l] + ls)[..n + 1] == [l] + ls[..n];
      LinesCons(l, ls[..n]);
    }
  }

  lemma {:induction false} LineEndOf(l: string, t: string)
    requires Printable(l)
    ensures LineEnd(l + "\n" + t) == |l|
  {
    var w := l + "\n" + t;
    if l != "" {
      assert w[1..] == l[1..] + "\n" + t;
      LineEndOf(l[1..], t);
    }
  }

  lemma ScanCons(l: string, t: string, max: nat)
    requires Printable(l)
    ensures var s := Scan(t, max);
            Scan(l + "\n" + t, max) ==
            if Utf8Length(l) >= max then Scanned([], true) else Scanned([l] + s.lines, s.tooLong)
  {
    hide Utf8Length, LineEnd;
    var w := l + "\n" + t;
    LineEndOf(l, t);
    assert w[..|l|] == l && w[|l| + 1..] == t && w != "";
    assert DropCR(l) == l;
  }

  /** How many lines the scanner delivers before one that is too long. */
  function ShortPrefix(ls: seq<string>, max: nat): (k: nat)
    ensures k <= |ls|
  {
    if ls == [] || Utf8Length(ls[0]) >= max then 0 else 1 + ShortPrefix(ls[1..], max)
  }

  lemma {:induction false} ScanLines(ls: seq<string>, max: nat)
    requires forall l :: l in ls ==> Printable(l)
    ensures Scan(Lines(ls), max) == Scanned(ls[..ShortPrefix(ls, max)], ShortPrefix(ls, max) < |ls|)
  {
    hide Utf8Length, Scan;
    if ls == [] {
      assert Scan("", max) == Scanned([], false) by { NothingToScan(max); }
    } else {
      var l, more := ls[0], ls[1..];
      assert l in ls && forall x :: x in more ==> x in ls;
      ScanLines(more, max);
      assert ls == [l] + more;
      LinesCons(l, more);
      ScanCons(l, Lines(more), max);
      if Utf8Length(l) < max {
        assert ls[..ShortPrefix(ls, max)] == [l] + more[..ShortPrefix(more, max)];
      }
    }
  }

  /** One turn of a scanning loop. */
  lemma ScanStep(t: string, max: nat)
    requires t != "" && Utf8Length(t[..LineEnd(t)]) < max
    ensures var later := Scan(AfterLine(t), max);
            Scan(t, max) == Scanned([DropCR(t[..LineEnd(t)])] + later.lines, later.tooLong)
  {
  }

  lemma ScanStops(t: string, max: nat)
    requires t != "" && Utf8Length(t[..LineEnd(t)]) >= max
    ensures Scan(t, max) == Scanned([], true)
  {
  }

  lemma NothingToScan(max: nat)
    ensures Scan("", max) == Scanned([], false)
  {
  }

  lemma {:induction false} AllShort(ls: seq<string>, max: nat)
    ensures ShortPrefix(ls, max) == |ls| <==> forall l :: l in ls ==> Utf8Length(l) < max
  {
    hide Utf8Length;
    if ls != [] {
      var more := ls[1..];
      AllShort(more, max);
      assert ls[0] in ls;
      assert forall l :: l in ls <==> l == ls[0] || l in more;
    }
  }

  /** A file with CRLF line ends reads like one with LF. */
  lemma ScanCRLF(l: string, t: string, max: nat)
    requires Printable(l) && Utf8Length(l) + 1 < max
    ensures Scan(l + "\r\n" + t, max) == Scan(l + "\n" + t, max)
  {
    ScanCons(l, t, max);
    LineEndAfter(l, "\r", t);
    Utf8Append(l, "\r");
    OneMore();
    CrlfRegroups(l, t);
    hide Utf8Length, LineEnd, Scan, Printable;
    var raw := l + "\r";
    assert raw[..|l|] == l && DropCR(raw) == l;
    ScanRaw(raw, t, max);
  }

  lemma CrlfRegroups(l: string, t: string)
    ensures l + "\r" + "\n" + t == l + "\r\n" + t
  {
    assert l + ("\r" + "\n") == l + "\r" + "\n";
  }

  lemma OneMore()
    ensures Utf8Length("\r") == 1
  {
    assert "\r"[1..] == "";
  }

  lemma ScanRaw(raw: string, t: string, max: nat)
    requires LineEnd(raw + "\n" + t) == |raw| && Utf8Length(raw) < max
    ensures var s := Scan(t, max); Scan(raw + "\n" + t, max) == Scanned([DropCR(raw)] + s.lines, s.tooLong)
  {
    hide Utf8Length, LineEnd, DropCR;
    var w := raw + "\n" + t;
    assert w[..|raw|] == raw && w[|raw| + 1..] == t && w != "";
    assert AfterLine(w) == t;
    ScanStep(w, max);
  }

  lemma {:induction false} LineEndAfter(l: string, r: string, t: string)
    requires '\n' !in l && '\n' !in r
    ensures LineEnd(l + r + "\n" + t) == |l| + |r|
    decreases |l| + |r|
  {
    var w := l + r + "\n" + t;
    if l != "" {
      assert w[1..] == l[1..] + r + "\n" + t && w[0] == l[0];
      LineEndAfter(l[1..], r, t);
    } else if r != "" {
      assert w[1..] == l + r[1..] + "\n" + t && w[0] == r[0];
      LineEndAfter(l, r[1..], t);
    }
  }

  lemma {:induction false} Utf8Append(a: string, b: string)
    ensures Utf8Length(a + b) == Utf8Length(a) + Utf8Length(b)
  {
    if a == "" {
      assert a + b == b;
    } else {
      assert (a + b)[1..] == a[1..] + b && (a + b)[0] == a[0];
      Utf8Append(a[1..], b);
    }
  }

  /** A last line without an LF is delivered too. */
  lemma ScanLast(l: string, max: nat)
    requires Printable(l) && l != "" && Utf8Length(l) < max
    ensures Scan(l, max) == Scanned([l], false)
  {
    NoLineEnd(l);
    hide Utf8Length, LineEnd;
    assert l[..|l|] == l && DropCR(l) == l;
  }

  lemma {:induction false} NoLineEnd(l: string)
    requires '\n' !in l
    ensures LineEnd(l) == |l|
  {
    if l != "" {
      assert l[0] in l && forall c :: c in l[1..] ==> c in l;
      NoLineEnd(l[1..]);
    }
  }

  // ---- What is counted -------------------------------------------------------------

  /** UTF-8 (section 3 of RFC 3629) of one code point. */
  function Encode(n: nat): (bytes: seq<int>)
    requires n < 0x110000
    ensures forall i :: 0 <= i < |bytes| ==> 0 <= bytes[i] < 256
  {
    if n < 0x80 then [n]
    else if n < 0x800 then [0xC0 + n / 64, 0x80 + n % 64]
    else if n < 0x10000 then [0xE0 + n / 4096, 0x80 + n / 64 % 64, 0x80 + n % 64]
    else [0xF0 + n / 262144, 0x80 + n / 4096 % 64, 0x80 + n / 64 % 64, 0x80 + n % 64]
  }

  /** The lead byte says how many bytes follow; each gives six bits. */
  function Decode(bytes: seq<int>): int {
    if |bytes| == 1 && bytes[0] < 0x80 then bytes[0]
    else if |bytes| == 2 && 0xC0 <= bytes[0] < 0xE0 then (bytes[0] - 0xC0) * 64 + (bytes[1] - 0x80)
    else if |bytes| == 3 && 0xE0 <= bytes[0] < 0xF0 then
      (bytes[0] - 0xE0) * 4096 + (bytes[1] - 0x80) * 64 + (bytes[2] - 0x80)
    else if |bytes| == 4 && 0xF0 <= bytes[0] < 0xF8 then
      (bytes[0] - 0xF0) * 262144 + (bytes[1] - 0x80) * 4096 + (bytes[2] - 0x80) * 64 + (bytes[3] - 0x80)
    else -1
  }

  lemma EncodeDecodes(n: nat)
    requires n < 0x110000
    ensures Decode(Encode(n)) == n
  {
    var a := n / 64;
    var b := a / 64;
    assert n / 4096 == b && n / 262144 == b / 64;
  }

  function EncodeAll(s: string): seq<int> {
    if s == "" then [] else Encode(s[0] as nat) + EncodeAll(s[1..])
  }

  /** The length of a line is that of its UTF-8 bytes. */
  lemma {:induction false} LengthCountsBytes(s: string)
    ensures Utf8Length(s) == |EncodeAll(s)|
  {
    if s != "" {
      LengthCountsBytes(s[1..]);
    }
  }
}
