/**
 Seconds as JSON numbers (section 6 of RFC 8259): the text encoding/json gives a number of
 nanoseconds divided by 10^9, and a reader for every JSON number. A number is its digits and a
 power of ten, so seconds are exact rationals here, never rounded floats.
 */
module Decimal {
  import opened Json

  /** (-1 if negative) * mantissa * 10^exp */
  datatype Number = Number(negative: bool, mantissa: nat, exp: int)

  /** m * 10^k, the digits below the point dropped. */
  function Shift(m: nat, k: int): nat
    decreases if k < 0 then -k else k
  {
    if k == 0 then m else if k > 0 then Shift(10 * m, k - 1) else Shift(m / 10, k + 1)
  }

  /** time.Duration(x * 1e9): truncated toward zero. */
  function Nanos(n: Number): int {
    Signed(n.negative, Shift(n.mantissa, n.exp + 9))
  }

  function Signed(negative: bool, m: int): int {
    if negative then -m else m
  }

  predicate IsDigit(c: char) {
    '0' <= c <= '9'
  }

  predicate AllDigits(ds: string) {
    forall i :: 0 <= i < |ds| ==> IsDigit(ds[i])
  }

  function Value(ds: string): nat {
    if ds == "" then 0
    else 10 * Value(ds[..|ds| - 1]) + DigitValue(ds[|ds| - 1])
  }

  function DigitValue(c: char): nat {
    if IsDigit(c) then (c - '0') as nat else 0
  }

  // ---- Printing --------------------------------------------------------------------

  function Digit(n: nat): char
    requires n < 10
  {
    '0' + n as char
  }

  function Digits(n: nat): (ds: string)
    ensures ds != ""
  {
    if n < 10 then [Digit(n)] else Digits(n / 10) + [Digit(n % 10)]
  }

  /** The last `k` digits of `n`, zero-padded. */
  function Fixed(n: nat, k: nat): (ds: string)
    ensures |ds| == k
  {
    if k == 0 then "" else Fixed(n / 10, k - 1) + [Digit(n % 10)]
  }

  function TrimZeros(ds: string): (t: string)
    ensures t <= ds && (t == "" || t[|t| - 1] != '0')
  {
    if ds != "" && ds[|ds| - 1] == '0' then TrimZeros(ds[..|ds| - 1]) else ds
  }

  function Fraction(f: string): string {
    if f == "" then "" else "." + f
  }

  /** Digits of one number with the point after the first. */
  function Pointed(ds: string): string {
    if |ds| <= 1 then ds else ds[..1] + Fraction(ds[1..])
  }

  /** Decimal places of the leading digit of 0 < a < 1000 nanoseconds, in seconds. */
  function Order(a: nat): (k: nat)
    ensures 7 <= k <= 9
  {
    if a < 10 then 9 else if a < 100 then 8 else 7
  }

  /** Plain decimal notation, or exponent notation below a microsecond; shortest digits. */
  function Magnitude(a: nat): string {
    if 0 < a < 1000 then Pointed(TrimZeros(Digits(a))) + ['e', '-', Digit(Order(a))]
    else Digits(a / 1_000_000_000) + Fraction(TrimZeros(Fixed(a % 1_000_000_000, 9)))
  }

  function Seconds(ns: int): string {
    if ns < 0 then "-" + Magnitude(-ns) else Magnitude(ns)
  }

  // ---- Parsing ---------------------------------------------------------------------

  /** Length of the longest digit prefix. */
  function Run(t: string): (k: nat)
    ensures k <= |t|
  {
    if t == "" || !IsDigit(t[0]) then 0 else 1 + Run(t[1..])
  }

  /** An optional fraction: its digits. */
  function ReadFraction(t: string): (p: Parsed<string>)
    ensures p.Parsed? ==> |p.rest| <= |t|
  {
    if t == "" || t[0] != '.' then Parsed("", t)
    else
      var k := Run(t[1..]);
      if k == 0 then Bad else Parsed(t[1..1 + k], t[1 + k..])
  }

  /** An optional exponent. */
  function ReadExponent(t: string): (p: Parsed<int>)
    ensures p.Parsed? ==> |p.rest| <= |t|
  {
    if t == "" || (t[0] != 'e' && t[0] != 'E') then Parsed(0, t)
    else
      var signed := |t| > 1 && (t[1] == '-' || t[1] == '+');
      var u := if signed then t[2..] else t[1..];
      var k := Run(u);
      if k == 0 then Bad
      else Parsed(Signed(signed && t[1] == '-', Value(u[..k])), u[k..])
  }

  /** Length of an integer part: a zero stands alone. */
  function IntegerLength(u: string): (k: nat)
    ensures k <= |u|
  {
    if u != "" && u[0] == '0' then 1 else Run(u)
  }

  function ReadUnsigned(negative: bool, u: string): (p: Parsed<Number>)
    ensures p.Parsed? ==> |p.rest| < |u|
  {
    var k := IntegerLength(u);
    if k == 0 then Bad
    else match ReadFraction(u[k..])
      case Bad => Bad
      case Parsed(f, v) =>
        match ReadExponent(v)
        case Bad => Bad
        case Parsed(e, rest) => Parsed(Number(negative, Value(u[..k] + f), e - |f|), rest)
  }

  function ReadNumber(t: string): (p: Parsed<Number>)
    ensures p.Parsed? ==> |p.rest| < |t|
  {
    if t != "" && t[0] == '-' then ReadUnsigned(true, t[1..]) else ReadUnsigned(false, t)
  }

  // ---- Round trip ------------------------------------------------------------------

  lemma {:induction false} ShiftTen(m: nat, k: nat)
    ensures Shift(m, k + 1) == 10 * Shift(m, k)
    decreases k
  {
    if k > 0 {
      ShiftTen(10 * m, k - 1);
    }
  }

  lemma {:induction false} ShiftTwice(m: nat, j: nat, k: nat)
    ensures Shift(Shift(m, j), k) == Shift(m, j + k)
    decreases j
  {
    if j > 0 {
      ShiftTwice(10 * m, j - 1, k);
    }
  }

  lemma {:induction false} ShiftSum(x: nat, y: nat, k: nat)
    ensures Shift(x + y, k) == Shift(x, k) + Shift(y, k)
    decreases k
  {
    if k > 0 {
      ShiftSum(10 * x, 10 * y, k - 1);
    }
  }

  lemma ShiftNine(m: nat)
    ensures Shift(m, 9) == 1_000_000_000 * m
  {
    ShiftThree(m);
    ShiftThree(1000 * m);
    ShiftThree(1_000_000 * m);
    ShiftTwice(m, 3, 3);
    ShiftTwice(m, 6, 3);
  }

  lemma ShiftThree(m: nat)
    ensures Shift(m, 3) == 1000 * m
  {
    ShiftTen(m, 0);
    ShiftTen(m, 1);
    ShiftTen(m, 2);
  }

  lemma {:induction false} ValueAppend(a: string, b: string)
    ensures Value(a + b) == Shift(Value(a), |b|) + Value(b)
  {
    if b == "" {
      assert a + b == a;
    } else {
      var n := |b| - 1;
      var w := a + b;
      assert w[..|w| - 1] == a + b[..n] && w[|w| - 1] == b[n];
      ValueAppend(a, b[..n]);
      ShiftTen(Value(a), n);
    }
  }

  lemma {:induction false} DigitsValue(n: nat)
    ensures AllDigits(Digits(n)) && Value(Digits(n)) == n
    ensures n > 0 ==> Digits(n)[0] != '0'
  {
    if n >= 10 {
      DigitsValue(n / 10);
      assert Digits(n)[..|Digits(n)| - 1] == Digits(n / 10);
    } else {
      assert [Digit(n)][..0] == "";
    }
  }

  lemma {:induction false} FixedValue(n: nat, k: nat)
    requires n < Shift(1, k)
    ensures AllDigits(Fixed(n, k)) && Value(Fixed(n, k)) == n
  {
    if k > 0 {
      ShiftTen(1, k - 1);
      FixedValue(n / 10, k - 1);
      assert Fixed(n, k)[..k - 1] == Fixed(n / 10, k - 1);
    }
  }

  lemma {:induction false} TrimValue(ds: string)
    requires AllDigits(ds)
    ensures AllDigits(TrimZeros(ds)) && Value(ds) == Shift(Value(TrimZeros(ds)), |ds| - |TrimZeros(ds)|)
    ensures Value(ds) > 0 ==> TrimZeros(ds) != ""
  {
    if ds != "" && ds[|ds| - 1] == '0' {
      var init := ds[..|ds| - 1];
      TrimValue(init);
      var k := |init| - |TrimZeros(init)|;
      ShiftTen(Value(TrimZeros(init)), k);
    }
  }

  lemma {:induction false} RunOf(ds: string, t: string)
    requires AllDigits(ds) && (t == "" || !IsDigit(t[0]))
    ensures Run(ds + t) == |ds|
  {
    if ds == "" {
      assert ds + t == t;
    } else {
      assert (ds + t)[1..] == ds[1..] + t;
      RunOf(ds[1..], t);
    }
  }

  predicate EndsNumber(t: string) {
    t != "" && !IsDigit(t[0]) && t[0] != '.' && t[0] != 'e' && t[0] != 'E'
  }

  lemma FractionRoundTrip(f: string, t: string)
    requires AllDigits(f) && t != "" && !IsDigit(t[0]) && t[0] != '.'
    ensures ReadFraction(Fraction(f) + t) == Parsed(f, t)
  {
    if f == "" {
      assert Fraction(f) + t == t;
    } else {
      var w := Fraction(f) + t;
      assert w[1..] == f + t;
      RunOf(f, t);
      assert w[1..1 + |f|] == f && w[1 + |f|..] == t;
    }
  }

  predicate IsInteger(i: string) {
    AllDigits(i) && i != "" && (i[0] == '0' ==> |i| == 1)
  }

  lemma IntegerLengthOf(i: string, v: string)
    requires IsInteger(i) && v != "" && !IsDigit(v[0])
    ensures IntegerLength(i + v) == |i|
  {
    RunOf(i, v);
  }

  lemma Cut(a: string, b: string)
    ensures (a + b)[..|a|] == a && (a + b)[|a|..] == b
  {
  }

  /** Reading an integer part, a fraction and an exponent that were printed side by side. */
  lemma UnsignedRoundTrip(negative: bool, i: string, f: string, y: string, e: int, t: string)
    requires IsInteger(i) && AllDigits(f)
    requires y != "" && !IsDigit(y[0]) && y[0] != '.' && ReadExponent(y) == Parsed(e, t)
    ensures ReadUnsigned(negative, i + (Fraction(f) + y)) == Parsed(Number(negative, Value(i + f), e - |f|), t)
  {
    hide ReadUnsigned, ReadFraction, ReadExponent, Value;
    var v := Fraction(f) + y;
    FractionRoundTrip(f, y);
    FractionStart(f, y);
    IntegerLengthOf(i, v);
    Cut(i, v);
    ReadInParts(negative, i + v, |i|, f, y, e, t);
  }

  lemma ReadInParts(negative: bool, u: string, k: nat, f: string, v: string, e: int, t: string)
    requires 0 < k == IntegerLength(u) <= |u|
    requires ReadFraction(u[k..]) == Parsed(f, v) && ReadExponent(v) == Parsed(e, t)
    ensures ReadUnsigned(negative, u) == Parsed(Number(negative, Value(u[..k] + f), e - |f|), t)
  {
    hide IntegerLength, ReadFraction, ReadExponent, Value;
  }

  lemma FractionStart(f: string, y: string)
    requires y != "" && !IsDigit(y[0])
    ensures Fraction(f) + y != "" && !IsDigit((Fraction(f) + y)[0])
  {
  }

  lemma SmallDigits(a: nat)
    requires 0 < a < 1000
    ensures |Digits(a)| == 10 - Order(a)
  {
    if a >= 10 { assert Digits(a) == Digits(a / 10) + [Digit(a % 10)]; }
    if a >= 100 { assert Digits(a / 10) == Digits(a / 10 / 10) + [Digit(a / 10 % 10)]; }
  }

  lemma ExponentRoundTrip(k: nat, t: string)
    requires k < 10 && (t == "" || !IsDigit(t[0]))
    ensures ReadExponent(['e', '-', Digit(k)] + t) == Parsed(0 - k as int, t)
  {
    var y, d := ['e', '-', Digit(k)] + t, [Digit(k)];
    assert y[2..] == d + t;
    RunOf(d, t);
    assert (d + t)[..1] == d && (d + t)[1..] == t;
    assert d[..0] == "" && Value(d) == k;
  }

  lemma SmallParts(a: nat) returns (i: string, f: string)
    requires 0 < a < 1000
    ensures Pointed(TrimZeros(Digits(a))) == i + Fraction(f)
    ensures IsInteger(i) && AllDigits(f) && |f| < 10 - Order(a)
    ensures Shift(Value(i + f), 9 - Order(a) - |f|) == a
  {
    var all := Digits(a);
    SmallDigits(a);
    DigitsValue(a);
    TrimValue(all);
    var ds := TrimZeros(all);
    assert ds[0] == all[0];
    i, f := ds[..1], ds[1..];
    assert i + f == ds;
  }

  lemma SmallRoundTrip(negative: bool, a: nat, t: string)
    requires 0 < a < 1000 && EndsNumber(t)
    ensures var p := ReadUnsigned(negative, Magnitude(a) + t);
            p.Parsed? && p.rest == t && Nanos(p.value) == Signed(negative, a)
  {
    hide Value, Digits, Run, ReadFraction, IntegerLength;
    var i, f := SmallParts(a);
    var x := ['e', '-', Digit(Order(a))];
    ExponentRoundTrip(Order(a), t);
    var y := x + t;
    Regroup(i, Fraction(f), x, t);
    UnsignedRoundTrip(negative, i, f, y, -(Order(a) as int), t);
    NanosAre(Number(negative, Value(i + f), -(Order(a) as int) - |f|), a);
  }

  /** The digits printed before and after the point, and what they are worth. */
  lemma PlainParts(a: nat) returns (i: string, f: string)
    requires a == 0 || a >= 1000
    ensures Magnitude(a) == i + Fraction(f) && |f| <= 9
    ensures IsInteger(i) && AllDigits(f)
    ensures Shift(Value(i + f), 9 - |f|) == a
  {
    hide Value, Fixed, TrimZeros;
    var q, r := a / 1_000_000_000, a % 1_000_000_000;
    i, f := Digits(q), TrimZeros(Fixed(r, 9));
    ShiftNine(1);
    DigitsValue(q);
    FixedValue(r, 9);
    TrimValue(Fixed(r, 9));
    PlainValue(q, r, i, f);
  }

  lemma PlainValue(q: nat, r: nat, i: string, f: string)
    requires Value(i) == q && |f| <= 9 && Shift(Value(f), 9 - |f|) == r
    ensures Shift(Value(i + f), 9 - |f|) == q * 1_000_000_000 + r
  {
    hide Value, Shift;
    ValueAppend(i, f);
    ShiftSplit(q, Value(f), |f|, 9 - |f|);
    ShiftNine(q);
  }

  lemma PlainRoundTrip(negative: bool, a: nat, t: string)
    requires (a == 0 || a >= 1000) && EndsNumber(t)
    ensures var p := ReadUnsigned(negative, Magnitude(a) + t);
            p.Parsed? && p.rest == t && Nanos(p.value) == Signed(negative, a)
  {
    hide Value, Digits, Run, Magnitude, ReadFraction, IntegerLength;
    var i, f := PlainParts(a);
    Associate(i, Fraction(f), t);
    UnsignedRoundTrip(negative, i, f, t, 0, t);
    NanosAre(Number(negative, Value(i + f), 0 - |f|), a);
  }

  lemma NanosAre(n: Number, a: nat)
    requires Shift(n.mantissa, n.exp + 9) == a
    ensures Nanos(n) == Signed(n.negative, a)
  {
  }

  lemma Regroup(a: string, b: string, c: string, d: string)
    ensures ((a + b) + c) + d == a + (b + (c + d))
  {
  }

  lemma Associate(a: string, b: string, c: string)
    ensures (a + b) + c == a + (b + c)
  {
  }

  lemma ShiftSplit(q: nat, v: nat, j: nat, k: nat)
    ensures Shift(Shift(q, j) + v, k) == Shift(q, j + k) + Shift(v, k)
  {
    ShiftSum(Shift(q, j), v, k);
    ShiftTwice(q, j, k);
  }

  /** Printing a duration in seconds and reading it back gives the same nanoseconds. */
  lemma SecondsRoundTrip(ns: int, t: string)
    requires EndsNumber(t)
    ensures var p := ReadNumber(Seconds(ns) + t); p.Parsed? && p.rest == t && Nanos(p.value) == ns
  {
    var a: nat := if ns < 0 then -ns else ns;
    var m := Magnitude(a);
    MagnitudeRoundTrip(ns < 0, a, t);
    if ns < 0 {
      Associate("-", m, t);
      Cut("-", m + t);
    } else {
      MagnitudeStart(a);
      assert (m + t)[0] == m[0];
    }
  }

  lemma MagnitudeRoundTrip(negative: bool, a: nat, t: string)
    requires EndsNumber(t)
    ensures var p := ReadUnsigned(negative, Magnitude(a) + t);
            p.Parsed? && p.rest == t && Nanos(p.value) == Signed(negative, a)
  {
    if 0 < a < 1000 {
      SmallRoundTrip(negative, a, t);
    } else {
      PlainRoundTrip(negative, a, t);
    }
  }

  lemma MagnitudeStart(a: nat)
    ensures Magnitude(a) != "" && Magnitude(a)[0] != '-'
  {
    DigitsValue(a);
    DigitsValue(a / 1_000_000_000);
    TrimValue(Digits(a));
  }

  /** A printed number holds no control character. */
  lemma SecondsHasNoControls(ns: int)
    ensures Printable(Seconds(ns))
  {
    var a: nat := if ns < 0 then -ns else ns;
    if 0 < a < 1000 {
      SmallIsPrintable(a);
    } else {
      var i, f := PlainParts(a);
      PartsArePrintable(i, f);
    }
    PrintableSigned(Magnitude(a));
  }

  lemma PartsArePrintable(i: string, f: string)
    requires AllDigits(i) && AllDigits(f)
    ensures Printable(i + Fraction(f))
  {
  }

  lemma PrintableSigned(m: string)
    requires Printable(m)
    ensures Printable("-" + m)
  {
  }

  lemma SmallIsPrintable(a: nat)
    requires 0 < a < 1000
    ensures Printable(Magnitude(a))
  {
    DigitsValue(a);
    assert Printable(Pointed(TrimZeros(Digits(a))));
  }

  // ---- Numbers written by others ---------------------------------------------------

  /** An exponent: either letter, either sign or none, then digits. */
  lemma ExponentReads(letter: char, sign: string, ds: string, t: string)
    requires (letter == 'e' || letter == 'E') && (sign == "" || sign == "+" || sign == "-")
    requires ds != "" && AllDigits(ds) && (t == "" || !IsDigit(t[0]))
    ensures ReadExponent([letter] + (sign + (ds + t))) == Parsed(Signed(sign == "-", Value(ds)), t)
  {
    hide Value, Run;
    var u := ds + t;
    var y := [letter] + (sign + u);
    RunOf(ds, t);
    Cut(ds, t);
    if sign == "" {
      assert y[1..] == u && y[1] == ds[0];
    } else {
      assert y[1] == sign[0] && y[2..] == u;
    }
  }

  /** With ExponentReads, every form of section 6 of RFC 8259: an integer, an optional fraction
      and an exponent. */
  lemma ExponentFollows(negative: bool, i: string, f: string, y: string, e: int, t: string)
    requires IsInteger(i) && AllDigits(f) && ReadExponent(y) == Parsed(e, t)
    requires y != "" && (y[0] == 'e' || y[0] == 'E')
    ensures ReadUnsigned(negative, i + (Fraction(f) + y)) == Parsed(Number(negative, Value(i + f), e - |f|), t)
  {
    UnsignedRoundTrip(negative, i, f, y, e, t);
    hide *;
  }

  /** A point or an exponent without digits is no number, and a leading zero stands alone. */
  lemma NumberRefused(t: string, letter: char, sign: string)
    requires (t == "" || !IsDigit(t[0])) && (letter == 'e' || letter == 'E')
    requires sign == "+" || sign == "-" || (sign == "" && (t == "" || (t[0] != '+' && t[0] != '-')))
    ensures ReadFraction("." + t) == Bad && ReadExponent([letter] + sign + t) == Bad
    ensures IntegerLength("0" + t) == 1 && forall d :: IsDigit(d) ==> IntegerLength(['0', d] + t) == 1
  {
    assert ("." + t)[1..] == t;
    var y := [letter] + sign + t;
    if sign == "" {
      assert y[1..] == t;
    } else {
      assert y[1] == sign[0] && y[2..] == t;
    }
  }

  /** Digits below a nanosecond are dropped: shifting down is the quotient by a power of ten. */
  lemma {:induction false} ShiftDown(m: nat, k: nat)
    ensures Shift(Shift(m, 0 - k as int), k) <= m < Shift(Shift(m, 0 - k as int) + 1, k)
    decreases k
  {
    if k > 0 {
      ShiftDown(m / 10, k - 1);
      var q := Shift(m, 0 - k as int);
      assert q == Shift(m / 10, 1 - k as int);
      ShiftTen(q, k - 1);
      ShiftTen(q + 1, k - 1);
    }
  }
}
