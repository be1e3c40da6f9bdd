/**
 Decimal text as the C library writes and reads it: fixed-width integers, fixed-point numbers rounded to
 nearest, and the prefix parsers behind atoi and atof.
 */
module Decimal {

  function Pow10(k: nat): (p: nat)
    ensures p > 0
  {
    if k == 0 then 1 else 10 * Pow10(k - 1)
  }

  predicate IsDigit(c: char) {
    '0' <= c <= '9'
  }

  predicate AllDigits(s: string) {
    forall i :: 0 <= i < |s| ==> IsDigit(s[i])
  }

  predicate IsSpace(c: char) {
    c == ' ' || ('\t' <= c <= '\r')
  }

  function DigitChar(d: nat): (c: char)
    requires d < 10
    ensures IsDigit(c) && DigitValue(c) == d
  {
    ('0' as int + d) as char
  }

  function DigitValue(c: char): (d: nat)
    requires IsDigit(c)
    ensures d < 10
  {
    c as int - '0' as int
  }

  function Spaces(k: nat): (s: string)
    ensures |s| == k && forall i :: 0 <= i < k ==> s[i] == ' '
  {
    seq(k, _ => ' ')
  }

  // ---- Writing ----

  /** Exactly w digits: the low w digits of n. */
  function Padded(n: nat, w: nat): (s: string)
    ensures |s| == w && AllDigits(s)
  {
    if w == 0 then "" else Padded(n / 10, w - 1) + [DigitChar(n % 10)]
  }

  /** Number of digits of n, at least one. */
  function Width(n: nat): (w: nat)
    ensures w >= 1
  {
    if n < 10 then 1 else 1 + Width(n / 10)
  }

  /** Decimal digits without leading zeros. */
  function Dec(n: nat): (s: string)
    ensures |s| == Width(n) && AllDigits(s)
  {
    Padded(n, Width(n))
  }

  function PadLeft(s: string, w: nat): (r: string)
    ensures |r| == if |s| < w then w else |s|
  {
    if |s| < w then Spaces(w - |s|) + s else s
  }

  /** The conversion %wd. */
  function IntText(n: int, w: nat): (s: string)
    ensures |s| >= w
  {
    PadLeft(if n < 0 then "-" + Dec(-n) else Dec(n), w)
  }

  /** Rounding of a nonnegative number to nearest, ties to even. */
  function RoundEven(y: real): (n: nat)
    requires y >= 0.0
    ensures y - 0.5 <= n as real <= y + 0.5
  {
    var f := y.Floor;
    if y - f as real < 0.5 then f
    else if y - f as real > 0.5 then f + 1
    else if f % 2 == 0 then f else f + 1
  }

  /** x times 10^p. */
  function Up(x: real, p: nat): (y: real)
    ensures x >= 0.0 ==> y >= 0.0
  {
    if p == 0 then x else 10.0 * Up(x, p - 1)
  }

  /** y divided by 10^p. */
  function Down(y: real, p: nat): real {
    if p == 0 then y else Down(y, p - 1) / 10.0
  }

  /** The magnitude of x in units of 10^-p, rounded. */
  function Scaled(x: real, p: nat): nat {
    RoundEven(Up(if x < 0.0 then -x else x, p))
  }

  /** n with its low p digits dropped. */
  function High(n: nat, p: nat): nat {
    if p == 0 then n else High(n / 10, p - 1)
  }

  /** n / 10^p written with a point and p decimals. */
  function PointText(n: nat, p: nat): string {
    Dec(High(n, p)) + "." + Padded(n, p)
  }

  function FixedText(x: real, p: nat): string {
    (if x < 0.0 then "-" else "") + PointText(Scaled(x, p), p)
  }

  /** The conversion %w.pf. */
  function FixedField(x: real, w: nat, p: nat): (s: string)
    ensures |s| >= w
  {
    PadLeft(FixedText(x, p), w)
  }

  /** The conversion %0w.pf: zeros between the sign and the digits. */
  function ZeroField(x: real, w: nat, p: nat): (s: string)
    ensures |s| >= w
  {
    var t := PointText(Scaled(x, p), p);
    if x < 0.0 then "-" + ZeroFill(t, if w > 0 then w - 1 else 0) else ZeroFill(t, w)
  }

  function ZeroFill(t: string, w: nat): (s: string)
    ensures |s| == if |t| < w then w else |t|
  {
    if |t| < w then Padded(0, w - |t|) + t else t
  }

  // ---- Reading ----

  function SkipSpaces(s: string): string {
    if s != "" && IsSpace(s[0]) then SkipSpaces(s[1..]) else s
  }

  /** Length of the leading run of digits. */
  function DigitRun(s: string): (k: nat)
    ensures k <= |s| && AllDigits(s[..k])
  {
    if s != "" && IsDigit(s[0]) then
      var k := DigitRun(s[1..]);
      assert s[..k + 1] == [s[0]] + s[1..][..k];
      k + 1
    else 0
  }

  function NatOf(s: string): nat
    requires AllDigits(s)
  {
    if s == "" then 0 else 10 * NatOf(s[..|s| - 1]) + DigitValue(s[|s| - 1])
  }

  function Unsigned(s: string): string {
    if s != "" && (s[0] == '-' || s[0] == '+') then s[1..] else s
  }

  predicate Negative(s: string) {
    s != "" && s[0] == '-'
  }

  function Atoi(s: string): int {
    var t := SkipSpaces(s);
    var u := Unsigned(t);
    var n: int := NatOf(u[..DigitRun(u)]);
    if Negative(t) then -n else n
  }

  /** The exponent part, zero if there is none. */
  function Exponent(s: string): int {
    if |s| >= 2 && (s[0] == 'E' || s[0] == 'e') then
      var u := Unsigned(s[1..]);
      var n: int := NatOf(u[..DigitRun(u)]);
      if Negative(s[1..]) then -n else n
    else 0
  }

  /** The parts of a number: digits, an optional point and digits, an optional exponent. */
  datatype Number = Number(negative: bool, whole: nat, fraction: nat, decimals: nat, exponent: int)

  function Parts(negative: bool, u: string): Number {
    var i := DigitRun(u);
    if i < |u| && u[i] == '.' then
      var v := u[i + 1..];
      var j := DigitRun(v);
      Number(negative, NatOf(u[..i]), NatOf(v[..j]), j, Exponent(v[j..]))
    else Number(negative, NatOf(u[..i]), 0, 0, Exponent(u[i..]))
  }

  function Parse(s: string): Number {
    var t := SkipSpaces(s);
    Parts(Negative(t), Unsigned(t))
  }

  function Shifted(x: real, e: int): real
    decreases if e < 0 then -e else e
  {
    if e == 0 then x else if e > 0 then 10.0 * Shifted(x, e - 1) else Shifted(x, e + 1) / 10.0
  }

  function ToReal(n: Number): real {
    var m := Shifted(n.whole as real + Down(n.fraction as real, n.decimals), n.exponent);
    if n.negative then -m else m
  }

  function Atof(s: string): real {
    ToReal(Parse(s))
  }

  // ---- Reading undoes writing ----

  /** Enough digits hold the whole number. */
  lemma {:induction false} NatOfPadded(n: nat, w: nat)
    requires High(n, w) == 0
    ensures NatOf(Padded(n, w)) == n
  {
    if w > 0 {
      NatOfPadded(n / 10, w - 1);
      assert Padded(n, w)[..w - 1] == Padded(n / 10, w - 1);
    }
  }

  lemma {:induction false} DownAdds(a: real, b: real, p: nat)
    ensures Down(a + b, p) == Down(a, p) + Down(b, p)
  {
    if p > 0 {
      DownAdds(a, b, p - 1);
    }
  }

  lemma {:induction false} DownTen(a: real, p: nat)
    ensures Down(10.0 * a, p + 1) == Down(a, p)
  {
    if p > 0 {
      DownTen(a, p - 1);
    }
  }

  /** The digits before the point and those after it make up the number. */
  lemma {:induction false} SplitAtPoint(n: nat, p: nat)
    ensures Down(n as real, p) == High(n, p) as real + Down(NatOf(Padded(n, p)) as real, p)
  {
    if p == 0 {
      assert Padded(n, 0) == "";
    } else {
      var q, r, m := n / 10, n % 10, NatOf(Padded(n / 10, p - 1));
      SplitAtPoint(q, p - 1);
      assert Padded(n, p)[..p - 1] == Padded(q, p - 1);
      assert n as real == 10.0 * q as real + r as real;
      DownAdds(10.0 * q as real, r as real, p);
      DownTen(q as real, p - 1);
      DownAdds(10.0 * m as real, r as real, p);
      DownTen(m as real, p - 1);
      assert NatOf(Padded(n, p)) as real == 10.0 * m as real + r as real;
    }
  }

  lemma {:induction false} HighZero(n: nat, w: nat)
    ensures High(n, w) == 0 <==> n < Pow10(w)
  {
    if w > 0 {
      HighZero(n / 10, w - 1);
    }
  }

  lemma {:induction false} WidthFits(n: nat, w: nat)
    requires w >= 1
    ensures Width(n) <= w <==> n < Pow10(w)
  {
    if w > 1 {
      WidthFits(n / 10, w - 1);
    }
  }

  lemma NatOfDec(n: nat)
    ensures NatOf(Dec(n)) == n
  {
    WidthFits(n, Width(n));
    HighZero(n, Width(n));
    NatOfPadded(n, Width(n));
  }

  lemma {:induction false} SkipAll(k: nat, s: string)
    requires s == "" || !IsSpace(s[0])
    ensures SkipSpaces(Spaces(k) + s) == s
  {
    if k == 0 {
      assert Spaces(0) + s == s;
    } else {
      assert (Spaces(k) + s)[1..] == Spaces(k - 1) + s;
      SkipAll(k - 1, s);
    }
  }

  lemma {:induction false} RunOf(d: string, rest: string)
    requires AllDigits(d) && (rest == "" || !IsDigit(rest[0]))
    ensures DigitRun(d + rest) == |d|
  {
    if d == "" {
      assert d + rest == rest;
    } else {
      assert (d + rest)[1..] == d[1..] + rest;
      RunOf(d[1..], rest);
    }
  }

  lemma SkipPad(s: string, w: nat)
    requires s == "" || !IsSpace(s[0])
    ensures SkipSpaces(PadLeft(s, w)) == s
  {
    if |s| < w {
      SkipAll(w - |s|, s);
    }
  }

  /** Reading a padded integer gives the integer back. */
  lemma AtoiIntText(n: nat, w: nat)
    ensures Atoi(IntText(n, w)) == n
  {
    var d := Dec(n);
    assert IsDigit(d[0]);
    SkipPad(d, w);
    assert Unsigned(d) == d;
    assert DigitRun(d) == |d| by { RunOf(d, ""); assert d + "" == d; }
    assert d[..|d|] == d;
    NatOfDec(n);
  }

  lemma Slices(a: string, b: string, rest: string)
    ensures var u := a + "." + b + rest;
      && u == a + ("." + b + rest) && u[|a|] == '.' && u[..|a|] == a && u[|a| + 1..] == b + rest
    ensures (b + rest)[..|b|] == b && (b + rest)[|b|..] == rest
  {
  }

  lemma PartsAt(neg: bool, u: string, a: string, b: string, rest: string)
    requires AllDigits(a) && AllDigits(b) && DigitRun(u) == |a| < |u| && u[|a|] == '.' && u[..|a|] == a
    requires var v := u[|a| + 1..]; DigitRun(v) == |b| && v[..|b|] == b && v[|b|..] == rest
    ensures Parts(neg, u) == Number(neg, NatOf(a), NatOf(b), |b|, Exponent(rest))
  {
  }

  lemma PartsPoint(neg: bool, a: string, b: string, rest: string)
    requires AllDigits(a) && AllDigits(b) && (rest == "" || !IsDigit(rest[0]))
    ensures Parts(neg, a + "." + b + rest) == Number(neg, NatOf(a), NatOf(b), |b|, Exponent(rest))
  {
    Slices(a, b, rest);
    RunOf(a, "." + b + rest);
    RunOf(b, rest);
    PartsAt(neg, a + "." + b + rest, a, b, rest);
  }

  /** Reading digits, a point and digits, after any spaces and before any non-digit. */
  lemma ParsePoint(k: nat, a: string, b: string, rest: string)
    requires AllDigits(a) && AllDigits(b) && (rest == "" || !IsDigit(rest[0]))
    ensures Parse(Spaces(k) + a + "." + b + rest) == Number(false, NatOf(a), NatOf(b), |b|, Exponent(rest))
  {
    var u := a + "." + b + rest;
    assert Spaces(k) + a + "." + b + rest == Spaces(k) + u;
    assert u[0] == if a == "" then '.' else a[0];
    assert SkipSpaces(Spaces(k) + u) == u by { SkipAll(k, u); }
    assert Unsigned(u) == u && !Negative(u);
    PartsPoint(false, a, b, rest);
  }

  // ---- Signed numbers and exponents ----

  predicate IsSign(c: char) {
    c == '+' || c == '-'
  }

  function Signed(negative: bool, x: real): real {
    if negative then -x else x
  }

  /** Reading a sign or a blank, digits, a point and digits, before any non-digit. */
  lemma ParseSigned(c: char, a: string, b: string, rest: string)
    requires IsSign(c) || c == ' '
    requires AllDigits(a) && AllDigits(b) && (rest == "" || !IsDigit(rest[0]))
    ensures Parse([c] + a + "." + b + rest) == Number(c == '-', NatOf(a), NatOf(b), |b|, Exponent(rest))
  {
    if c == ' ' {
      assert [c] == Spaces(1);
      ParsePoint(1, a, b, rest);
    } else {
      var u := a + "." + b + rest;
      var s := [c] + u;
      assert [c] + a + "." + b + rest == s;
      assert SkipSpaces(s) == s && Unsigned(s) == u && (Negative(s) <==> c == '-');
      PartsPoint(c == '-', a, b, rest);
    }
  }

  /** A signed one-digit exponent. */
  lemma ExponentDigit(c: char, d: char)
    requires IsSign(c) && IsDigit(d)
    ensures !IsDigit(("E" + [c] + [d])[0])
    ensures Exponent("E" + [c] + [d]) == if c == '-' then 0 - DigitValue(d) else DigitValue(d)
  {
    var s := "E" + [c] + [d];
    assert s[1..] == [c] + [d];
    assert Unsigned(s[1..]) == [d] && (Negative(s[1..]) <==> c == '-');
    assert DigitRun([d]) == 1 by { RunOf([d], ""); assert [d] + "" == [d]; }
    assert [d][..1] == [d] && [d][..0] == "";
    assert NatOf([d]) == DigitValue(d);
  }

  lemma {:induction false} UpTenth(x: real, p: nat)
    ensures Up(x / 10.0, p + 1) == Up(x, p)
  {
    if p > 0 {
      UpTenth(x, p - 1);
    }
  }

  /** Multiplying by 10^p undoes dividing by it. */
  lemma {:induction false} UpDown(x: real, p: nat)
    ensures Up(Down(x, p), p) == x
  {
    if p > 0 {
      UpDown(x, p - 1);
      UpTenth(Down(x, p - 1), p - 1);
    }
  }

  lemma {:induction false} UpUp(x: real, p: nat, d: nat)
    ensures Up(Up(x, d), p) == Up(x, p + d)
  {
    if p > 0 {
      UpUp(x, p - 1, d);
    }
  }

  lemma {:induction false} UpNegates(x: real, p: nat)
    ensures Up(-x, p) == -Up(x, p)
  {
    if p > 0 {
      UpNegates(x, p - 1);
    }
  }

  /** An exponent moves the point: to the right by multiplying, to the left by dividing. */
  lemma {:induction false} ShiftedIs(x: real, d: nat)
    ensures Shifted(x, d) == Up(x, d) && Shifted(x, 0 - d) == Down(x, d)
  {
    if d > 0 {
      ShiftedIs(x, d - 1);
      assert 0 - d + 1 == 0 - (d - 1);
    }
  }

  lemma ParseDigits(k: nat, a: string, n: nat, p: nat)
    requires AllDigits(a) && NatOf(a) == High(n, p)
    ensures Parse(Spaces(k) + a + "." + Padded(n, p)) == Number(false, High(n, p), NatOf(Padded(n, p)), p, 0)
  {
    var b := Padded(n, p);
    assert Spaces(k) + a + "." + b == Spaces(k) + a + "." + b + "";
    ParsePoint(k, a, b, "");
  }

  lemma AtofDigits(k: nat, a: string, n: nat, p: nat)
    requires AllDigits(a) && NatOf(a) == High(n, p)
    ensures Atof(Spaces(k) + a + "." + Padded(n, p)) == Down(n as real, p)
  {
    ParseDigits(k, a, n, p);
    SplitAtPoint(n, p);
  }

  /** Reading n / 10^p as it was written, after any spaces. */
  lemma AtofPointText(k: nat, n: nat, p: nat)
    ensures Atof(Spaces(k) + PointText(n, p)) == Down(n as real, p)
  {
    var a := Dec(High(n, p));
    assert Spaces(k) + PointText(n, p) == Spaces(k) + a + "." + Padded(n, p);
    NatOfDec(High(n, p));
    AtofDigits(k, a, n, p);
  }

  /** v is n with its sign, p decimals, and d places up or down. */
  ghost predicate IsScientific(v: real, negative: bool, n: nat, p: nat, down: bool, d: nat) {
    if down then Up(v, p + d) == Signed(negative, n as real)
    else Up(v, p) == Signed(negative, Up(n as real, d))
  }

  lemma ScientificValue(n: nat, p: nat, down: bool, d: nat, v: real)
    requires v == Shifted(Down(n as real, p), if down then 0 - d else d)
    ensures IsScientific(v, false, n, p, down, d)
  {
    var x := Down(n as real, p);
    ShiftedIs(x, d);
    UpDown(n as real, p);
    if down {
      UpDown(x, d);
      UpUp(v, p, d);
    } else {
      UpUp(x, p, d);
      UpUp(x, d, p);
      assert p + d == d + p;
    }
  }

  lemma SignedScientific(v: real, n: nat, p: nat, down: bool, d: nat)
    requires IsScientific(v, false, n, p, down, d)
    ensures IsScientific(-v, true, n, p, down, d)
  {
    UpNegates(v, if down then p + d else p);
  }

  lemma NumberValue(negative: bool, n: nat, p: nat, down: bool, d: nat)
    ensures IsScientific(ToReal(Number(negative, 0, n, p, if down then 0 - d else d)), negative, n, p, down, d)
  {
    var v := Shifted(Down(n as real, p), if down then 0 - d else d);
    assert 0 as real + Down(n as real, p) == Down(n as real, p);
    ScientificValue(n, p, down, d, v);
    SignedScientific(v, n, p, down, d);
  }

  lemma NoWhole(c: char, b: string, rest: string, s: string)
    requires s == [c] + "." + b + rest || (s == [c] + "." + b && rest == "")
    ensures [c] + "" + "." + b + rest == s
  {
    assert [c] + "" == [c];
    assert [c] + "." + b + "" == [c] + "." + b;
  }

  lemma ParseScientific(c: char, b: string, e: char, d: char, s: string)
    requires (IsSign(c) || c == ' ') && AllDigits(b) && IsSign(e) && IsDigit(d)
    requires s == [c] + "." + b + ("E" + [e] + [d])
    ensures Parse(s) == Number(c == '-', 0, NatOf(b), |b|, if e == '-' then 0 - DigitValue(d) else DigitValue(d))
  {
    var rest := "E" + [e] + [d];
    NoWhole(c, b, rest, s);
    ParseSigned(c, "", b, rest);
    ExponentDigit(e, d);
  }

  lemma AtofNumber(s: string, negative: bool, n: nat, p: nat, down: bool, d: nat)
    requires Parse(s) == Number(negative, 0, n, p, if down then 0 - d else d)
    ensures IsScientific(Atof(s), negative, n, p, down, d)
  {
    NumberValue(negative, n, p, down, d);
  }

  /** A sign or blank, a point and digits, and a signed one-digit exponent. */
  lemma AtofScientific(c: char, b: string, e: char, d: char, s: string)
    requires (IsSign(c) || c == ' ') && AllDigits(b) && IsSign(e) && IsDigit(d)
    requires s == [c] + "." + b + ("E" + [e] + [d])
    ensures IsScientific(Atof(s), c == '-', NatOf(b), |b|, e == '-', DigitValue(d))
  {
    assert Parse(s) == Number(c == '-', 0, NatOf(b), |b|, if e == '-' then 0 - DigitValue(d) else DigitValue(d)) by {
      ParseScientific(c, b, e, d, s);
    }
    AtofNumber(s, c == '-', NatOf(b), |b|, e == '-', DigitValue(d));
  }

  /** A sign or blank, a point and digits. */
  lemma AtofFraction(c: char, b: string, s: string)
    requires (IsSign(c) || c == ' ') && AllDigits(b) && s == [c] + "." + b
    ensures IsScientific(Atof(s), c == '-', NatOf(b), |b|, false, 0)
  {
    assert Parse(s) == Number(c == '-', 0, NatOf(b), |b|, 0) by {
      NoWhole(c, b, "", s);
      ParseSigned(c, "", b, "");
    }
    AtofNumber(s, c == '-', NatOf(b), |b|, false, 0);
  }

  /** Reading back a fixed-point field gives the rounded value. */
  lemma AtofFixedField(x: real, w: nat, p: nat)
    requires x >= 0.0
    ensures Atof(FixedField(x, w, p)) == Down(Scaled(x, p) as real, p)
  {
    var t := PointText(Scaled(x, p), p);
    assert FixedText(x, p) == t;
    AtofPointText(if |t| < w then w - |t| else 0, Scaled(x, p), p);
    assert Spaces(0) + t == t;
  }

  lemma {:induction false} ZerosValue(k: nat)
    ensures NatOf(Padded(0, k)) == 0
  {
    if k > 0 {
      ZerosValue(k - 1);
      assert Padded(0, k)[..k - 1] == Padded(0, k - 1);
    }
  }

  lemma {:induction false} NatOfZeros(k: nat, d: string)
    requires AllDigits(d)
    ensures AllDigits(Padded(0, k) + d) && NatOf(Padded(0, k) + d) == NatOf(d)
    decreases |d|
  {
    var s := Padded(0, k) + d;
    if d == "" {
      assert s == Padded(0, k);
      ZerosValue(k);
    } else {
      assert s[..|s| - 1] == Padded(0, k) + d[..|d| - 1];
      NatOfZeros(k, d[..|d| - 1]);
    }
  }

  lemma AtofZeroFill(n: nat, w: nat, p: nat)
    ensures Atof(ZeroFill(PointText(n, p), w)) == Down(n as real, p)
  {
    var t, d := PointText(n, p), Dec(High(n, p));
    var k := if |t| < w then w - |t| else 0;
    var a := Padded(0, k) + d;
    assert ZeroFill(t, w) == Spaces(0) + a + "." + Padded(n, p);
    NatOfDec(High(n, p));
    NatOfZeros(k, d);
    AtofDigits(0, a, n, p);
  }

  /** Reading back a zero-filled field gives the rounded value. */
  lemma AtofZeroField(x: real, w: nat, p: nat)
    requires x >= 0.0
    ensures Atof(ZeroField(x, w, p)) == Down(Scaled(x, p) as real, p)
  {
    AtofZeroFill(Scaled(x, p), w, p);
  }

  lemma PointTextClipped(n: nat, p: nat)
    requires p > 0
    ensures PointText(n, p) == PointText(n / 10, p - 1) + [DigitChar(n % 10)]
  {
    assert Padded(n, p) == Padded(n / 10, p - 1) + [DigitChar(n % 10)];
    assert High(n, p) == High(n / 10, p - 1);
  }

  lemma DropLast(a: string, b: string, x: char)
    ensures var s := a + (b + [x]); s[..|s| - 1] == a + b
  {
  }

  /** A field that loses its last decimal is read as the number truncated to one decimal less. */
  lemma AtofClipped(k: nat, n: nat, p: nat, s: string)
    requires p > 0 && s == Spaces(k) + PointText(n, p)
    ensures Atof(s[..|s| - 1]) == Down((n / 10) as real, p - 1)
  {
    assert s[..|s| - 1] == Spaces(k) + PointText(n / 10, p - 1) by {
      PointTextClipped(n, p);
      DropLast(Spaces(k), PointText(n / 10, p - 1), DigitChar(n % 10));
    }
    AtofPointText(k, n / 10, p - 1);
  }

  /** The point lands p + 1 from the end, and the text is w wide, exactly when the whole part has room. */
  lemma PointColumn(n: nat, w: nat, p: nat)
    requires w >= p + 2
    ensures var s := PadLeft(PointText(n, p), w);
      if n < Pow10(w - 1) then |s| == w && s[w - 1 - p] == '.'
      else |s| > w && IsDigit(s[w - 1 - p])
  {
    var d := Dec(High(n, p));
    WidthFits(High(n, p), w - 1 - p);
    HighBelow(n, p, w - 1 - p);
    var s := PadLeft(PointText(n, p), w);
    if |d| <= w - 1 - p {
      assert s == Spaces(w - 1 - p - |d|) + d + "." + Padded(n, p);
    } else {
      assert s[w - 1 - p] == d[w - 1 - p];
    }
  }

  lemma {:induction false} HighBelow(n: nat, p: nat, q: nat)
    ensures High(n, p) < Pow10(q) <==> n < Pow10(p + q)
    decreases p
  {
    if p > 0 {
      HighBelow(n / 10, p - 1, q);
    }
  }

  lemma IntTextWidth(n: nat, w: nat)
    requires w >= 1 && n < Pow10(w)
    ensures |IntText(n, w)| == w
  {
    WidthFits(n, w);
  }

  lemma ZeroFillColumn(n: nat, w: nat, p: nat)
    requires w >= p + 2 && n < Pow10(w - 1)
    ensures var s := ZeroFill(PointText(n, p), w); |s| == w && s[w - 1 - p] == '.'
  {
    var d := Dec(High(n, p));
    HighBelow(n, p, w - 1 - p);
    WidthFits(High(n, p), w - 1 - p);
    assert ZeroFill(PointText(n, p), w) == Padded(0, w - 1 - p - |d|) + d + "." + Padded(n, p);
  }

  lemma ZeroColumn(x: real, w: nat, p: nat)
    requires x >= 0.0 && w >= p + 2 && Scaled(x, p) < Pow10(w - 1)
    ensures |ZeroField(x, w, p)| == w && ZeroField(x, w, p)[w - 1 - p] == '.'
  {
    ZeroFillColumn(Scaled(x, p), w, p);
  }

  lemma {:induction false} NatOfAllZero(s: string)
    requires forall i :: 0 <= i < |s| ==> s[i] == '0'
    ensures AllDigits(s) && NatOf(s) == 0
  {
    if s != "" {
      NatOfAllZero(s[..|s| - 1]);
    }
  }

  lemma {:induction false} ZeroStays(p: nat, e: int)
    ensures Down(0.0, p) == 0.0 && Shifted(0.0, e) == 0.0
    decreases p + if e < 0 then -e else e
  {
    if p > 0 {
      ZeroStays(p - 1, e);
    } else if e > 0 {
      ZeroStays(p, e - 1);
    } else if e < 0 {
      ZeroStays(p, e + 1);
    }
  }

  /** Zeros after a point read as zero, whatever exponent follows. */
  lemma AtofZeros(k: nat, z: string, rest: string)
    requires forall i :: 0 <= i < |z| ==> z[i] == '0'
    requires rest == "" || !IsDigit(rest[0])
    ensures Atof(Spaces(k) + "." + z + rest) == 0.0
  {
    NatOfAllZero(z);
    assert Spaces(k) + "" + "." + z + rest == Spaces(k) + "." + z + rest;
    ParsePoint(k, "", z, rest);
    ZeroStays(|z|, Exponent(rest));
  }

  /** Reading a padded integer as a real gives the integer back. */
  lemma AtofIntText(n: nat, w: nat)
    ensures Atof(IntText(n, w)) == n as real
  {
    var d := Dec(n);
    assert IsDigit(d[0]);
    SkipPad(d, w);
    assert Unsigned(d) == d && !Negative(d);
    assert DigitRun(d) == |d| by { RunOf(d, ""); assert d + "" == d; }
    assert d[..|d|] == d && d[|d|..] == "";
    NatOfDec(n);
    assert Parse(IntText(n, w)) == Number(false, n, 0, 0, 0);
  }
}
