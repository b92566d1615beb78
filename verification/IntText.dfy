/** Integers as text: what sprintf "%d" writes and what strtol reads back. */
module IntText {
  /** The width of "long": 32 bits or 64 bits. */
  datatype Abi = Lp32 | Lp64

  const INT_MIN := -0x8000_0000
  const INT_MAX := 0x7fff_ffff

  type Int32 = i: int | INT_MIN <= i <= INT_MAX

  function LongMax(abi: Abi): nat {
    if abi.Lp32? then 0x7fff_ffff else 0x7fff_ffff_ffff_ffff
  }

  // ---------- Writing ----------

  function DigitChar(d: nat): char
    requires d < 10
  {
    '0' + d as char
  }

  function Digits(n: nat): (r: string)
    ensures |r| > 0
  {
    if n < 10 then [DigitChar(n)] else Digits(n / 10) + [DigitChar(n % 10)]
  }

  /** sprintf "%d" */
  function Decimal(v: Int32): string {
    var n: int := v;
    if n < 0 then "-" + Digits(-n) else Digits(n)
  }

  // ---------- Reading ----------

  predicate IsBlank(c: char) {
    c == ' ' || c == '\t' || c == '\n' || c == '\r' || c == 11 as char || c == 12 as char
  }

  function Blanks(s: string): (n: nat)
    ensures n <= |s|
  {
    if s == "" || !IsBlank(s[0]) then 0 else 1 + Blanks(s[1..])
  }

  function DigitOf(c: char): nat {
    if '0' <= c <= '9' then (c - '0') as nat
    else if 'a' <= c <= 'z' then 10 + (c - 'a') as nat
    else if 'A' <= c <= 'Z' then 10 + (c - 'A') as nat
    else 36
  }

  /** Length of the longest run of digits at the start. */
  function DigitRun(s: string, base: nat): (n: nat)
    ensures n <= |s|
  {
    if s == "" || DigitOf(s[0]) >= base then 0 else 1 + DigitRun(s[1..], base)
  }

  function Value(s: string, base: nat): nat {
    if s == "" then 0 else Value(s[..|s| - 1], base) * base + DigitOf(s[|s| - 1])
  }

  function Saturate(abi: Abi, negative: bool, n: nat): int {
    var max: int, m: int := LongMax(abi), n;
    if negative then (if m > max + 1 then -max - 1 else -m)
    else if m > max then max else m
  }

  /** The base and the length of its prefix, after the sign. */
  function BaseOf(u: string, base: nat): (nat, nat) {
    if base != 0 then (base, 0)
    else if |u| >= 3 && u[0] == '0' && (u[1] == 'x' || u[1] == 'X') && DigitOf(u[2]) < 16 then (16, 2)
    else if |u| >= 1 && u[0] == '0' then (8, 0)
    else (10, 0)
  }

  /** The number after the sign and how many characters it takes, 0 if there is none. */
  function Magnitude(u: string, base: nat): (r: (nat, nat))
    ensures r.1 <= |u|
  {
    var (b, p) := BaseOf(u, base);
    var n := DigitRun(u[p..], b);
    if n == 0 then (0, 0) else (Value(u[p..p + n], b), p + n)
  }

  /** strtol for base 0 or 10: the value, and how many characters were used (none without digits). */
  function Strtol(abi: Abi, s: string, base: nat): (r: (int, nat))
    ensures r.1 <= |s|
  {
    var w := Blanks(s);
    var sign := if w < |s| && (s[w] == '-' || s[w] == '+') then 1 else 0;
    var (n, used) := Magnitude(s[w + sign..], base);
    if used == 0 then (0, 0)
    else (Saturate(abi, sign == 1 && s[w] == '-', n), w + sign + used)
  }

  /** The conversion of a long to int. */
  function ToInt(v: int): Int32 {
    (v + 0x8000_0000) % 0x1_0000_0000 - 0x8000_0000
  }

  /** It keeps the value up to multiples of 2^32, so every int stays what it is. */
  lemma ToIntExactly(v: int)
    ensures (v - ToInt(v)) % 0x1_0000_0000 == 0
    ensures INT_MIN <= v <= INT_MAX ==> ToInt(v) == v
  {
    var q := (v + 0x8000_0000) / 0x1_0000_0000;
    assert v - ToInt(v) == q * 0x1_0000_0000;
  }

  // ---------- Reading what was written ----------

  lemma DigitCharIs(d: nat)
    requires d < 10
    ensures '0' <= DigitChar(d) <= '9' && DigitOf(DigitChar(d)) == d && (d > 0 ==> DigitChar(d) != '0')
  {
  }

  /** The digits of a number: all decimal, no leading zero, worth the number. */
  lemma {:induction false} DigitsAre(n: nat)
    ensures forall i :: 0 <= i < |Digits(n)| ==> '0' <= Digits(n)[i] <= '9'
    ensures n > 0 ==> Digits(n)[0] != '0'
    ensures Value(Digits(n), 10) == n
  {
    hide DigitChar, DigitOf;
    DigitCharIs(n % 10);
    if n < 10 {
      assert Digits(n)[..0] == "";
      assert Value("", 10) == 0;
    } else {
      DigitsAre(n / 10);
      assert Digits(n)[..|Digits(n)| - 1] == Digits(n / 10);
    }
  }

  lemma {:induction false} RunOfDigits(s: string, rest: string)
    requires forall i :: 0 <= i < |s| ==> '0' <= s[i] <= '9'
    requires rest == "" || DigitOf(rest[0]) >= 10
    ensures DigitRun(s + rest, 10) == |s|
  {
    if s == "" {
      assert s + rest == rest;
    } else {
      var t := s + rest;
      assert t[0] == s[0] && t[1..] == s[1..] + rest;
      RunOfDigits(s[1..], rest);
    }
  }

  /** What may follow a number without being read as part of it. */
  predicate Ends(rest: string) {
    rest == "" || (DigitOf(rest[0]) >= 10 && rest[0] != 'x' && rest[0] != 'X')
  }

  lemma {:induction false} MagnitudeOfDigits(n: nat, rest: string, base: nat)
    requires (base == 10 && (rest == "" || DigitOf(rest[0]) >= 10)) || (base == 0 && Ends(rest))
    ensures Magnitude(Digits(n) + rest, base) == (n, |Digits(n)|)
  {
    hide Digits, Value, DigitRun;
    var d := Digits(n);
    var u := d + rest;
    DigitsAre(n);
    assert u[..|d|] == d && u[0..] == u;
    if base == 0 && n == 0 {
      OctalZero(rest);
      ZeroDigits();
    } else {
      RunOfDigits(d, rest);
      assert BaseOf(u, base) == (10, 0);
      assert u[0..0 + |d|] == d;
    }
  }

  lemma ZeroDigits()
    ensures Digits(0) == "0"
  {
  }

  /** A single zero is read as octal. */
  lemma OctalZero(rest: string)
    requires Ends(rest)
    ensures Magnitude("0" + rest, 0) == (0, 1)
  {
    var u := "0" + rest;
    assert u[1..] == rest;
    assert BaseOf(u, 0) == (8, 0);
    assert u[0..] == u && DigitRun(u, 8) == 1 by { assert rest == "" || DigitOf(rest[0]) >= 8; }
    assert u[0..1] == "0";
    assert "0"[..0] == "";
    assert Value("0", 8) == 0;
  }

  /** Whatever follows, unless it continues the number: strtol gives the number back and stops
      after it, with the base given or detected; no precision is lost in the conversion to int. */
  lemma StrtolDecimal(abi: Abi, v: Int32, rest: string, base: nat)
    requires (base == 10 && (rest == "" || DigitOf(rest[0]) >= 10)) || (base == 0 && Ends(rest))
    ensures Strtol(abi, Decimal(v) + rest, base) == (v, |Decimal(v)|) && ToInt(v) == v
  {
    hide Digits, Value, DigitRun, Magnitude, Blanks, DigitOf;
    var i: int := v;
    var n: nat := if i < 0 then -i else i;
    var d := Digits(n);
    DigitsAre(n);
    MagnitudeOfDigits(n, rest, base);
    var s := Decimal(v) + rest;
    assert Decimal(v) == if i < 0 then "-" + d else d;
    assert s[if i < 0 then 1 else 0..] == d + rest;
    NoBlanks(s);
  }

  lemma NoBlanks(s: string)
    ensures s != "" && (s[0] == '-' || '0' <= s[0] <= '9') ==> Blanks(s) == 0
  {
  }

  // ---------- Text in general ----------

  lemma {:induction false} BlanksThen(b: string, rest: string)
    requires forall i :: 0 <= i < |b| ==> b[i] in [' ', 9 as char, 10 as char, 11 as char, 12 as char, 13 as char]
    requires rest == "" || rest[0] !in [' ', 9 as char, 10 as char, 11 as char, 12 as char, 13 as char]
    ensures Blanks(b + rest) == |b|
  {
    if b == "" {
      assert b + rest == rest;
    } else {
      var t := b + rest;
      assert t[0] == b[0] && t[1..] == b[1..] + rest;
      BlanksThen(b[1..], rest);
    }
  }

  /** strtol to base 10 on any number: blanks and one sign are passed over, the value is that of
      the digits with its sign, cut to the range of long, and it stops behind the digits. */
  lemma StrtolNumber(abi: Abi, b: string, sign: string, n: nat, rest: string)
    requires forall i :: 0 <= i < |b| ==> b[i] in [' ', 9 as char, 10 as char, 11 as char, 12 as char, 13 as char]
    requires sign in ["", "+", "-"] && (rest == "" || !('0' <= rest[0] <= '9'))
    ensures var max: int := if abi == Lp32 then 0x7fff_ffff else 0x7fff_ffff_ffff_ffff;
            var k: int := n;
            var m := if sign == "-" then -k else k;
            Strtol(abi, b + sign + Digits(n) + rest, 10) ==
            (if m > max then max else if m < -max - 1 then -max - 1 else m, |b| + |sign| + |Digits(n)|)
  {
    hide Digits, Value, DigitRun, Magnitude, Blanks, DigitOf;
    var d := Digits(n);
    assert '0' <= d[0] <= '9' by { DigitsAre(n); }
    assert rest == "" || DigitOf(rest[0]) >= 10 by { NoDigit(rest); }
    MagnitudeOfDigits(n, rest, 10);
    Parts(b, sign, d, rest);
    BlanksThen(b, sign + d + rest);
  }

  /** Where the parts of a number text stand. */
  lemma Parts(b: string, sign: string, d: string, rest: string)
    requires |sign| <= 1 && d != ""
    ensures var s := b + sign + d + rest;
            && s == b + (sign + d + rest) && s[|b| + |sign|..] == d + rest
            && s[|b|] == (if sign == "" then d[0] else sign[0])
  {
  }

  lemma NoDigit(rest: string)
    requires rest == "" || !('0' <= rest[0] <= '9')
    ensures rest == "" || DigitOf(rest[0]) >= 10
  {
  }

  /** Without a digit after blanks and sign nothing is read. */
  lemma StrtolNothing(abi: Abi, b: string, sign: string, rest: string)
    requires forall i :: 0 <= i < |b| ==> b[i] in [' ', 9 as char, 10 as char, 11 as char, 12 as char, 13 as char]
    requires sign in ["", "+", "-"] && (rest == "" || !('0' <= rest[0] <= '9'))
    requires sign == "" && rest != "" ==>
               rest[0] !in [' ', '+', '-', 9 as char, 10 as char, 11 as char, 12 as char, 13 as char]
    ensures Strtol(abi, b + sign + rest, 10) == (0, 0)
  {
    hide Blanks, DigitOf, Value;
    var s, tail := b + sign + rest, sign + rest;
    assert s == b + tail;
    NoDigit(rest);
    BlanksThen(b, tail);
    assert s[|b| + |sign|..] == rest;
    assert rest[0..] == rest;
    assert sign == "" && rest != "" ==> s[|b|] == rest[0];
    assert sign != "" ==> s[|b|] == sign[0];
  }

  lemma {:induction false} RunOf(s: string, rest: string, base: nat)
    requires forall i :: 0 <= i < |s| ==> DigitOf(s[i]) < base
    requires rest == "" || DigitOf(rest[0]) >= base
    ensures DigitRun(s + rest, base) == |s|
  {
    hide DigitOf;
    if s == "" {
      assert s + rest == rest;
    } else {
      var t := s + rest;
      assert t[0] == s[0] && t[1..] == s[1..] + rest;
      RunOf(s[1..], rest, base);
    }
  }

  /** With the base detected, 0x or 0X before a hexadecimal digit makes it 16, ... */
  lemma HexNumber(x: char, h: string, rest: string)
    requires h != "" && (x == 'x' || x == 'X')
    requires (forall i :: 0 <= i < |h| ==> DigitOf(h[i]) < 16) && (rest == "" || DigitOf(rest[0]) >= 16)
    ensures Magnitude(['0', x] + h + rest, 0) == (Value(h, 16), 2 + |h|)
  {
    hide DigitOf, Value, DigitRun, BaseOf;
    var u := ['0', x] + h + rest;
    RunOf(h, rest, 16);
    HexBase(x, h, rest);
    Behind(['0', x], h, rest);
  }

  lemma Behind(a: string, h: string, rest: string)
    ensures (a + h + rest)[|a|..] == h + rest && (a + h + rest)[|a|..|a| + |h|] == h
  {
  }

  lemma HexBase(x: char, h: string, rest: string)
    requires h != "" && (x == 'x' || x == 'X') && DigitOf(h[0]) < 16
    ensures BaseOf(['0', x] + h + rest, 0) == (16, 2)
  {
    hide DigitOf;
    assert (['0', x] + h + rest)[2] == h[0];
  }

  /** ... and another leading 0 makes it 8. */
  lemma OctalNumber(h: string, rest: string)
    requires h != ""
    requires (forall i :: 0 <= i < |h| ==> DigitOf(h[i]) < 8) && (rest == "" || DigitOf(rest[0]) >= 8)
    ensures Magnitude("0" + h + rest, 0) == (Value("0" + h, 8), 1 + |h|)
  {
    hide Value, DigitRun, DigitOf, BaseOf;
    var o := "0" + h;
    ZeroIsOctal(h);
    RunOf(o, rest, 8);
    OctalBase(h, rest);
    Behind("", o, rest);
    assert "" + o == o;
  }

  lemma OctalBase(h: string, rest: string)
    requires h != "" && h[0] != 'x' && h[0] != 'X'
    ensures BaseOf("0" + h + rest, 0) == (8, 0)
  {
    hide DigitOf;
    assert ("0" + h + rest)[1] == h[0];
  }

  lemma ZeroIsOctal(h: string)
    requires h != "" && forall i :: 0 <= i < |h| ==> DigitOf(h[i]) < 8
    ensures forall i :: 0 <= i < |h| + 1 ==> DigitOf(("0" + h)[i]) < 8
    ensures h[0] != 'x' && h[0] != 'X'
  {
    assert ("0" + h)[0] == '0';
    assert DigitOf('x') >= 8 && DigitOf('X') >= 8;
  }
}
