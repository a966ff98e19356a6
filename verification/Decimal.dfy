// Decimal: numbers as printf writes them and as strtol and strtoul read them.

module Decimal {
  import opened Wrappers

  predicate IsDigit(c: char) { '0' <= c <= '9' }

  function DigitValue(c: char): (d: nat)
    requires IsDigit(c)
    ensures d < 10
  {
    c as int - '0' as int
  }

  function Digit(d: nat): (c: char)
    requires d < 10
    ensures IsDigit(c) && DigitValue(c) == d
  {
    ('0' as int + d) as char
  }

  /** %u */
  function Print(n: nat): string {
    if n < 10 then [Digit(n)] else Print(n / 10) + [Digit(n % 10)]
  }

  predicate AllDigits(s: string) { forall i :: 0 <= i < |s| ==> IsDigit(s[i]) }

  function Value(s: string): nat
    requires AllDigits(s)
  {
    if |s| == 0 then 0 else 10 * Value(s[..|s| - 1]) + DigitValue(s[|s| - 1])
  }

  /** What is printed reads back. */
  lemma {:induction false} PrintReads(n: nat)
    ensures AllDigits(Print(n)) && |Print(n)| >= 1 && Value(Print(n)) == n
  {
    if n >= 10 {
      PrintReads(n / 10);
      var p := Print(n / 10);
      assert (p + [Digit(n % 10)])[..|p|] == p;
    } else {
      assert [Digit(n)][..0] == [];
    }
  }

  /** Length of the run of digits at the front. */
  function DigitRun(s: string): (n: nat)
    ensures n <= |s| && AllDigits(s[..n]) && (n < |s| ==> !IsDigit(s[n]))
  {
    if |s| == 0 || !IsDigit(s[0]) then 0
    else
      var m := DigitRun(s[1..]);
      assert s[..m + 1] == [s[0]] + s[1..][..m];
      m + 1
  }

  predicate IsSpace(c: char) { c == ' ' || '\t' <= c <= '\r' }

  function SkipSpaces(s: string): (r: string)
    ensures |r| <= |s|
  {
    if |s| > 0 && IsSpace(s[0]) then SkipSpaces(s[1..]) else s
  }

  /** strtol in base 10: white space, an optional sign, digits; what it read and the rest, or nothing when there
      is no digit. Overflow is left out of this function: every caller refuses values far below it. */
  function Strtol(s: string): (r: Option<(int, string)>)
    ensures r.Some? ==> |r.value.1| < |s|
  {
    var t := SkipSpaces(s);
    var negative := |t| > 0 && t[0] == '-';
    var u := if |t| > 0 && (t[0] == '-' || t[0] == '+') then t[1..] else t;
    var n := DigitRun(u);
    if n == 0 then None
    else
      var value: int := Value(u[..n]);
      Some((if negative then -value else value, u[n..]))
  }

  /** A printed number followed by anything but a digit is read back, and no more. */
  lemma StrtolReads(n: nat, rest: string)
    requires |rest| > 0 ==> !IsDigit(rest[0])
    ensures Strtol(Print(n) + rest) == Some((n, rest))
  {
    PrintReads(n);
    var s := Print(n) + rest;
    assert IsDigit(s[0]);
    RunIs(Print(n), rest);
    assert s[..|Print(n)|] == Print(n) && s[|Print(n)|..] == rest;
  }

  lemma {:induction false} RunIs(digits: string, rest: string)
    requires AllDigits(digits) && (|rest| > 0 ==> !IsDigit(rest[0]))
    ensures DigitRun(digits + rest) == |digits|
  {
    if |digits| > 0 {
      assert (digits + rest)[1..] == digits[1..] + rest;
      RunIs(digits[1..], rest);
    }
  }

  lemma {:induction false} Skips(spaces: string, rest: string)
    requires (forall c <- spaces :: IsSpace(c)) && (|rest| > 0 ==> !IsSpace(rest[0]))
    ensures SkipSpaces(spaces + rest) == rest
  {
    if |spaces| == 0 {
      assert spaces + rest == rest;
    } else {
      assert (spaces + rest)[1..] == spaces[1..] + rest;
      Skips(spaces[1..], rest);
    }
  }

  /** White space in the C locale: a blank, or tab to carriage return. */
  predicate Blank(c: char) { c as int == 32 || 9 <= c as int <= 13 }

  predicate Sign(s: string) { |s| == 0 || (|s| == 1 && (s[0] == '+' || s[0] == '-')) }

  lemma StrtolIs(s: string, t: string, u: string, digits: string, rest: string)
    requires SkipSpaces(s) == t && |t| > 0 && u == (if t[0] == '-' || t[0] == '+' then t[1..] else t)
    requires |digits| > 0 && AllDigits(digits) && DigitRun(u) == |digits| && u[..|digits|] == digits && u[|digits|..] == rest
    ensures var value: int := Value(digits); Strtol(s) == Some((if t[0] == '-' then -value else value, rest))
  {
    hide SkipSpaces, DigitRun, Value, AllDigits;
  }

  /** White space, a sign or none, and a whole run of digits: read as that number, with what follows left over. */
  lemma StrtolMeans(spaces: string, sign: string, digits: string, rest: string)
    requires (forall c <- spaces :: Blank(c)) && Sign(sign)
    requires |digits| > 0 && AllDigits(digits) && (|rest| > 0 ==> !IsDigit(rest[0]))
    ensures var value: int := Value(digits);
      Strtol(spaces + (sign + (digits + rest))) == Some((if |sign| > 0 && sign[0] == '-' then -value else value, rest))
  {
    hide Strtol, SkipSpaces, DigitRun, Value, AllDigits, Blank, Sign, IsSpace, IsDigit;
    var u := digits + rest;
    var t := sign + u;
    FirstDigit(digits, rest);
    Signed(sign, u);
    BlanksAreSpaces(spaces);
    Skips(spaces, t);
    RunIs(digits, rest);
    StrtolIs(spaces + t, t, u, digits, rest);
  }

  lemma FirstDigit(digits: string, rest: string)
    requires |digits| > 0 && AllDigits(digits)
    ensures var u := digits + rest; |u| > 0 && IsDigit(u[0]) && u[..|digits|] == digits && u[|digits|..] == rest
  {
    assert (digits + rest)[0] == digits[0];
  }

  lemma Signed(sign: string, u: string)
    requires Sign(sign) && |u| > 0 && IsDigit(u[0])
    ensures var t := sign + u;
      && |t| > 0 && !IsSpace(t[0]) && (t[0] == '-' <==> |sign| > 0 && sign[0] == '-')
      && (if t[0] == '-' || t[0] == '+' then t[1..] else t) == u
  {
    if |sign| == 0 { assert sign + u == u; } else { assert (sign + u)[1..] == u; }
  }

  lemma BlanksAreSpaces(spaces: string)
    requires forall c <- spaces :: Blank(c)
    ensures forall c <- spaces :: IsSpace(c)
  {
    forall c | c in spaces ensures IsSpace(c) { assert Blank(c); }
  }

  /** Whatever is read has that form. */
  lemma StrtolOnly(s: string) returns (spaces: string, sign: string, digits: string)
    requires Strtol(s).Some?
    ensures s == spaces + (sign + (digits + Strtol(s).value.1)) && (forall c <- spaces :: Blank(c))
    ensures Sign(sign) && |digits| > 0 && AllDigits(digits)
    ensures var value: int := Value(digits); Strtol(s).value.0 == if |sign| > 0 && sign[0] == '-' then -value else value
  {
    hide SkipSpaces, DigitRun, Value, AllDigits, Blank;
    spaces := Skipped(s);
    var t := SkipSpaces(s);
    sign := if |t| > 0 && (t[0] == '-' || t[0] == '+') then t[..1] else t[..0];
    var u := t[|sign|..];
    digits := u[..DigitRun(u)];
  }

  lemma {:induction false} Skipped(s: string) returns (spaces: string)
    ensures s == spaces + SkipSpaces(s) && forall c <- spaces :: Blank(c)
  {
    if |s| > 0 && IsSpace(s[0]) {
      var more := Skipped(s[1..]);
      spaces := [s[0]] + more;
    } else {
      spaces := "";
    }
  }
}
