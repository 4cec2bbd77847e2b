/** Decimal rendering of the port number that goes into a session's default
    name, with its parser as the partner: rendering then parsing gives the
    number back, and parsing a canonical digit string then rendering gives
    the string back. */
module Decimal {

  /** A TCP port, as the source's `u16`. */
  type Port = p: int | 0 <= p < 0x1_0000

  predicate IsDigit(c: char) {
    '0' <= c <= '9'
  }

  function DigitChar(d: nat): (c: char)
    requires d < 10
    ensures IsDigit(c) && DigitValue(c) == d
  {
    ['0', '1', '2', '3', '4', '5', '6', '7', '8', '9'][d]
  }

  function DigitValue(c: char): nat
    requires IsDigit(c)
  {
    (c as int - '0' as int) as nat
  }

  predicate AllDigits(s: string) {
    forall k :: 0 <= k < |s| ==> IsDigit(s[k])
  }

  /** The shortest decimal form: non-empty, and no leading zero unless it is "0". */
  predicate IsCanonical(s: string) {
    s != [] && AllDigits(s) && (s[0] == '0' ==> |s| == 1)
  }

  /** Decimal digits of `n` with no leading zero, as Rust's `Display` for
      integers; in particular the text has no underscore. */
  function Render(n: nat): (s: string)
    ensures IsCanonical(s)
    ensures '_' !in s
    decreases n
  {
    if n < 10 then [DigitChar(n)]
    else
      var p := Render(n / 10);
      var s := p + [DigitChar(n % 10)];
      assert s[0] == p[0];
      s
  }

  /** The value of a string of decimal digits, most significant first. */
  function Value(s: string): nat
    requires AllDigits(s)
    decreases |s|
  {
    if s == [] then 0 else Value(s[..|s| - 1]) * 10 + DigitValue(s[|s| - 1])
  }

  /** Parsing undoes rendering. */
  lemma {:induction false} ValueOfRender(n: nat)
    ensures AllDigits(Render(n)) && Value(Render(n)) == n
    decreases n
  {
    if n >= 10 {
      ValueOfRender(n / 10);
      var s := Render(n);
      assert s[..|s| - 1] == Render(n / 10);
    }
  }

  lemma {:induction false} LeadingDigitPositive(s: string)
    requires AllDigits(s) && s != [] && s[0] != '0'
    ensures Value(s) > 0
    decreases |s|
  {
    if |s| > 1 {
      LeadingDigitPositive(s[..|s| - 1]);
    }
  }

  /** Rendering undoes parsing on canonical digit strings. */
  lemma {:induction false} RenderOfValue(s: string)
    requires IsCanonical(s)
    ensures Render(Value(s)) == s
    decreases |s|
  {
    if |s| > 1 {
      var p := s[..|s| - 1];
      LeadingDigitPositive(p);
      RenderOfValue(p);
      var n := Value(s);
      assert n / 10 == Value(p) && n % 10 == DigitValue(s[|s| - 1]);
      assert s == p + [s[|s| - 1]];
    }
  }
}
