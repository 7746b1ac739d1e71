/** Decimal numerals. */
module Decimals {
  import opened Wrappers

  predicate IsDigit(c: char) {
    '0' <= c <= '9'
  }

  function Digit(d: nat): char
    requires d < 10
  {
    (d as char) + '0'
  }

  /** str(i) */
  function Decimal(i: nat): string {
    if i < 10 then [Digit(i)] else Decimal(i / 10) + [Digit(i % 10)]
  }

  lemma {:induction false} DecimalDigits(i: nat)
    ensures Decimal(i) != [] && forall k | 0 <= k < |Decimal(i)| :: IsDigit(Decimal(i)[k])
    ensures i > 0 ==> Decimal(i)[0] != '0'
  {
    if i >= 10 { DecimalDigits(i / 10); }
  }

  lemma {:induction false} DecimalInjective(i: nat, j: nat)
    requires Decimal(i) == Decimal(j)
    ensures i == j
  {
    if i < 10 && j < 10 {
      assert Decimal(i)[0] == Decimal(j)[0];
    } else if i >= 10 && j >= 10 {
      var a, b := Decimal(i / 10), Decimal(j / 10);
      assert a == Decimal(i)[..|Decimal(i)| - 1] && b == Decimal(j)[..|Decimal(j)| - 1];
      DecimalInjective(i / 10, j / 10);
      assert Decimal(i)[|a|] == Decimal(j)[|a|];
    } else {
      DecimalDigits(i / 10);
      DecimalDigits(j / 10);
      assert false;
    }
  }

  // ---------- reading numerals: the pattern (0|[1-9]\d*) and int() ----------

  /** The value of a character the class \d accepts, -1 for any other. The class has more than the ten ASCII digits. */
  type DigitClass = char -> int

  ghost predicate ReadsDigits(digit: DigitClass) {
    && (forall c {:trigger digit(c)} :: -1 <= digit(c) < 10)
    && (forall c {:trigger digit(c)} :: IsDigit(c) ==> digit(c) == (c - '0') as int)
    && (forall c {:trigger digit(c)} :: c < 128 as char && digit(c) >= 0 ==> IsDigit(c))
  }

  function Value(digit: DigitClass, s: string): Option<nat> {
    if s == "" then Some(0)
    else
      var d := digit(s[|s| - 1]);
      match Value(digit, s[..|s| - 1])
      case None => None
      case Some(v) => if d < 0 then None else Some(10 * v + d)
  }

  function ParseNumber(digit: DigitClass, s: string): Option<nat> {
    if s == "0" then Some(0)
    else if s != "" && '1' <= s[0] <= '9' then Value(digit, s)
    else None
  }

  predicate Ascii(s: string) {
    forall k | 0 <= k < |s| :: s[k] < 128 as char
  }

  lemma {:induction false} ValueOfDecimal(digit: DigitClass, i: nat)
    requires ReadsDigits(digit)
    ensures Value(digit, Decimal(i)) == Some(i)
  {
    var s := Decimal(i);
    if i < 10 {
      assert s[..0] == "";
    } else {
      ValueOfDecimal(digit, i / 10);
      assert s[..|s| - 1] == Decimal(i / 10);
    }
  }

  lemma ParseDecimal(digit: DigitClass, i: nat)
    requires ReadsDigits(digit)
    ensures ParseNumber(digit, Decimal(i)) == Some(i)
  {
    DecimalDigits(i);
    ValueOfDecimal(digit, i);
  }

  /** A numeral of ASCII digits is the decimal of its value. */
  lemma {:induction false} ValueIsDecimal(digit: DigitClass, s: string)
    requires ReadsDigits(digit) && s != "" && '1' <= s[0] <= '9' && forall k | 0 <= k < |s| :: IsDigit(s[k])
    ensures Value(digit, s).Some? && Value(digit, s).value > 0 && Decimal(Value(digit, s).value) == s
  {
    var n := |s| - 1;
    var init, last := s[..n], s[n];
    if n == 0 {
      assert Value(digit, init) == Some(0);
      assert [Digit(digit(last))] == s;
    } else {
      ValueIsDecimal(digit, init);
      var v := Value(digit, init).value;
      assert (10 * v + digit(last)) / 10 == v && (10 * v + digit(last)) % 10 == digit(last);
      assert init + [last] == s;
    }
  }

  lemma {:induction false} ValueDigits(digit: DigitClass, s: string)
    requires ReadsDigits(digit) && Ascii(s) && Value(digit, s).Some?
    ensures forall k | 0 <= k < |s| :: IsDigit(s[k])
  {
    if s != "" { ValueDigits(digit, s[..|s| - 1]); }
  }

  lemma ParseIsDecimal(digit: DigitClass, s: string)
    requires ReadsDigits(digit) && Ascii(s) && ParseNumber(digit, s).Some?
    ensures s == Decimal(ParseNumber(digit, s).value)
  {
    if s != "0" {
      ValueDigits(digit, s);
      ValueIsDecimal(digit, s);
    }
  }

  lemma {:induction false} ValueAccepts(digit: DigitClass, s: string)
    requires Value(digit, s).Some?
    ensures forall k | 0 <= k < |s| :: digit(s[k]) >= 0
  {
    if s != "" { ValueAccepts(digit, s[..|s| - 1]); }
  }

  /** A numeral holds digits only. */
  lemma ParseAccepts(digit: DigitClass, s: string)
    requires ReadsDigits(digit) && ParseNumber(digit, s).Some?
    ensures forall k | 0 <= k < |s| :: digit(s[k]) >= 0
  {
    if s != "0" { ValueAccepts(digit, s); } else { assert digit('0') == 0; }
  }
}
