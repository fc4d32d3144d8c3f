/**
 * Decimal text for Kotlin `Int`s: `Int.toString()` for what the edit field
 * displays, and `String.toIntOrNull()` for what a user commits.  Only ASCII
 * digits are recognised.
 */
module Decimal {
  import opened Wrappers
  import opened KotlinInt

  predicate IsDigit(c: char) {
    '0' <= c <= '9'
  }

  predicate AllDigits(s: string) {
    forall i :: 0 <= i < |s| ==> IsDigit(s[i])
  }

  function DigitValue(c: char): (d: nat)
    requires IsDigit(c)
    ensures d < 10
  {
    c as int - '0' as int
  }

  function DigitChar(d: nat): (c: char)
    requires d < 10
    ensures IsDigit(c) && DigitValue(c) == d
  {
    ('0' as int + d) as char
  }

  /** The number a string of decimal digits denotes, most significant first. */
  function DigitsValue(s: string): nat
    requires AllDigits(s)
  {
    if s == [] then 0 else DigitsValue(s[..|s| - 1]) * 10 + DigitValue(s[|s| - 1])
  }

  /** The shortest decimal digit string of `n`. */
  function NatDigits(n: nat): (s: string)
    ensures |s| > 0 && AllDigits(s)
    ensures s[0] == '0' <==> n == 0
    ensures n == 0 ==> s == "0"
  {
    if n < 10 then [DigitChar(n)] else NatDigits(n / 10) + [DigitChar(n % 10)]
  }

  /** `Int.toString()`: a minus sign for negatives, then digits without leading zeros. */
  function ToDecimal(v: Int32): (s: string)
    ensures |s| > 0
    ensures s[0] == '-' <==> v < 0
    ensures v < 0 ==> |s| > 1 && AllDigits(s[1..]) && s[1] != '0'
    ensures v >= 0 ==> AllDigits(s) && (s[0] == '0' ==> s == "0")
  {
    if v < 0 then "-" + NatDigits(-(v as int)) else NatDigits(v)
  }

  /** An optional `+` or `-` followed by at least one digit. */
  predicate IsIntLiteral(s: string) {
    if |s| > 0 && (s[0] == '-' || s[0] == '+') then |s| > 1 && AllDigits(s[1..])
    else |s| > 0 && AllDigits(s)
  }

  function LiteralValue(s: string): int
    requires IsIntLiteral(s)
  {
    if s[0] == '-' then -(DigitsValue(s[1..]) as int)
    else if s[0] == '+' then DigitsValue(s[1..])
    else DigitsValue(s)
  }

  /**
   * `String.toIntOrNull()`: the number the text denotes when it is an
   * integer literal whose value fits a Kotlin `Int`, and None otherwise.
   */
  function ParseIntOrNone(s: string): (r: Option<Int32>)
    ensures r.Some? ==> |s| > 0 && (IsDigit(s[0]) || s[0] == '-' || s[0] == '+')
    ensures r.Some? ==> AllDigits(s[1..])
    ensures s == [] || s == "-" || s == "+" ==> r == None
  {
    if IsIntLiteral(s) && INT_MIN <= LiteralValue(s) <= INT_MAX then Some(LiteralValue(s)) else None
  }

  lemma {:induction false} DigitsValueOfNatDigits(n: nat)
    ensures DigitsValue(NatDigits(n)) == n
  {
    var s := NatDigits(n);
    if n >= 10 {
      var prefix := NatDigits(n / 10);
      assert s == prefix + [DigitChar(n % 10)];
      assert s[..|s| - 1] == prefix;
      DigitsValueOfNatDigits(n / 10);
    }
  }

  /** Parsing what `Int.toString()` prints gives the number back. */
  lemma ParseToDecimal(v: Int32)
    ensures ParseIntOrNone(ToDecimal(v)) == Some(v)
  {
    var s := ToDecimal(v);
    if v < 0 {
      assert s[1..] == NatDigits(-(v as int));
      DigitsValueOfNatDigits(-(v as int));
    } else {
      DigitsValueOfNatDigits(v);
    }
  }

  /** Printing is injective: distinct numbers are never shown as the same text. */
  lemma ToDecimalInjective(v: Int32, w: Int32)
    requires ToDecimal(v) == ToDecimal(w)
    ensures v == w
  {
    ParseToDecimal(v);
    ParseToDecimal(w);
  }

  /** What `toIntOrNull` makes of some typical inputs. */
  lemma ParseExamples()
    ensures ParseIntOrNone("abc") == None
    ensures ParseIntOrNone("12a") == None
    ensures ParseIntOrNone(" 1") == None
    ensures ParseIntOrNone("+7") == Some(7)
    ensures ParseIntOrNone("007") == Some(7)
    ensures ParseIntOrNone("-0") == Some(0)
    ensures ParseIntOrNone("-15") == Some(-15)
  {
    assert !IsDigit('a') && !IsDigit(' ');
    assert "abc"[0] == 'a';
    assert "12a"[2] == 'a';
    assert " 1"[0] == ' ';
    assert "+7"[1..] == "7";
    assert "007"[..2] == "00" && "00"[..1] == "0";
    assert "-0"[1..] == "0";
    assert "-15"[1..] == "15" && "15"[..1] == "1";
  }

  /** `k` zero digits. */
  function Zeros(k: nat): (z: string)
    ensures |z| == k && AllDigits(z)
  {
    seq(k, _ => '0')
  }

  /** A string of zeros denotes 0. */
  lemma {:induction false} ZerosValue(k: nat)
    ensures DigitsValue(Zeros(k)) == 0
  {
    if k > 0 {
      assert Zeros(k)[..k - 1] == Zeros(k - 1);
      ZerosValue(k - 1);
    }
  }

  /** Leading zeros do not change the number a digit string denotes. */
  lemma {:induction false} LeadingZerosValue(k: nat, s: string)
    requires AllDigits(s)
    ensures AllDigits(Zeros(k) + s) && DigitsValue(Zeros(k) + s) == DigitsValue(s)
  {
    var z := Zeros(k) + s;
    assert AllDigits(z) by {
      forall i | 0 <= i < |z|
        ensures IsDigit(z[i])
      {
        if i >= k {
          assert z[i] == s[i - k];
        }
      }
    }
    if s == [] {
      assert z == Zeros(k);
      ZerosValue(k);
    } else {
      assert z[..|z| - 1] == Zeros(k) + s[..|s| - 1];
      assert z[|z| - 1] == s[|s| - 1];
      LeadingZerosValue(k, s[..|s| - 1]);
    }
  }

  /**
   * A digit string, unsigned or with '+', whose magnitude is past
   * `Int.MAX_VALUE` is rejected, however many leading zeros it has.
   */
  lemma ParseTooLarge(k: nat, n: nat)
    requires n > INT_MAX
    ensures ParseIntOrNone(Zeros(k) + NatDigits(n)) == None
    ensures ParseIntOrNone("+" + Zeros(k) + NatDigits(n)) == None
  {
    DigitsValueOfNatDigits(n);
    LeadingZerosValue(k, NatDigits(n));
    assert ("+" + Zeros(k) + NatDigits(n))[1..] == Zeros(k) + NatDigits(n);
  }

  /** A negative literal below `Int.MIN_VALUE` is rejected, however many leading zeros it has. */
  lemma ParseTooSmall(k: nat, n: nat)
    requires n > -INT_MIN
    ensures ParseIntOrNone("-" + Zeros(k) + NatDigits(n)) == None
  {
    DigitsValueOfNatDigits(n);
    LeadingZerosValue(k, NatDigits(n));
    assert ("-" + Zeros(k) + NatDigits(n))[1..] == Zeros(k) + NatDigits(n);
  }
}
