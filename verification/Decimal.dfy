/** Decimal text: what std::to_string prints and the parsers of src/control_common.cpp read back. */
module Decimal {
  import opened Machine

  predicate IsDigit(c: char) {
    '0' <= c <= '9'
  }

  predicate AllDigits(s: string) {
    forall i :: 0 <= i < |s| ==> IsDigit(s[i])
  }

  function Digit(d: nat): (c: char)
    requires d < 10
    ensures IsDigit(c) && c as int - '0' as int == d
  {
    (d + '0' as int) as char
  }

  function Digits(n: nat): (s: string)
    ensures |s| > 0 && AllDigits(s)
  {
    if n < 10 then [Digit(n)] else Digits(n / 10) + [Digit(n % 10)]
  }

  function Value(s: string): nat
    requires AllDigits(s)
  {
    if s == "" then 0 else 10 * Value(s[..|s| - 1]) + (s[|s| - 1] as int - '0' as int)
  }

  lemma {:induction false} ValueOfDigits(n: nat)
    ensures Value(Digits(n)) == n
  {
    if n >= 10 {
      ValueOfDigits(n / 10);
      assert Digits(n)[..|Digits(n)| - 1] == Digits(n / 10);
    } else {
      assert Digits(n)[..0] == "";
    }
  }

  /** A number below 10^k has at most k digits. */
  lemma {:induction false} DigitsAreShort(n: nat, k: nat, power: nat)
    requires k > 0 && power == Pow10(k) && n < power
    ensures |Digits(n)| <= k
    decreases k
  {
    if n >= 10 {
      if k > 1 {
        DigitsAreShort(n / 10, k - 1, Pow10(k - 1));
      }
    }
  }

  function Pow10(k: nat): nat {
    if k == 0 then 1 else 10 * Pow10(k - 1)
  }

  /** parse_unsigned(): digits only, at most `max`, and what strtoull itself can hold. */
  function ParseUnsigned(text: string, max: nat): Option<nat> {
    if text == "" || !AllDigits(text) || Value(text) >= TWO_64 || Value(text) > max then None
    else Some(Value(text))
  }

  /** parse_int32(): the bound is applied before the sign is. */
  function ParseInt32(text: string): Option<int> {
    var negative := text != "" && text[0] == '-';
    var digits := if negative || (text != "" && text[0] == '+') then text[1..] else text;
    match ParseUnsigned(digits, if negative then 2147483648 else 2147483647)
    case None => None
    case Some(magnitude) => Some(if negative then -(magnitude as int) else magnitude)
  }

  /** std::to_string of a signed value. */
  function Signed(n: int): (s: string)
    ensures |s| > 0
  {
    if n < 0 then "-" + Digits(-n) else Digits(n)
  }

  lemma PrintedUnsignedParses(n: nat, max: nat)
    ensures ParseUnsigned(Digits(n), max) == if n <= max && n < TWO_64 then Some(n) else None
  {
    ValueOfDigits(n);
  }

  /** The whole int32 range survives printing and parsing, and nothing outside it does. */
  lemma PrintedInt32Parses(n: int)
    ensures ParseInt32(Signed(n)) == if -2147483648 <= n <= 2147483647 then Some(n) else None
  {
    if n < 0 {
      assert Signed(n)[1..] == Digits(-n);
      PrintedUnsignedParses(-n, 2147483648);
    } else {
      assert IsDigit(Digits(n)[0]);
      PrintedUnsignedParses(n, 2147483647);
    }
  }

  // ---------------------------------------------------- exactly what is accepted

  function Padding(k: nat): (s: string)
    ensures |s| == k
  {
    seq(k, _ => '0')
  }

  /** The number as printed, but for zeros in front. */
  ghost predicate NumberText(text: string, n: nat) {
    exists k: nat :: text == Padding(k) + Digits(n)
  }

  lemma {:induction false} ValueOfPadded(k: nat, n: nat)
    ensures AllDigits(Padding(k) + Digits(n)) && Value(Padding(k) + Digits(n)) == n
    decreases n
  {
    var text := Padding(k) + Digits(n);
    if n < 10 {
      assert text[..|text| - 1] == Padding(k);
      PaddingIsNothing(k);
    } else {
      ValueOfPadded(k, n / 10);
      assert text[..|text| - 1] == Padding(k) + Digits(n / 10);
    }
  }

  lemma {:induction false} PaddingIsNothing(k: nat)
    ensures AllDigits(Padding(k)) && Value(Padding(k)) == 0
  {
    if k > 0 {
      PaddingIsNothing(k - 1);
      assert Padding(k)[..k - 1] == Padding(k - 1);
    }
  }

  lemma {:induction false} DigitsPrintAgain(text: string)
    requires text != "" && AllDigits(text)
    ensures NumberText(text, Value(text))
    decreases |text|
  {
    var front, last := text[..|text| - 1], text[|text| - 1];
    assert text == front + [last];
    if front == "" {
      assert text == Padding(0) + Digits(Value(text));
    } else {
      DigitsPrintAgain(front);
      var k: nat :| front == Padding(k) + Digits(Value(front));
      if Value(front) == 0 {
        assert Digits(0) == "0" && text == Padding(k + 1) + Digits(Value(text));
      } else {
        assert text == Padding(k) + Digits(Value(text));
      }
    }
  }

  /** A text is read as a number exactly if it is that number printed, zeros in front allowed, and
      the number is within the bound and 64 bits. */
  lemma UnsignedAcceptedIff(text: string, max: nat, n: nat)
    ensures ParseUnsigned(text, max) == Some(n) <==> NumberText(text, n) && n <= max && n < TWO_64
  {
    if NumberText(text, n) {
      NumberTextIs(text, n);
    }
    if text != "" && AllDigits(text) {
      DigitsPrintAgain(text);
    }
    hide NumberText, Value;
  }

  lemma NumberTextIs(text: string, n: nat)
    requires NumberText(text, n)
    ensures text != "" && AllDigits(text) && Value(text) == n
  {
    var k: nat :| text == Padding(k) + Digits(n);
    ValueOfPadded(k, n);
    hide Digits, Value;
  }

  ghost predicate SignedText(text: string, n: int) {
    || (n >= 0 && NumberText(text, n))
    || (text != "" && text[0] == '+' && n >= 0 && NumberText(text[1..], n))
    || (text != "" && text[0] == '-' && n <= 0 && NumberText(text[1..], -n))
  }

  lemma NumbersHaveNoSign(text: string, n: nat)
    requires NumberText(text, n)
    ensures text != "" && IsDigit(text[0])
  {
    NumberTextIs(text, n);
  }

  /** The same for a signed number in the int32 range, with one sign allowed in front. */
  lemma Int32AcceptedIff(text: string, n: int)
    ensures ParseInt32(text) == Some(n) <==> SignedText(text, n) && -2147483648 <= n <= 2147483647
  {
    hide ParseUnsigned, NumberText;
    if text != "" && text[0] == '-' {
      if n <= 0 {
        UnsignedAcceptedIff(text[1..], 2147483648, -n);
      }
    } else if n >= 0 {
      UnsignedAcceptedIff(if text != "" && text[0] == '+' then text[1..] else text, 2147483647, n);
    }
    if n >= 0 && NumberText(text, n) {
      NumbersHaveNoSign(text, n);
    }
  }
}
