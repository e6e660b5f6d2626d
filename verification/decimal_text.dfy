/**
 * Decimal text of integers as the bot produces it: `Number.prototype.toString`
 * for button labels and callback data, and the zero-filled fields of a
 * moment.js format string (moment's `zeroFill(n, width)`: a sign for negative
 * numbers, then zeros up to `width`, then the digits of `|n|`). Digit parsing
 * (`parseInt` on a run of digits) is the inverse used by the callback handler.
 */
module DecimalText {

  predicate IsDigit(c: char) {
    '0' <= c <= '9'
  }

  predicate AllDigits(s: string) {
    forall i :: 0 <= i < |s| ==> IsDigit(s[i])
  }

  function DigitChar(k: int): (c: char)
    requires 0 <= k < 10
    ensures IsDigit(c)
  {
    ('0' as int + k) as char
  }

  function DigitValue(c: char): (k: int)
    requires IsDigit(c)
    ensures 0 <= k < 10
    ensures DigitChar(k) == c
  {
    c as int - '0' as int
  }

  /** The shortest decimal digits of `n` (JavaScript's `"" + n`). */
  function Digits(n: nat): (s: string)
    ensures 1 <= |s| && AllDigits(s)
    ensures |s| > 1 ==> s[0] != '0'
    ensures n < 10 <==> |s| == 1
  {
    if n < 10 then [DigitChar(n)] else Digits(n / 10) + [DigitChar(n % 10)]
  }

  /** The value of a run of decimal digits. */
  function ParseDigits(s: string): nat
    requires AllDigits(s)
  {
    if s == [] then 0 else ParseDigits(s[..|s| - 1]) * 10 + DigitValue(s[|s| - 1])
  }

  /** `Number.prototype.toString` of an integer. */
  function IntToString(n: int): string {
    if n < 0 then "-" + Digits(-n) else Digits(n)
  }

  function Zeros(k: nat): (s: string)
    ensures |s| == k && AllDigits(s)
  {
    seq(k, _ => '0')
  }

  /** moment.js `zeroFill(n, width, false)`, used by the tokens YYYY, MM, DD, HH, mm and ss. */
  function ZeroFill(n: int, width: nat): string {
    var abs := Digits(if n < 0 then -n else n);
    (if n >= 0 then "" else "-") + Zeros(if width > |abs| then width - |abs| else 0) + abs
  }

  function Pow10(k: nat): (p: nat)
    ensures p >= 1
  {
    if k == 0 then 1 else 10 * Pow10(k - 1)
  }

  /** Exactly `w` decimal digits of `n` (its value modulo 10^w): the fixed-width reference. */
  function FixedDigits(n: nat, w: nat): (s: string)
    ensures |s| == w && AllDigits(s)
  {
    if w == 0 then "" else FixedDigits(n / 10, w - 1) + [DigitChar(n % 10)]
  }

  // ---------------------------------------------------------------------

  lemma ParseSnoc(s: string, c: char)
    requires AllDigits(s) && IsDigit(c)
    ensures AllDigits(s + [c])
    ensures ParseDigits(s + [c]) == ParseDigits(s) * 10 + DigitValue(c)
  {
    assert (s + [c])[..|s|] == s;
  }

  /** Parsing the digits `toString` prints gives the number back. */
  lemma {:induction false} ParseDigitsOfDigits(n: nat)
    ensures ParseDigits(Digits(n)) == n
  {
    if n < 10 {
      assert Digits(n) == [] + [DigitChar(n)];
      ParseSnoc([], DigitChar(n));
    } else {
      ParseDigitsOfDigits(n / 10);
      ParseSnoc(Digits(n / 10), DigitChar(n % 10));
    }
  }

  /** Parsing a fixed-width field gives back any number that fits it. */
  lemma {:induction false} ParseFixedDigits(n: nat, w: nat)
    requires n < Pow10(w)
    ensures ParseDigits(FixedDigits(n, w)) == n
  {
    if w > 0 {
      ParseFixedDigits(n / 10, w - 1);
      ParseSnoc(FixedDigits(n / 10, w - 1), DigitChar(n % 10));
    }
  }

  lemma {:induction false} FixedDigitsOfZero(k: nat)
    ensures FixedDigits(0, k) == Zeros(k)
  {
    if k > 0 {
      FixedDigitsOfZero(k - 1);
      assert Zeros(k) == Zeros(k - 1) + ['0'];
    }
  }

  lemma {:induction false} FixedDigitsPadsDigits(n: nat, w: nat)
    requires 1 <= w && n < Pow10(w)
    ensures |Digits(n)| <= w
    ensures FixedDigits(n, w) == Zeros(w - |Digits(n)|) + Digits(n)
  {
    if n < 10 {
      FixedDigitsOfZero(w - 1);
    } else {
      assert w >= 2;
      FixedDigitsPadsDigits(n / 10, w - 1);
      assert Zeros(w - |Digits(n)|) == Zeros(w - 1 - |Digits(n / 10)|);
    }
  }

  /** For a number that fits `w` digits, moment's zero fill is exactly the fixed-width field. */
  lemma ZeroFillIsFixed(n: nat, w: nat)
    requires 1 <= w && n < Pow10(w)
    ensures ZeroFill(n, w) == FixedDigits(n, w)
  {
    FixedDigitsPadsDigits(n, w);
  }

  /** A run of digits is the fixed-width field of its own value. */
  lemma {:induction false} FixedDigitsOfParse(s: string)
    requires AllDigits(s)
    ensures ParseDigits(s) < Pow10(|s|)
    ensures FixedDigits(ParseDigits(s), |s|) == s
    decreases |s|
  {
    if s != [] {
      var front, c := s[..|s| - 1], s[|s| - 1];
      assert AllDigits(front);
      FixedDigitsOfParse(front);
      var n := ParseDigits(s);
      assert n / 10 == ParseDigits(front) && n % 10 == DigitValue(c);
      assert s == front + [c];
    }
  }
}
