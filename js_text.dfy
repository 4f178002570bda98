/** The pieces of JavaScript's string handling the quiz and the contact form rely on. */
module JsText {

  /** A character of the regular-expression class `\d`. */
  predicate IsDigit(c: char) {
    '0' <= c <= '9'
  }

  /**
   * A character of the regular-expression class `\s`, which is also what `String.prototype.trim`
   * strips: the ECMAScript WhiteSpace and LineTerminator code points.
   */
  predicate IsJsSpace(c: char) {
    || c == '\t' || c == '\n' || c == '\U{000B}' || c == '\U{000C}' || c == '\r' || c == ' '
    || c == '\U{00A0}' || c == '\U{1680}' || ('\U{2000}' <= c <= '\U{200A}')
    || c == '\U{2028}' || c == '\U{2029}' || c == '\U{202F}' || c == '\U{205F}'
    || c == '\U{3000}' || c == '\U{FEFF}'
  }

  /** Every character of `s` is a decimal digit. */
  predicate AllDigits(s: string) {
    forall i :: 0 <= i < |s| ==> IsDigit(s[i])
  }

  /** The length of the longest prefix of `t` whose characters are all in the class `cls`: a greedy `[cls]*`. */
  function Run(t: string, cls: char -> bool): (n: nat)
    ensures n <= |t|
    ensures forall i :: 0 <= i < n ==> cls(t[i])
    ensures n < |t| ==> !cls(t[n])
  {
    if t != [] && cls(t[0]) then 1 + Run(t[1..], cls) else 0
  }

  /** A run of class characters followed by a character outside the class (or by nothing) is measured exactly. */
  lemma {:induction false} RunOfPrefix(x: string, y: string, cls: char -> bool)
    requires forall i :: 0 <= i < |x| ==> cls(x[i])
    requires y == [] || !cls(y[0])
    ensures Run(x + y, cls) == |x|
  {
    if x != [] {
      assert (x + y)[1..] == x[1..] + y;
      RunOfPrefix(x[1..], y, cls);
    } else {
      assert x + y == y;
    }
  }

  /** Ten to the power `n`. */
  function Pow10(n: nat): (p: nat)
    ensures p >= 1
  {
    if n == 0 then 1 else 10 * Pow10(n - 1)
  }

  /** `parseInt` of a string of decimal digits: its value in base ten, below ten to the number of digits. */
  function ParseDecimal(s: string): (n: nat)
    requires AllDigits(s)
    ensures n < Pow10(|s|)
  {
    if s == [] then 0
    else
      var prefix := ParseDecimal(s[..|s| - 1]);
      assert prefix * 10 + 9 < Pow10(|s|) by {
        assert prefix + 1 <= Pow10(|s| - 1);
      }
      prefix * 10 + (s[|s| - 1] - '0') as nat
  }

  /** The digit character for `d`. */
  function DigitChar(d: nat): (c: char)
    requires d < 10
  {
    ('0' as int + d) as char
  }

  /**
   * `String(n)` for a non-negative integer: its decimal digits, without leading zeros,
   * which `parseInt` reads back as `n`.
   */
  function NumberToString(n: nat): (s: string)
    ensures |s| > 0 && AllDigits(s)
    ensures s[0] == '0' ==> n == 0 && s == "0"
    ensures ParseDecimal(s) == n
  {
    if n < 10 then [DigitChar(n)]
    else
      var prefix := NumberToString(n / 10);
      var s := prefix + [DigitChar(n % 10)];
      assert s[..|s| - 1] == prefix;
      s
  }

  /** `s` is the decimal form of `n`: digits only, no leading zero, read back by `parseInt` as `n`. */
  predicate IsDecimalOf(s: string, n: nat) {
    |s| > 0 && AllDigits(s) && (s[0] == '0' ==> s == "0") && ParseDecimal(s) == n
  }

  /**
   * `toLowerCase` on one character, for comparisons against ASCII text: the ASCII capitals
   * and U+212A KELVIN SIGN, the one other character whose lower case is ASCII ('k'). Every
   * other character is kept; its lower case is not ASCII either (U+0130 becomes "i" followed
   * by U+0307), so keeping it never changes whether a lower-cased text equals an ASCII one.
   */
  function LowerChar(c: char): char {
    if 'A' <= c <= 'Z' then (c as int + 32) as char
    else if c == '\U{212A}' then 'k'
    else c
  }

  /** `toLowerCase`, character by character as `LowerChar` does it. */
  function ToLowerCase(s: string): (r: string)
    ensures |r| == |s|
    ensures forall i :: 0 <= i < |s| ==> r[i] == LowerChar(s[i])
  {
    if s == [] then [] else [LowerChar(s[0])] + ToLowerCase(s[1..])
  }
}
