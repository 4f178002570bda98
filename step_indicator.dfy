/**
 * The step counter "Question X of N" rendered above each question, and the reader that
 * recovers the two numbers from it with the pattern `(\d+)\s+of\s+(\d+)` to drive the
 * page's readiness progress bar.
 */
module StepIndicator {
  import opened Wrappers
  import opened JsText

  /** The indicator text for zero-based step `step` of `total` questions. */
  function IndicatorText(step: nat, total: nat): (text: string)
    ensures exists a, b :: IsDecimalOf(a, step + 1) && IsDecimalOf(b, total) && text == "Question " + a + " of " + b
  {
    var a, b := NumberToString(step + 1), NumberToString(total);
    assert IsDecimalOf(a, step + 1) && IsDecimalOf(b, total);
    "Question " + a + " of " + b
  }

  /** `\s+(\d+)` anchored at the start of `t`: the number after the white space. */
  function SpacedNumber(t: string): Option<nat> {
    var w := Run(t, IsJsSpace);
    if w == 0 then None
    else
      var digits := t[w..];
      var d := Run(digits, IsDigit);
      if d == 0 then None else Some(ParseDecimal(digits[..d]))
  }

  /** The rest of the pattern, `\s+of\s+(\d+)`, anchored at the start of `t`: the second number. */
  function OfNumber(t: string): Option<nat> {
    var w := Run(t, IsJsSpace);
    if w == 0 then None
    else
      var rest := t[w..];
      if |rest| < 2 || rest[..2] != "of" then None else SpacedNumber(rest[2..])
  }

  /**
   * The pattern `(\d+)\s+of\s+(\d+)` anchored at the start of `t`, with both numbers read
   * by `parseInt`. Every quantifier is greedy, and giving back characters can never help,
   * since what follows each run must be a character outside that run's class.
   */
  function MatchAt(t: string): Option<(nat, nat)> {
    var d1 := Run(t, IsDigit);
    if d1 == 0 then None
    else
      match OfNumber(t[d1..])
      case None => None
      case Some(second) => Some((ParseDecimal(t[..d1]), second))
  }

  /**
   * The leftmost search of `String.prototype.match` for the anchored matcher `m`: `m` is
   * tried at each position from the left, and the first success is the result. There is no
   * result exactly when `m` fails at every position.
   */
  function Leftmost<T(==)>(text: string, m: string -> Option<T>): (r: Option<T>)
    ensures r.None? <==> forall k :: 0 <= k < |text| ==> m(text[k..]).None?
    ensures r.Some? ==> exists k :: 0 <= k < |text| && m(text[k..]) == r && forall j :: 0 <= j < k ==> m(text[j..]).None?
    decreases |text|
  {
    if text == [] then None
    else if m(text).Some? then
      assert text[0..] == text;
      m(text)
    else
      var r := Leftmost(text[1..], m);
      assert text[0..] == text;
      assert forall k :: 1 <= k < |text| ==> m(text[k..]) == m(text[1..][k - 1..]) by {
        forall k | 1 <= k < |text|
          ensures m(text[k..]) == m(text[1..][k - 1..])
        {
          assert text[1..][k - 1..] == text[k..];
        }
      }
      if r.Some? then
        var k :| 0 <= k < |text| - 1 && m(text[1..][k..]) == r && forall j :: 0 <= j < k ==> m(text[1..][j..]).None?;
        assert m(text[k + 1..]) == r;
        assert forall j :: 0 <= j < k + 1 ==> m(text[j..]).None?;
        r
      else
        r
  }

  /** `text.match(/(\d+)\s+of\s+(\d+)/)`: the numbers of the leftmost match, read as (current, total). */
  function ParseIndicator(text: string): (r: Option<(nat, nat)>)
    ensures r.None? <==> forall k :: 0 <= k < |text| ==> MatchAt(text[k..]).None?
    ensures r.Some? ==> exists k :: 0 <= k < |text| && MatchAt(text[k..]) == r && forall j :: 0 <= j < k ==> MatchAt(text[j..]).None?
  {
    Leftmost(text, MatchAt)
  }

  /** A prefix without digits cannot start a match, so the search passes over it. */
  lemma {:induction false} SkipNonDigits(prefix: string, rest: string)
    requires forall i :: 0 <= i < |prefix| ==> !IsDigit(prefix[i])
    ensures ParseIndicator(prefix + rest) == ParseIndicator(rest)
  {
    if prefix == [] {
      assert prefix + rest == rest;
    } else {
      assert (prefix + rest)[0] == prefix[0];
      assert Run(prefix + rest, IsDigit) == 0;
      assert (prefix + rest)[1..] == prefix[1..] + rest;
      SkipNonDigits(prefix[1..], rest);
    }
  }

  /** After a single space, a text that does not start with white space: the space run has length 1. */
  lemma OneSpace(x: string)
    requires x != [] && !IsJsSpace(x[0])
    ensures Run(" " + x, IsJsSpace) == 1
    ensures (" " + x)[1..] == x
  {
    RunOfPrefix(" ", x, IsJsSpace);
  }

  /** `" " + b` for a digit string `b` reads as `b`'s value. */
  lemma SpacedNumberReadsDigits(b: string)
    requires |b| > 0 && AllDigits(b)
    ensures SpacedNumber(" " + b) == Some(ParseDecimal(b))
  {
    OneSpace(b);
    RunOfPrefix(b, [], IsDigit);
    assert b + [] == b && b[..|b|] == b;
  }

  /** `" of"` followed by any text `s`: the pattern continues with `\s+(\d+)` on `s`. */
  lemma OfNumberOf(s: string)
    ensures OfNumber(" " + ("of" + s)) == SpacedNumber(s)
  {
    var rest := "of" + s;
    assert rest[0] == 'o';
    OneSpace(rest);
    assert rest[..2] == "of" && rest[2..] == s;
  }

  /** `" of " + b` splits as a space, the word, and `" " + b`. */
  lemma OfSplits(b: string)
    ensures " of " + b == " " + ("of" + (" " + b))
  {
  }

  /** `" of " + b` for a digit string `b` completes the pattern with `b`'s value. */
  lemma OfNumberReadsDigits(b: string)
    requires |b| > 0 && AllDigits(b)
    ensures OfNumber(" of " + b) == Some(ParseDecimal(b))
  {
    OfSplits(b);
    OfNumberOf(" " + b);
    SpacedNumberReadsDigits(b);
  }

  /** `a + " of " + b` for two digit strings matches at its start with `a`'s and `b`'s values. */
  lemma MatchNumbers(a: string, b: string)
    requires |a| > 0 && AllDigits(a) && |b| > 0 && AllDigits(b)
    ensures MatchAt(a + " of " + b) == Some((ParseDecimal(a), ParseDecimal(b)))
  {
    var t := a + " of " + b;
    assert t == a + (" of " + b);
    RunOfPrefix(a, " of " + b, IsDigit);
    assert t[|a|..] == " of " + b && t[..|a|] == a;
    OfNumberReadsDigits(b);
  }

  /** Reading back the indicator of step `step` of `total` gives `(step + 1, total)`. */
  lemma IndicatorRoundTrip(step: nat, total: nat)
    ensures ParseIndicator(IndicatorText(step, total)) == Some((step + 1, total))
  {
    var a, b := NumberToString(step + 1), NumberToString(total);
    assert IndicatorText(step, total) == "Question " + (a + " of " + b);
    SkipNonDigits("Question ", a + " of " + b);
    MatchNumbers(a, b);
  }
}
