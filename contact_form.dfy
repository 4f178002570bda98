/**
 * The contact form's client-side check: required fields must be filled, and a non-blank
 * email must match `^[^\s@]+@[^\s@]+\.[^\s@]+$` and must not use a generic mail domain.
 */
module ContactForm {
  import opened Wrappers
  import opened JsText

  /** Mail domains that are refused for initial inquiries (compared in lower case). */
  const GenericDomains: seq<string> := [
    "gmail.com", "yahoo.com", "hotmail.com", "outlook.com",
    "aol.com", "icloud.com", "mail.com", "protonmail.com",
    "yandex.com", "mail.ru"
  ]

  const RequiredMessage: string := "This field is required."
  const InvalidEmailMessage: string := "Please enter a valid email address."
  const GenericDomainMessage: string :=
    "Please use a corporate email address. Generic domains (Gmail, Yahoo) are not accepted for initial inquiries."

  /** `value.trim()` is empty: the leading white space `trim` strips is the whole value. */
  predicate IsBlank(value: string)
    ensures IsBlank(value) <==> Run(value, IsJsSpace) == |value|
  {
    forall i :: 0 <= i < |value| ==> IsJsSpace(value[i])
  }

  /** One or more characters of the class `[^\s@]`. */
  predicate IsPart(s: string) {
    |s| > 0 && forall i :: 0 <= i < |s| ==> !IsJsSpace(s[i]) && s[i] != '@'
  }

  /** `domain` is `host.tld` with both parts of the class `[^\s@]+`. */
  ghost predicate IsEmailDomain(domain: string) {
    exists host, tld :: domain == host + "." + tld && IsPart(host) && IsPart(tld)
  }

  /** `value` is `local@domain` as the email pattern reads it. */
  ghost predicate EmailParts(value: string, local: string, domain: string) {
    value == local + "@" + domain && IsPart(local) && IsEmailDomain(domain)
  }

  /** What the email pattern accepts, read as the decomposition it describes. */
  ghost predicate MatchesEmailPattern(value: string) {
    exists local, domain :: EmailParts(value, local, domain)
  }

  /** The first index of `c` in `s` (`indexOf`), or `|s|` when there is none. */
  function IndexOf(s: string, c: char): (k: nat)
    ensures k <= |s|
    ensures k < |s| ==> s[k] == c
    ensures forall i :: 0 <= i < k ==> s[i] != c
  {
    if s == [] || s[0] == c then 0 else 1 + IndexOf(s[1..], c)
  }

  /** A dot with at least one character on each side. */
  predicate HasInnerDot(d: string) {
    |d| >= 3 && IndexOf(d[1..|d| - 1], '.') < |d| - 2
  }

  /**
   * The pattern test, by scanning: no white space anywhere, exactly one `@` with something
   * before it, and a dot inside what follows it.
   */
  predicate EmailPatternTest(value: string)
    ensures EmailPatternTest(value) ==> !IsBlank(value) && value[0] != '@'
    ensures EmailPatternTest(value) ==>
              forall i :: 0 <= i < |value| && value[i] == '@' ==> i == IndexOf(value, '@')
  {
    var at := IndexOf(value, '@');
    && 0 < at < |value|
    && (forall i :: 0 <= i < |value| ==> !IsJsSpace(value[i]))
    && IndexOf(value[at + 1..], '@') == |value| - at - 1
    && HasInnerDot(value[at + 1..])
  }

  /** `value.split('@')[1]`: the text between the first `@` and the next one (or the end). */
  function SecondAtField(value: string): (field: string)
    requires IndexOf(value, '@') < |value|
    ensures forall i :: 0 <= i < |field| ==> field[i] != '@'
    ensures IndexOf(value, '@') + 1 + |field| <= |value|
    ensures field == value[IndexOf(value, '@') + 1..IndexOf(value, '@') + 1 + |field|]
    ensures IndexOf(value, '@') + 1 + |field| == |value| || value[IndexOf(value, '@') + 1 + |field|] == '@'
  {
    var rest := value[IndexOf(value, '@') + 1..];
    rest[..IndexOf(rest, '@')]
  }

  /** A domain with an inner dot and no white space or `@` is of the form `host.tld`. */
  lemma InnerDotDomain(d: string)
    requires HasInnerDot(d) && forall i :: 0 <= i < |d| ==> !IsJsSpace(d[i]) && d[i] != '@'
    ensures IsEmailDomain(d)
  {
    var p := IndexOf(d[1..|d| - 1], '.') + 1;
    assert d[p] == '.';
    assert d == d[..p] + "." + d[p + 1..];
    assert IsPart(d[..p]) && IsPart(d[p + 1..]);
  }

  /** A domain of the form `host.tld` has an inner dot. */
  lemma DomainHasInnerDot(d: string)
    requires IsEmailDomain(d)
    ensures HasInnerDot(d)
  {
    var host, tld :| d == host + "." + tld && IsPart(host) && IsPart(tld);
    var mid := d[1..|d| - 1];
    assert mid[|host| - 1] == '.';
  }

  /** In `local@domain` with no `@` in either part, `local` ends at the first `@`. */
  lemma AtSplit(value: string, local: string, domain: string)
    requires value == local + "@" + domain
    requires forall i :: 0 <= i < |local| ==> local[i] != '@'
    requires forall i :: 0 <= i < |domain| ==> domain[i] != '@'
    ensures IndexOf(value, '@') == |local|
    ensures value[|local| + 1..] == domain
    ensures IndexOf(domain, '@') == |domain|
    ensures SecondAtField(value) == domain
  {
    assert value[|local|] == '@';
    assert value[|local| + 1..] == domain;
    assert domain[..|domain|] == domain;
  }

  /** What the scanning test accepts is of the form `local@host.tld`. */
  lemma PatternTestSound(value: string)
    requires EmailPatternTest(value)
    ensures MatchesEmailPattern(value)
  {
    var at := IndexOf(value, '@');
    var local, domain := value[..at], value[at + 1..];
    assert value == local + "@" + domain;
    assert forall i :: 0 <= i < |domain| ==> domain[i] == value[at + 1 + i];
    InnerDotDomain(domain);
    assert EmailParts(value, local, domain);
  }

  /** The characters of `host.tld` are neither white space nor `@`. */
  lemma DomainChars(domain: string)
    requires IsEmailDomain(domain)
    ensures forall i :: 0 <= i < |domain| ==> !IsJsSpace(domain[i]) && domain[i] != '@'
  {
    var host, tld :| domain == host + "." + tld && IsPart(host) && IsPart(tld);
    forall i | 0 <= i < |domain| ensures !IsJsSpace(domain[i]) && domain[i] != '@' {
      if i < |host| { assert domain[i] == host[i]; }
      else if i > |host| { assert domain[i] == tld[i - |host| - 1]; }
    }
  }

  /** Every text of the form `local@host.tld` passes the scanning test. */
  lemma PatternTestComplete(value: string, local: string, domain: string)
    requires EmailParts(value, local, domain)
    ensures EmailPatternTest(value)
    ensures SecondAtField(value) == domain
    ensures !IsBlank(value)
  {
    DomainChars(domain);
    AtSplit(value, local, domain);
    DomainHasInnerDot(domain);
    forall i | 0 <= i < |value| ensures !IsJsSpace(value[i]) {
      if i < |local| { assert value[i] == local[i]; }
      else if i > |local| { assert value[i] == domain[i - |local| - 1]; }
    }
  }

  /** The scanning test accepts exactly the texts of the form `local@host.tld`. */
  lemma EmailPatternTestCorrect(value: string)
    ensures EmailPatternTest(value) <==> MatchesEmailPattern(value)
    ensures MatchesEmailPattern(value) ==> !IsBlank(value)
  {
    if EmailPatternTest(value) {
      PatternTestSound(value);
    }
    if MatchesEmailPattern(value) {
      var local, domain :| EmailParts(value, local, domain);
      PatternTestComplete(value, local, domain);
    }
  }

  /** The email rule's verdict on the value of the form's email field. */
  datatype EmailVerdict =
    | Blank          // nothing entered: the email rule does not apply
    | BadFormat      // "Please enter a valid email address."
    | GenericDomain  // "Please use a corporate email address. ..."
    | Corporate      // accepted

  /**
   * The email rule of `validateContactForm`. A blank value is left to the required-field
   * check; a value that fails the pattern is refused; a value that passes is refused when
   * its lower-cased domain is a generic one, and accepted otherwise.
   */
  function CheckEmail(value: string): (r: EmailVerdict)
    ensures r == Blank <==> IsBlank(value)
    ensures r == BadFormat <==> !IsBlank(value) && !MatchesEmailPattern(value)
    ensures r == GenericDomain <==>
              exists local, domain :: EmailParts(value, local, domain) && ToLowerCase(domain) in GenericDomains
    ensures r == Corporate <==>
              exists local, domain :: EmailParts(value, local, domain) && ToLowerCase(domain) !in GenericDomains
  {
    EmailPatternTestCorrect(value);
    if IsBlank(value) then Blank
    else if !EmailPatternTest(value) then BadFormat
    else
      PatternTestSound(value);
      var domain := SecondAtField(value);
      assert forall l, d :: EmailParts(value, l, d) ==> d == domain by {
        forall l, d | EmailParts(value, l, d) ensures d == domain {
          PatternTestComplete(value, l, d);
        }
      }
      if ToLowerCase(domain) in GenericDomains then GenericDomain else Corporate
  }

  /**
   * An address `local@host.tld` built from parts of the class `[^\s@]+` passes the pattern,
   * and its verdict depends only on whether its lower-cased domain is a generic one.
   */
  lemma VerdictOfParts(local: string, host: string, tld: string)
    requires IsPart(local) && IsPart(host) && IsPart(tld)
    ensures CheckEmail(local + "@" + (host + "." + tld)) ==
              if ToLowerCase(host + "." + tld) in GenericDomains then GenericDomain else Corporate
  {
    var value, domain := local + "@" + (host + "." + tld), host + "." + tld;
    assert EmailParts(value, local, domain);
  }

  /** A non-empty run of ASCII letters is a part of the class `[^\s@]+`. */
  lemma LettersArePart(s: string)
    requires |s| > 0 && forall i :: 0 <= i < |s| ==> 'a' <= s[i] <= 'z' || 'A' <= s[i] <= 'Z'
    ensures IsPart(s)
  {
  }

  /** A generic domain is refused whatever its letter case. */
  lemma GenericDomainExample(local: string, host: string, tld: string)
    requires local == "Ann" && host == "Mail" && tld == "RU"
    ensures CheckEmail(local + "@" + (host + "." + tld)) == GenericDomain
  {
    ExampleParts(local, host, tld);
    LowerIsGeneric(host + "." + tld);
  }

  /** "Mail.RU" lower-cases to a generic domain. */
  lemma LowerIsGeneric(d: string)
    requires d == "Mail.RU"
    ensures ToLowerCase(d) in GenericDomains
  {
    assert ToLowerCase(d) == "mail.ru";
  }

  /** A domain that only ends like a generic one is accepted. */
  lemma CorporateExample(local: string, host: string, tld: string)
    requires local == "Ann" && host == "Gmail" && tld == "ru"
    ensures CheckEmail(local + "@" + (host + "." + tld)) == Corporate
  {
    ExampleParts(local, host, tld);
    LowerIsNotGeneric(host + "." + tld);
  }

  /** "Gmail.ru" lower-cases to a domain that is not generic. */
  lemma LowerIsNotGeneric(d: string)
    requires d == "Gmail.ru"
    ensures ToLowerCase(d) !in GenericDomains
  {
    assert ToLowerCase(d) == "gmail.ru";
  }

  /** `VerdictOfParts` for parts made of ASCII letters only. */
  lemma ExampleParts(local: string, host: string, tld: string)
    requires |local| > 0 && forall i :: 0 <= i < |local| ==> 'a' <= local[i] <= 'z' || 'A' <= local[i] <= 'Z'
    requires |host| > 0 && forall i :: 0 <= i < |host| ==> 'a' <= host[i] <= 'z' || 'A' <= host[i] <= 'Z'
    requires |tld| > 0 && forall i :: 0 <= i < |tld| ==> 'a' <= tld[i] <= 'z' || 'A' <= tld[i] <= 'Z'
    ensures CheckEmail(local + "@" + (host + "." + tld)) ==
              if ToLowerCase(host + "." + tld) in GenericDomains then GenericDomain else Corporate
  {
    LettersArePart(local);
    LettersArePart(host);
    LettersArePart(tld);
    VerdictOfParts(local, host, tld);
  }

  /** A domain spelled with KELVIN SIGN for its 'k' lower-cases to a generic one and is refused. */
  lemma KelvinSignExample(local: string, host: string, tld: string)
    requires local == "Ann" && host == "outloo\U{212A}" && tld == "com"
    ensures CheckEmail(local + "@" + (host + "." + tld)) == GenericDomain
  {
    assert IsPart(local) && IsPart(tld) by {
      LettersArePart(local);
      LettersArePart(tld);
    }
    KelvinHostIsPart(host);
    VerdictOfParts(local, host, tld);
    KelvinLowerIsGeneric(host + "." + tld);
  }

  /** "outloo" followed by KELVIN SIGN is a part of the class `[^\s@]+`. */
  lemma KelvinHostIsPart(h: string)
    requires h == "outloo\U{212A}"
    ensures IsPart(h)
  {
  }

  /** `toLowerCase` maps KELVIN SIGN to 'k', so "outlooK.com" spelled with it is generic. */
  lemma KelvinLowerIsGeneric(d: string)
    requires d == "outloo\U{212A}.com"
    ensures ToLowerCase(d) in GenericDomains
  {
    assert ToLowerCase(d) == "outlook.com";
  }

  /** A domain without a dot fails the pattern. */
  lemma MissingDotExample(value: string)
    requires value == "Ann@mail"
    ensures CheckEmail(value) == BadFormat
  {
    assert value[0] == 'A';
    assert IndexOf(value, '@') == 3 by {
      assert value == "Ann" + "@" + "mail";
      AtSplitPrefix("Ann", "mail");
    }
    NoInnerDot(value[4..]);
  }

  /** The first `@` of `local@rest` is the one after `local` when `local` has none. */
  lemma AtSplitPrefix(local: string, rest: string)
    requires forall i :: 0 <= i < |local| ==> local[i] != '@'
    ensures IndexOf(local + "@" + rest, '@') == |local|
  {
    assert (local + "@" + rest)[|local|] == '@';
  }

  /** "mail" has no dot between its first and last characters. */
  lemma NoInnerDot(d: string)
    requires d == "mail"
    ensures !HasInnerDot(d)
  {
    assert d[1..|d| - 1] == "ai";
  }

  /** Only white space is left to the required-field check. */
  lemma BlankExample()
    ensures CheckEmail(" \t ") == Blank
  {
  }

  /** The message the email rule shows, if any. */
  function EmailMessage(verdict: EmailVerdict): Option<string> {
    match verdict
    case BadFormat => Some(InvalidEmailMessage)
    case GenericDomain => Some(GenericDomainMessage)
    case _ => None
  }

  /** A field marked `required`: a checkbox, or a field whose text value is checked. */
  datatype Field = Checkbox(checked: bool) | TextField(value: string)

  /** The required-field check passes for `f`: a ticked checkbox or a non-blank value. */
  predicate Filled(f: Field) {
    match f
    case Checkbox(checked) => checked
    case TextField(value) => !IsBlank(value)
  }

  /**
   * `validateContactForm`: flags every required field that is not filled, applies the email
   * rule to the email field when the form has one, and is valid only when nothing was flagged.
   */
  method ValidateContactForm(required: seq<Field>, email: Option<string>)
    returns (isValid: bool, flagged: seq<nat>, emailMessage: Option<string>)
    ensures forall k :: 0 <= k < |flagged| ==> flagged[k] < |required| && !Filled(required[flagged[k]])
    ensures forall i :: 0 <= i < |required| && !Filled(required[i]) ==> i in flagged
    ensures forall k, l :: 0 <= k < l < |flagged| ==> flagged[k] < flagged[l]
    ensures emailMessage == if email.Some? then EmailMessage(CheckEmail(email.value)) else None
    ensures isValid <==>
              (forall i :: 0 <= i < |required| ==> Filled(required[i])) &&
              (email.None? || CheckEmail(email.value) in {Blank, Corporate})
  {
    isValid := true;
    flagged := [];
    var i := 0;
    while i < |required|
      invariant 0 <= i <= |required|
      invariant forall k :: 0 <= k < |flagged| ==> flagged[k] < i && !Filled(required[flagged[k]])
      invariant forall j :: 0 <= j < i && !Filled(required[j]) ==> j in flagged
      invariant forall k, l :: 0 <= k < l < |flagged| ==> flagged[k] < flagged[l]
      invariant isValid <==> forall j :: 0 <= j < i ==> Filled(required[j])
    {
      var filled := match required[i]
        case Checkbox(checked) => checked
        case TextField(value) => !IsBlank(value);
      if !filled {
        flagged := flagged + [i];
        isValid := false;
      }
      i := i + 1;
    }
    emailMessage := None;
    if email.Some? && !IsBlank(email.value) {
      var verdict := CheckEmail(email.value);
      emailMessage := EmailMessage(verdict);
      if emailMessage.Some? {
        isValid := false;
      }
    }
  }
}
