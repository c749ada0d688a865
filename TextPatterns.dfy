/**
 * The string tests the contact form applies to its fields:
 * JavaScript's `String.prototype.trim`, and hand-written recognisers for the
 * two anchored regular expressions of the contact form
 *
 *   email:  ^[A-Z0-9._%+-]+@[A-Z0-9.-]+\.[A-Z]{2,}$      (flag i)
 *   mobile: ^[\+]?[(]?[0-9]{3}[)]?[-\s\.]?[0-9]{3}[-\s\.]?[0-9]{4,6}$
 *
 * Each expression's language is stated as the strings that some well-formed
 * parts render to (`IsEmail`, `IsMobile`). A parser into those parts decides
 * it: the parser is sound (its own postcondition) and complete (the
 * `ParseRender` lemmas), and the `test` methods the form calls run the parser.
 */
module TextPatterns {
  import opened Wrappers

  // ---------------------------------------------------------------------------
  // Character classes
  // ---------------------------------------------------------------------------

  /** ECMAScript WhiteSpace and LineTerminator: the set `trim()` strips and `\s` matches. */
  predicate IsJsWhitespace(c: char) {
    c == '\t' || c == '\n' || c == '\U{000B}' || c == '\U{000C}' || c == '\r' || c == ' '
    || c == '\U{00A0}' || c == '\U{1680}' || ('\U{2000}' <= c <= '\U{200A}')
    || c == '\U{2028}' || c == '\U{2029}' || c == '\U{202F}' || c == '\U{205F}'
    || c == '\U{3000}' || c == '\U{FEFF}'
  }

  predicate IsDigit(c: char) {
    '0' <= c <= '9'
  }

  /** `[A-Z]` under the `i` flag: non-ASCII letters never fold onto ASCII ones. */
  predicate IsAsciiLetter(c: char) {
    ('A' <= c <= 'Z') || ('a' <= c <= 'z')
  }

  /** `[A-Z0-9._%+-]` under the `i` flag. */
  predicate IsLocalChar(c: char) {
    IsAsciiLetter(c) || IsDigit(c) || c == '.' || c == '_' || c == '%' || c == '+' || c == '-'
  }

  /** `[A-Z0-9.-]` under the `i` flag. */
  predicate IsDomainChar(c: char) {
    IsAsciiLetter(c) || IsDigit(c) || c == '.' || c == '-'
  }

  /** `[-\s\.]` */
  predicate IsMobileSeparator(c: char) {
    c == '-' || IsJsWhitespace(c) || c == '.'
  }

  predicate IsBlank(s: string) {
    forall i :: 0 <= i < |s| ==> IsJsWhitespace(s[i])
  }

  predicate AllDigits(s: string) {
    forall i :: 0 <= i < |s| ==> IsDigit(s[i])
  }

  predicate AllLetters(s: string) {
    forall i :: 0 <= i < |s| ==> IsAsciiLetter(s[i])
  }

  predicate AllLocalChars(s: string) {
    forall i :: 0 <= i < |s| ==> IsLocalChar(s[i])
  }

  predicate AllDomainChars(s: string) {
    forall i :: 0 <= i < |s| ==> IsDomainChar(s[i])
  }

  // ---------------------------------------------------------------------------
  // trim()
  // ---------------------------------------------------------------------------

  /** Number of whitespace characters at the start of `s`. */
  function LeadingSpace(s: string): (n: nat)
    ensures n <= |s|
    ensures forall i :: 0 <= i < n ==> IsJsWhitespace(s[i])
    ensures n < |s| ==> !IsJsWhitespace(s[n])
  {
    if s != [] && IsJsWhitespace(s[0]) then 1 + LeadingSpace(s[1..]) else 0
  }

  /** Length of `s` without its trailing whitespace. */
  function TrailingSpaceStart(s: string): (n: nat)
    ensures n <= |s|
    ensures forall i :: n <= i < |s| ==> IsJsWhitespace(s[i])
    ensures n > 0 ==> !IsJsWhitespace(s[n - 1])
  {
    if s != [] && IsJsWhitespace(s[|s| - 1]) then TrailingSpaceStart(s[..|s| - 1]) else |s|
  }

  /**
   * `s.trim()`: leading whitespace dropped, then trailing whitespace dropped.
   * The result is the slice of `s` after its whitespace prefix (`LeadingSpace`);
   * it neither starts nor ends with whitespace, and only whitespace follows it.
   */
  function Trim(s: string): (r: string)
    ensures r != [] ==> !IsJsWhitespace(r[0]) && !IsJsWhitespace(r[|r| - 1])
    ensures LeadingSpace(s) + |r| <= |s| && r == s[LeadingSpace(s)..LeadingSpace(s) + |r|]
    ensures forall k :: LeadingSpace(s) + |r| <= k < |s| ==> IsJsWhitespace(s[k])
  {
    var n := LeadingSpace(s);
    var t := s[n..];
    var r := t[..TrailingSpaceStart(t)];
    assert r == s[n..n + |r|];
    assert forall k :: n + |r| <= k < |s| ==> s[k] == t[k - n];
    r
  }

  /** `!s.trim()` holds exactly when every character of `s` is whitespace. */
  lemma {:induction false} TrimEmptyIffBlank(s: string)
    ensures Trim(s) == [] <==> IsBlank(s)
  {
    var n := LeadingSpace(s);
    var t := s[n..];
    if IsBlank(s) {
      assert n == |s|;
    }
    if Trim(s) == [] {
      assert TrailingSpaceStart(t) == 0;
      assert n == |s|;
    }
  }

  /** `!s.trim()`: whether trimming leaves nothing, which happens exactly for a blank string. */
  method TrimsToEmpty(s: string) returns (empty: bool)
    ensures empty <==> IsBlank(s)
  {
    TrimEmptyIffBlank(s);
    empty := Trim(s) == [];
  }

  // ---------------------------------------------------------------------------
  // Email: ^[A-Z0-9._%+-]+@[A-Z0-9.-]+\.[A-Z]{2,}$  (flag i)
  // ---------------------------------------------------------------------------

  /** The three variable parts of an address: `local@domain.tld`. */
  datatype EmailParts = EmailParts(local: string, domain: string, tld: string)

  /** What each part of the regular expression demands of its part. */
  predicate EmailWellFormed(p: EmailParts) {
    |p.local| >= 1 && AllLocalChars(p.local)
    && |p.domain| >= 1 && AllDomainChars(p.domain)
    && |p.tld| >= 2 && AllLetters(p.tld)
  }

  function RenderEmail(p: EmailParts): string {
    p.local + "@" + p.domain + "." + p.tld
  }

  /** Length of the longest prefix of local-part characters. */
  function LocalRun(s: string): (n: nat)
    ensures n <= |s|
    ensures forall i :: 0 <= i < n ==> IsLocalChar(s[i])
    ensures n < |s| ==> !IsLocalChar(s[n])
  {
    if s != [] && IsLocalChar(s[0]) then 1 + LocalRun(s[1..]) else 0
  }

  /** Index of the last '.' of `s`, or -1 when there is none. */
  function LastDot(s: string): (k: int)
    ensures -1 <= k < |s|
    ensures k >= 0 ==> s[k] == '.'
    ensures forall j :: k < j < |s| ==> s[j] != '.'
  {
    if s == [] then -1
    else if s[|s| - 1] == '.' then |s| - 1
    else LastDot(s[..|s| - 1])
  }

  /** Splits what follows the '@' at its last '.'. */
  function ParseDomain(local: string, rest: string): (r: Option<EmailParts>)
    ensures r.Some? ==> EmailWellFormed(r.value) && r.value.local == local
                        && r.value.domain + "." + r.value.tld == rest
  {
    var dot := LastDot(rest);
    if dot < 0 then None
    else
      var p := EmailParts(local, rest[..dot], rest[dot + 1..]);
      assert rest == rest[..dot] + "." + rest[dot + 1..];
      if EmailWellFormed(p) then Some(p) else None
  }

  /**
   * Splits a candidate address. The local part cannot contain '@' and the
   * top-level domain cannot contain '.', so the '@' is the first character
   * that is not a local-part character and the final '.' is the last one.
   */
  function ParseEmail(s: string): (r: Option<EmailParts>)
    ensures r.Some? ==> EmailWellFormed(r.value) && RenderEmail(r.value) == s
  {
    var at := LocalRun(s);
    if at == |s| || s[at] != '@' then None
    else
      assert s == s[..at] + "@" + s[at + 1..];
      ParseDomain(s[..at], s[at + 1..])
  }

  /** The language of the email expression: the strings the contact form's email test accepts. */
  ghost predicate IsEmail(s: string) {
    exists p :: EmailWellFormed(p) && RenderEmail(p) == s
  }

  lemma {:induction false} LocalRunOf(local: string, rest: string)
    requires AllLocalChars(local) && rest != [] && !IsLocalChar(rest[0])
    ensures LocalRun(local + rest) == |local|
  {
    var s := local + rest;
    assert s[|local|] == rest[0];
    assert forall i :: 0 <= i < |local| ==> s[i] == local[i];
  }

  lemma {:induction false} LastDotOf(domain: string, tld: string)
    requires forall j :: 0 <= j < |tld| ==> tld[j] != '.'
    ensures LastDot(domain + "." + tld) == |domain|
  {
    var s := domain + "." + tld;
    var k := LastDot(s);
    assert s[|domain|] == '.';
    assert k >= |domain|;
    forall j | |domain| < j < |s| ensures s[j] != '.' {
      assert s[j] == tld[j - |domain| - 1];
    }
  }

  lemma {:induction false} ParseDomainOf(p: EmailParts)
    requires EmailWellFormed(p)
    ensures ParseDomain(p.local, p.domain + "." + p.tld) == Some(p)
  {
    var rest := p.domain + "." + p.tld;
    LastDotOf(p.domain, p.tld);
    assert rest[..|p.domain|] == p.domain;
    assert rest[|p.domain| + 1..] == p.tld;
  }

  /** Every well-formed address is accepted, and parses back into the same parts. */
  lemma {:induction false} ParseRenderEmail(p: EmailParts)
    requires EmailWellFormed(p)
    ensures ParseEmail(RenderEmail(p)) == Some(p)
  {
    var rest := p.domain + "." + p.tld;
    var s := RenderEmail(p);
    assert s == p.local + ("@" + rest);
    LocalRunOf(p.local, "@" + rest);
    assert s[|p.local|] == '@';
    assert s[..|p.local|] == p.local;
    assert s[|p.local| + 1..] == rest;
    ParseDomainOf(p);
  }

  /** The parser decides the language: it succeeds on exactly the strings of the email expression. */
  lemma {:induction false} EmailLanguage(s: string)
    ensures ParseEmail(s).Some? <==> IsEmail(s)
  {
    if IsEmail(s) {
      var p :| EmailWellFormed(p) && RenderEmail(p) == s;
      ParseRenderEmail(p);
    }
  }

  /** `emailRegex.test(s)`: runs the parser, which accepts exactly the expression's language. */
  method TestEmail(s: string) returns (ok: bool)
    ensures ok <==> IsEmail(s)
  {
    EmailLanguage(s);
    ok := ParseEmail(s).Some?;
  }

  lemma {:induction false} RenderedEmailOneAt(p: EmailParts)
    requires EmailWellFormed(p)
    ensures RenderEmail(p)[|p.local|] == '@'
    ensures forall j :: 0 <= j < |RenderEmail(p)| && j != |p.local| ==> RenderEmail(p)[j] != '@'
  {
    var s := RenderEmail(p);
    var k := |p.local|;
    var rest := p.domain + "." + p.tld;
    assert s == p.local + ("@" + rest);
    forall j | 0 <= j < |s| && j != k ensures s[j] != '@' {
      if j < k {
        assert s[j] == p.local[j];
      } else {
        assert s[j] == rest[j - k - 1];
        if j - k - 1 < |p.domain| {
          assert rest[j - k - 1] == p.domain[j - k - 1];
        } else if j - k - 1 > |p.domain| {
          assert rest[j - k - 1] == p.tld[j - k - 1 - |p.domain| - 1];
        }
      }
    }
  }

  /** An accepted address contains exactly one '@', with a local part before it and at least four characters after it. */
  lemma {:induction false} EmailHasOneAt(s: string)
    requires IsEmail(s)
    ensures exists k :: 0 < k && k + 4 < |s| && s[k] == '@' && forall j :: 0 <= j < |s| && s[j] == '@' ==> j == k
  {
    var p :| EmailWellFormed(p) && RenderEmail(p) == s;
    RenderedEmailOneAt(p);
    assert 0 < |p.local| && |p.local| + 4 < |s|;
  }

  /** A space before a valid address makes it invalid: the pattern is tested on the untrimmed value. */
  lemma {:induction false} PaddedEmailRejected(s: string)
    ensures !IsEmail(" " + s)
  {
    EmailLanguage(" " + s);
    assert (" " + s)[0] == ' ';
    assert LocalRun(" " + s) == 0;
  }

  // ---------------------------------------------------------------------------
  // Mobile: ^[\+]?[(]?[0-9]{3}[)]?[-\s\.]?[0-9]{3}[-\s\.]?[0-9]{4,6}$
  // ---------------------------------------------------------------------------

  /** The pieces of a phone number, one per element of the expression. */
  datatype MobileParts = MobileParts(
    plus: bool, open: bool, area: string, close: bool,
    sep1: string, exchange: string, sep2: string, subscriber: string)

  predicate OptionalSeparator(x: string) {
    |x| <= 1 && forall i :: 0 <= i < |x| ==> IsMobileSeparator(x[i])
  }

  predicate MobileWellFormed(p: MobileParts) {
    |p.area| == 3 && AllDigits(p.area)
    && OptionalSeparator(p.sep1)
    && |p.exchange| == 3 && AllDigits(p.exchange)
    && OptionalSeparator(p.sep2)
    && 4 <= |p.subscriber| <= 6 && AllDigits(p.subscriber)
  }

  function OptionalChar(present: bool, c: char): string {
    if present then [c] else []
  }

  /** The number from the first separator on. */
  function RenderLine(p: MobileParts): string {
    p.sep1 + (p.exchange + (p.sep2 + p.subscriber))
  }

  /** The number from the first digit group on. */
  function RenderGroups(p: MobileParts): string {
    p.area + (OptionalChar(p.close, ')') + RenderLine(p))
  }

  function RenderMobile(p: MobileParts): string {
    OptionalChar(p.plus, '+') + (OptionalChar(p.open, '(') + RenderGroups(p))
  }

  /** Consumes `c` if `s` starts with it. */
  function TakeChar(s: string, c: char): (r: (bool, string))
    ensures s == OptionalChar(r.0, c) + r.1
  {
    if s != [] && s[0] == c then (true, s[1..]) else (false, s)
  }

  /** Consumes one separator if `s` starts with one. */
  function TakeSeparator(s: string): (r: (string, string))
    ensures s == r.0 + r.1 && OptionalSeparator(r.0)
  {
    if s != [] && IsMobileSeparator(s[0]) then (s[..1], s[1..]) else ([], s)
  }

  /** `[0-9]{3}[-\s\.]?[0-9]{4,6}$`, after the first separator. */
  function ParseLine(plus: bool, open: bool, area: string, close: bool, sep1: string, s: string): (r: Option<MobileParts>)
    ensures r.Some? ==> MobileWellFormed(r.value) && RenderLine(r.value) == sep1 + s
    ensures r.Some? ==> r.value.plus == plus && r.value.open == open && r.value.area == area
                        && r.value.close == close && r.value.sep1 == sep1
  {
    if |s| < 3 then None
    else
      var rest := TakeSeparator(s[3..]);
      assert s == s[..3] + s[3..];
      var p := MobileParts(plus, open, area, close, sep1, s[..3], rest.0, rest.1);
      if MobileWellFormed(p) then Some(p) else None
  }

  /** `[0-9]{3}[)]?[-\s\.]?...`, from the first digit group on. */
  function ParseGroups(plus: bool, open: bool, s: string): (r: Option<MobileParts>)
    ensures r.Some? ==> MobileWellFormed(r.value) && RenderGroups(r.value) == s
    ensures r.Some? ==> r.value.plus == plus && r.value.open == open
  {
    if |s| < 3 then None
    else
      var close := TakeChar(s[3..], ')');
      var sep := TakeSeparator(close.1);
      assert s == s[..3] + s[3..];
      ParseLine(plus, open, s[..3], close.0, sep.0, sep.1)
  }

  /**
   * Matches the mobile expression left to right. Every optional element's
   * class is disjoint from everything that may follow it, so taking each
   * optional character when present is the only way a match can go.
   */
  function ParseMobile(s: string): (r: Option<MobileParts>)
    ensures r.Some? ==> MobileWellFormed(r.value) && RenderMobile(r.value) == s
  {
    var plus := TakeChar(s, '+');
    var open := TakeChar(plus.1, '(');
    ParseGroups(plus.0, open.0, open.1)
  }

  /** The language of the mobile expression: the strings the contact form's mobile test accepts. */
  ghost predicate IsMobile(s: string) {
    exists p :: MobileWellFormed(p) && RenderMobile(p) == s
  }

  lemma {:induction false} TakeCharOf(present: bool, c: char, rest: string)
    requires present || rest == [] || rest[0] != c
    ensures TakeChar(OptionalChar(present, c) + rest, c) == (present, rest)
  {
    if present {
      assert ([c] + rest)[1..] == rest;
    } else {
      assert OptionalChar(present, c) + rest == rest;
    }
  }

  lemma {:induction false} TakeSeparatorOf(sep: string, rest: string)
    requires OptionalSeparator(sep)
    requires sep != [] || rest == [] || !IsMobileSeparator(rest[0])
    ensures TakeSeparator(sep + rest) == (sep, rest)
  {
    if sep != [] {
      assert (sep + rest)[..1] == sep;
      assert (sep + rest)[1..] == rest;
    } else {
      assert sep + rest == rest;
    }
  }

  lemma {:induction false} ParseLineOf(p: MobileParts)
    requires MobileWellFormed(p)
    ensures ParseLine(p.plus, p.open, p.area, p.close, p.sep1, p.exchange + (p.sep2 + p.subscriber)) == Some(p)
  {
    var s := p.exchange + (p.sep2 + p.subscriber);
    assert s[..3] == p.exchange && s[3..] == p.sep2 + p.subscriber;
    TakeSeparatorOf(p.sep2, p.subscriber);
  }

  lemma {:induction false} ParseGroupsOf(p: MobileParts)
    requires MobileWellFormed(p)
    ensures ParseGroups(p.plus, p.open, RenderGroups(p)) == Some(p)
  {
    var line := RenderLine(p);
    var tail := p.exchange + (p.sep2 + p.subscriber);
    var s := RenderGroups(p);
    assert s[..3] == p.area && s[3..] == OptionalChar(p.close, ')') + line;
    assert tail[0] == p.exchange[0];
    assert p.sep1 == [] ==> line[0] == p.exchange[0];
    assert line != [];
    TakeCharOf(p.close, ')', line);
    TakeSeparatorOf(p.sep1, tail);
    ParseLineOf(p);
  }

  /** Every well-formed phone number is accepted, and parses back into the same parts. */
  lemma {:induction false} ParseRenderMobile(p: MobileParts)
    requires MobileWellFormed(p)
    ensures ParseMobile(RenderMobile(p)) == Some(p)
  {
    var groups := RenderGroups(p);
    var afterPlus := OptionalChar(p.open, '(') + groups;
    assert groups[0] == p.area[0];
    assert afterPlus != [] && (!p.open ==> afterPlus[0] == p.area[0]);
    TakeCharOf(p.plus, '+', afterPlus);
    TakeCharOf(p.open, '(', groups);
    ParseGroupsOf(p);
  }

  /** The parser decides the language: it succeeds on exactly the strings of the mobile expression. */
  lemma {:induction false} MobileLanguage(s: string)
    ensures ParseMobile(s).Some? <==> IsMobile(s)
  {
    if IsMobile(s) {
      var p :| MobileWellFormed(p) && RenderMobile(p) == s;
      ParseRenderMobile(p);
    }
  }

  /** `mobileRegex.test(s)`: runs the parser, which accepts exactly the expression's language. */
  method TestMobile(s: string) returns (ok: bool)
    ensures ok <==> IsMobile(s)
  {
    MobileLanguage(s);
    ok := ParseMobile(s).Some?;
  }

  /** Number of decimal digits in `s`. */
  function DigitCount(s: string): (n: nat)
    ensures n <= |s|
  {
    if s == [] then 0 else (if IsDigit(s[0]) then 1 else 0) + DigitCount(s[1..])
  }

  lemma {:induction false} DigitCountAppend(a: string, b: string)
    ensures DigitCount(a + b) == DigitCount(a) + DigitCount(b)
  {
    if a == [] {
      assert a + b == b;
    } else {
      assert (a + b)[0] == a[0];
      assert (a + b)[1..] == a[1..] + b;
      DigitCountAppend(a[1..], b);
    }
  }

  lemma {:induction false} DigitCountAllDigits(s: string)
    requires AllDigits(s)
    ensures DigitCount(s) == |s|
  {
    if s != [] {
      DigitCountAllDigits(s[1..]);
    }
  }

  lemma {:induction false} DigitCountNoDigits(s: string)
    requires forall i :: 0 <= i < |s| ==> !IsDigit(s[i])
    ensures DigitCount(s) == 0
  {
    if s != [] {
      DigitCountNoDigits(s[1..]);
    }
  }

  /** The characters an accepted number may hold after its optional leading '+'. */
  predicate IsMobileBodyChar(c: char) {
    IsDigit(c) || c == '(' || c == ')' || IsMobileSeparator(c)
  }

  predicate AllMobileBodyChars(s: string) {
    forall i :: 0 <= i < |s| ==> IsMobileBodyChar(s[i])
  }

  lemma {:induction false} AllMobileBodyCharsAppend(a: string, b: string)
    requires AllMobileBodyChars(a) && AllMobileBodyChars(b)
    ensures AllMobileBodyChars(a + b)
  {
    forall i | 0 <= i < |a + b| ensures IsMobileBodyChar((a + b)[i]) {
      if i < |a| {
        assert (a + b)[i] == a[i];
      } else {
        assert (a + b)[i] == b[i - |a|];
      }
    }
  }

  lemma {:induction false} RenderedLineShape(p: MobileParts)
    requires MobileWellFormed(p)
    ensures 7 <= DigitCount(RenderLine(p)) <= 9
    ensures AllMobileBodyChars(RenderLine(p))
  {
    DigitCountAppend(p.sep2, p.subscriber);
    DigitCountAppend(p.exchange, p.sep2 + p.subscriber);
    DigitCountAppend(p.sep1, p.exchange + (p.sep2 + p.subscriber));
    DigitCountAllDigits(p.exchange);
    DigitCountAllDigits(p.subscriber);
    DigitCountNoDigits(p.sep1);
    DigitCountNoDigits(p.sep2);
    AllMobileBodyCharsAppend(p.sep2, p.subscriber);
    AllMobileBodyCharsAppend(p.exchange, p.sep2 + p.subscriber);
    AllMobileBodyCharsAppend(p.sep1, p.exchange + (p.sep2 + p.subscriber));
  }

  lemma {:induction false} RenderedGroupsShape(p: MobileParts)
    requires MobileWellFormed(p)
    ensures 10 <= DigitCount(OptionalChar(p.open, '(') + RenderGroups(p)) <= 12
    ensures AllMobileBodyChars(OptionalChar(p.open, '(') + RenderGroups(p))
  {
    var open, close := OptionalChar(p.open, '('), OptionalChar(p.close, ')');
    RenderedLineShape(p);
    DigitCountAppend(close, RenderLine(p));
    DigitCountAppend(p.area, close + RenderLine(p));
    DigitCountAppend(open, RenderGroups(p));
    DigitCountAllDigits(p.area);
    DigitCountNoDigits(open);
    DigitCountNoDigits(close);
    AllMobileBodyCharsAppend(close, RenderLine(p));
    AllMobileBodyCharsAppend(p.area, close + RenderLine(p));
    AllMobileBodyCharsAppend(open, RenderGroups(p));
  }

  lemma {:induction false} RenderedMobileShape(p: MobileParts)
    requires MobileWellFormed(p)
    ensures 10 <= DigitCount(RenderMobile(p)) <= 12
    ensures forall i :: 0 <= i < |RenderMobile(p)| && RenderMobile(p)[i] == '+' ==> i == 0
    ensures forall i :: 0 < i < |RenderMobile(p)| ==> IsMobileBodyChar(RenderMobile(p)[i])
  {
    var s := RenderMobile(p);
    var plus := OptionalChar(p.plus, '+');
    var body := OptionalChar(p.open, '(') + RenderGroups(p);
    RenderedGroupsShape(p);
    DigitCountAppend(plus, body);
    DigitCountNoDigits(plus);
    forall i | |plus| <= i < |s| ensures IsMobileBodyChar(s[i]) {
      assert s[i] == body[i - |plus|];
    }
  }

  /**
   * An accepted number has 10 to 12 digits; a '+' can only be its first
   * character, and every other non-digit is a parenthesis, '-', '.' or whitespace.
   */
  lemma {:induction false} MobileShape(s: string)
    requires IsMobile(s)
    ensures 10 <= DigitCount(s) <= 12
    ensures forall i :: 0 <= i < |s| && s[i] == '+' ==> i == 0
    ensures forall i :: 0 < i < |s| ==> IsMobileBodyChar(s[i])
  {
    var p :| MobileWellFormed(p) && RenderMobile(p) == s;
    RenderedMobileShape(p);
  }

  // ---------------------------------------------------------------------------
  // Worked examples
  // ---------------------------------------------------------------------------

  /** Only one '+' and one '(' may precede the first group, so a country code before "(555)" is refused. */
  lemma {:induction false} CountryCodeMobileRejected()
    ensures !IsMobile("+1 (555) 123-4567")
  {
    var s := "+1 (555) 123-4567";
    MobileLanguage(s);
    assert TakeChar(s, '+') == (true, s[1..]);
    assert TakeChar(s[1..], '(') == (false, s[1..]);
    assert s[1..][..3][1] == ' ';
  }

  lemma {:induction false} MobileWithAreaCodeAccepted()
    ensures IsMobile("(555) 123-4567")
  {
    var p := MobileParts(false, true, "555", true, " ", "123", "-", "4567");
    assert RenderLine(p) == " 123-4567";
    assert RenderGroups(p) == "555) 123-4567";
    assert RenderMobile(p) == "(555) 123-4567";
  }

  lemma {:induction false} MobileWithPlusAccepted()
    ensures IsMobile("+555.123.456789")
  {
    var p := MobileParts(true, false, "555", false, ".", "123", ".", "456789");
    assert RenderLine(p) == ".123.456789";
    assert RenderGroups(p) == "555.123.456789";
    assert RenderMobile(p) == "+555.123.456789";
  }

  /** The two parentheses are optional independently of each other, so an unclosed one is accepted. */
  lemma {:induction false} UnclosedParenthesisAccepted()
    ensures IsMobile("(555 123-4567")
  {
    var p := MobileParts(false, true, "555", false, " ", "123", "-", "4567");
    assert RenderLine(p) == " 123-4567";
    assert RenderGroups(p) == "555 123-4567";
    assert RenderMobile(p) == "(555 123-4567";
  }

  lemma {:induction false} ShortMobileRejected()
    ensures !IsMobile("123")
  {
    MobileLanguage("123");
    assert TakeChar("123", '+') == (false, "123");
    assert TakeChar("123", '(') == (false, "123");
    assert "123"[3..] == [];
  }

  lemma {:induction false} SimpleEmailAccepted()
    ensures IsEmail("a@b.com")
  {
    var p := EmailParts("a", "b", "com");
    assert RenderEmail(p) == "a@b.com";
  }

  lemma {:induction false} EmailWithoutAtRejected()
    ensures !IsEmail("bad")
  {
    EmailLanguage("bad");
    assert LocalRun("bad") == 3;
  }

  lemma {:induction false} OneLetterTldRejected()
    ensures !IsEmail("a@b.c")
  {
    EmailLanguage("a@b.c");
    assert LocalRun("a@b.c") == 1;
    assert "a@b.c"[2..] == "b.c";
    assert LastDot("b.c") == 1;
    assert "b.c"[2..] == "c";
  }
}
