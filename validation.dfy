/**
 * The three field validators of the contact form. Each trims its input and
 * answers valid, or invalid with one of two messages chosen in a fixed order:
 * first "empty", then "too short" or "bad format".
 */
module Validation {
  import opened Wrappers
  import opened Strings

  /** Whether a field is valid, and the inline error text shown under it
      (empty when valid). */
  datatype ValidationResult = ValidationResult(valid: bool, error: string)

  const Valid := ValidationResult(true, "")

  const NameRequired := "Name is required."
  const NameTooShort := "Use at least 2 characters."
  const EmailRequired := "Email is required."
  const EmailMalformed := "Enter a valid email address."
  const MessageRequired := "Message is required."
  const MessageTooShort := "Message is too short."

  const MinNameLength := 2
  const MinMessageLength := 6

  // ---------------------------------------------------------------------
  // The email pattern /^[^\s@]+@[^\s@]+\.[^\s@]+$/
  // ---------------------------------------------------------------------

  /** A character of the class `[^\s@]`. */
  predicate IsPlain(c: char) {
    c != '@' && !IsWhitespace(c)
  }

  /** `t` matches `[^\s@]*`. */
  predicate AllPlain(t: string) {
    forall j :: 0 <= j < |t| ==> IsPlain(t[j])
  }

  /** `s` is `local + "@" + domain + "." + tld` with the `@` at `i` and the
      `.` at `k`, each of the three parts non-empty and in `[^\s@]+`. */
  ghost predicate SplitsAt(s: string, i: int, k: int) {
    0 < i && i + 1 < k && k + 1 < |s| && s[i] == '@' && s[k] == '.'
    && AllPlain(s[..i]) && AllPlain(s[i + 1..k]) && AllPlain(s[k + 1..])
  }

  /** The language of the email regular expression, as the regex reads. */
  ghost predicate IsEmailShape(s: string) {
    exists i, k :: SplitsAt(s, i, k)
  }

  /** Position of the first occurrence of `c` in `s`. */
  function FirstIndexOf(s: string, c: char): (r: Option<nat>)
    ensures r.None? <==> c !in s
    ensures r.Some? ==> r.value < |s| && s[r.value] == c && c !in s[..r.value]
  {
    if s == [] then None
    else if s[0] == c then Some(0)
    else match FirstIndexOf(s[1..], c)
      case None => None
      case Some(j) =>
        assert s[..j + 1] == [s[0]] + s[1..][..j];
        Some(j + 1)
  }

  /** A position holding `c` with no `c` before it is the first index of `c`. */
  lemma FirstIndexOfAt(s: string, c: char, i: nat)
    requires i < |s| && s[i] == c && c !in s[..i]
    ensures FirstIndexOf(s, c) == Some(i)
  {
  }

  /** `t` has a `.` that is neither its first nor its last character. */
  predicate HasInnerDot(t: string) {
    exists k :: 1 <= k < |t| - 1 && t[k] == '.'
  }

  /** How the pattern is matched: there is exactly one `@` (neither part may
      hold another), so split at the first one; the part before it must be a
      non-empty run of `[^\s@]`, and the part after it a run of `[^\s@]` with a
      dot inside it. */
  predicate MatchesEmailPattern(s: string) {
    match FirstIndexOf(s, '@')
    case None => false
    case Some(i) =>
      0 < i && AllPlain(s[..i]) && AllPlain(s[i + 1..]) && HasInnerDot(s[i + 1..])
  }

  /** Every string the split-at-the-first-`@` test accepts is in the regex's language. */
  lemma MatchesEmailPatternSound(s: string)
    requires MatchesEmailPattern(s)
    ensures IsEmailShape(s)
  {
    var i := FirstIndexOf(s, '@').value;
    var t := s[i + 1..];
    var k :| 1 <= k < |t| - 1 && t[k] == '.';
    var kk := i + 1 + k;
    assert s[i + 1..kk] == t[..k];
    assert s[kk + 1..] == t[k + 1..];
    assert SplitsAt(s, i, kk);
  }

  /** Every string in the regex's language passes the split-at-the-first-`@` test. */
  lemma MatchesEmailPatternComplete(s: string, i: int, k: int)
    requires SplitsAt(s, i, k)
    ensures MatchesEmailPattern(s)
  {
    assert '@' !in s[..i] by {
      forall j | 0 <= j < i ensures s[..i][j] != '@' { assert IsPlain(s[..i][j]); }
    }
    FirstIndexOfAt(s, '@', i);
    var t := s[i + 1..];
    assert AllPlain(t) by {
      forall j | 0 <= j < |t| ensures IsPlain(t[j]) {
        if j < k - i - 1 { assert t[j] == s[i + 1..k][j]; }
        else if j > k - i - 1 { assert t[j] == s[k + 1..][j - (k - i)]; }
      }
    }
    assert t[k - i - 1] == '.';
  }

  /** The split-at-the-first-`@` test accepts exactly the language of the regex. */
  lemma MatchesEmailPatternIffShape(s: string)
    ensures MatchesEmailPattern(s) <==> IsEmailShape(s)
  {
    if MatchesEmailPattern(s) {
      MatchesEmailPatternSound(s);
    }
    if IsEmailShape(s) {
      var i, k :| SplitsAt(s, i, k);
      MatchesEmailPatternComplete(s, i, k);
    }
  }

  /** The shortest address, `a@b.c`, has five characters. */
  lemma EmailShapeLength(s: string)
    requires IsEmailShape(s)
    ensures |s| >= 5
  {
    var i, k :| SplitsAt(s, i, k);
  }

  // ---------------------------------------------------------------------
  // Validators
  // ---------------------------------------------------------------------

  /** `validateName`: valid iff the trimmed name has at least 2 characters. */
  function ValidateName(raw: string): (r: ValidationResult)
    ensures r.valid <==> |Trim(raw)| >= MinNameLength
    ensures r.valid <==> r.error == ""
    ensures AllWhitespace(raw) ==> r.error == NameRequired
    ensures 0 < |Trim(raw)| < MinNameLength ==> r.error == NameTooShort
  {
    var v := Trim(raw);
    if v == [] then ValidationResult(false, NameRequired)
    else if |v| < MinNameLength then ValidationResult(false, NameTooShort)
    else Valid
  }

  /** `validateEmail`: valid iff the trimmed address matches the pattern
      `local@domain.tld`; an empty address is reported before a malformed one. */
  function ValidateEmail(raw: string): (r: ValidationResult)
    ensures r.valid <==> IsEmailShape(Trim(raw))
    ensures r.valid <==> r.error == ""
    ensures AllWhitespace(raw) ==> r.error == EmailRequired
    ensures !AllWhitespace(raw) && !r.valid ==> r.error == EmailMalformed
  {
    var v := Trim(raw);
    MatchesEmailPatternIffShape(v);
    if v == [] then ValidationResult(false, EmailRequired)
    else if !MatchesEmailPattern(v) then ValidationResult(false, EmailMalformed)
    else Valid
  }

  /** `validateMessage`: valid iff the trimmed message has at least 6 characters. */
  function ValidateMessage(raw: string): (r: ValidationResult)
    ensures r.valid <==> |Trim(raw)| >= MinMessageLength
    ensures r.valid <==> r.error == ""
    ensures AllWhitespace(raw) ==> r.error == MessageRequired
    ensures 0 < |Trim(raw)| < MinMessageLength ==> r.error == MessageTooShort
  {
    var v := Trim(raw);
    if v == [] then ValidationResult(false, MessageRequired)
    else if |v| < MinMessageLength then ValidationResult(false, MessageTooShort)
    else Valid
  }

  /** Surrounding whitespace never changes a verdict: each validator sees only
      the trimmed text. */
  lemma ValidatorsIgnoreSurroundingWhitespace(a: string, b: string)
    requires Trim(a) == Trim(b)
    ensures ValidateName(a) == ValidateName(b)
    ensures ValidateEmail(a) == ValidateEmail(b)
    ensures ValidateMessage(a) == ValidateMessage(b)
  {
  }

  /** `b@c.de` is a valid address. */
  lemma EmailSampleValid()
    ensures ValidateEmail("b@c.de").valid
  {
    TrimUntrimmed("b@c.de");
    assert SplitsAt("b@c.de", 1, 3);
  }

  /** `x` and `a@.b` are malformed (the domain of `a@.b` would be empty), and
      a blank address is reported as missing. */
  lemma EmailSamplesInvalid()
    ensures ValidateEmail("x").error == EmailMalformed
    ensures ValidateEmail("a@.b").error == EmailMalformed
    ensures ValidateEmail(" \t").error == EmailRequired
  {
    TrimUntrimmed("x");
    if IsEmailShape("x") { EmailShapeLength("x"); }
    TrimUntrimmed("a@.b");
    if IsEmailShape("a@.b") { EmailShapeLength("a@.b"); }
    assert AllWhitespace(" \t");
  }
}
