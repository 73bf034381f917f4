/** The input rules the account and contact forms share: the character-class
    filters applied while typing, the four password-strength flags, and the
    email pattern. Each page of the source repeats these regular
    expressions; they are defined once here. */
module Validators {
  import opened Common

  // ---------------------------------------------------------------------------
  // Typing filters
  // ---------------------------------------------------------------------------

  /** `/^[A-Za-z\s]*$/`: letters and whitespace only. */
  predicate NameOk(v: string) {
    forall i :: 0 <= i < |v| ==> IsAsciiLetter(v[i]) || IsJsWhitespace(v[i])
  }

  /** A character of `/^[A-Za-z\s&'-]*$/`. */
  predicate CompanyTitleChar(c: char) {
    IsAsciiLetter(c) || IsJsWhitespace(c) || c == '&' || c == '\'' || c == '-'
  }

  /** `/^[A-Za-z\s&'-]*$/`: letters, whitespace, `&`, `'` and `-`. */
  predicate CompanyTitleOk(v: string) {
    forall i :: 0 <= i < |v| ==> CompanyTitleChar(v[i])
  }

  /** `/^[0-9]*$/.test(v) && v.length <= 11`. */
  predicate PhoneOk(v: string) {
    (forall i :: 0 <= i < |v| ==> IsDigit(v[i])) && Utf16Length(v) <= 11
  }

  /** Every name is an acceptable company or title. */
  lemma NameCharsAreCompanyTitleChars(v: string)
    requires NameOk(v)
    ensures CompanyTitleOk(v)
  {
  }

  /** A phone number of digits is measured in characters. */
  lemma PhoneLengthIsCharCount(v: string)
    requires forall i :: 0 <= i < |v| ==> IsDigit(v[i])
    ensures PhoneOk(v) <==> |v| <= 11
  {
  }

  // ---------------------------------------------------------------------------
  // Password strength
  // ---------------------------------------------------------------------------

  /** The four character classes a password is tested for. */
  datatype CharClass = Upper | Digit | Special

  /** `[!@#$%^&*]` */
  predicate IsSpecial(c: char) {
    c == '!' || c == '@' || c == '#' || c == '$' || c == '%' || c == '^' || c == '&' || c == '*'
  }

  predicate InClass(c: char, k: CharClass) {
    match k
    case Upper => IsUpper(c)
    case Digit => IsDigit(c)
    case Special => IsSpecial(c)
  }

  /** `/[...]/.test(s)`: a scan for a character of the class. */
  function HasClass(s: string, k: CharClass): (b: bool)
    ensures b <==> exists i :: 0 <= i < |s| && InClass(s[i], k)
  {
    if s == [] then false
    else if InClass(s[0], k) then true
    else
      var rest := HasClass(s[1..], k);
      assert forall i :: 0 < i < |s| ==> s[i] == s[1..][i - 1];
      rest
  }

  /** The indicator flags `validatePassword` sets. */
  datatype PasswordFlags = PasswordFlags(minLength: bool, hasUpperCase: bool, hasNumber: bool, hasSpecial: bool)

  /** The flags before anything is typed. */
  const NoFlags := PasswordFlags(false, false, false, false)

  /** `validatePassword`: at least 8 UTF-16 units, an upper-case letter, a
      digit and one of `!@#$%^&*`. */
  function ValidatePassword(p: string): (f: PasswordFlags)
    ensures f.minLength <==> Utf16Length(p) >= 8
    ensures f.hasUpperCase <==> exists i :: 0 <= i < |p| && IsUpper(p[i])
    ensures f.hasNumber <==> exists i :: 0 <= i < |p| && IsDigit(p[i])
    ensures f.hasSpecial <==> exists i :: 0 <= i < |p| && IsSpecial(p[i])
  {
    PasswordFlags(Utf16Length(p) >= 8, HasClass(p, Upper), HasClass(p, Digit), HasClass(p, Special))
  }

  /** `isPasswordValid`: every flag is set. */
  predicate IsPasswordValid(f: PasswordFlags) {
    f.minLength && f.hasUpperCase && f.hasNumber && f.hasSpecial
  }

  /** A password is valid exactly when it meets all four requirements. */
  lemma PasswordValidIff(p: string)
    ensures IsPasswordValid(ValidatePassword(p)) <==>
              && Utf16Length(p) >= 8
              && (exists i :: 0 <= i < |p| && IsUpper(p[i]))
              && (exists i :: 0 <= i < |p| && IsDigit(p[i]))
              && (exists i :: 0 <= i < |p| && IsSpecial(p[i]))
  {
  }

  /** The empty password raises no flag, so resetting the form and resetting
      the flags agree. */
  lemma EmptyPasswordHasNoFlags()
    ensures ValidatePassword("") == NoFlags
  {
  }

  // ---------------------------------------------------------------------------
  // Email pattern
  // ---------------------------------------------------------------------------

  /** A character of `[^\s@]`. */
  predicate EmailChar(c: char) {
    !IsJsWhitespace(c) && c != '@'
  }

  /** A non-empty run of `[^\s@]`. */
  predicate EmailPart(s: string) {
    |s| > 0 && forall i :: 0 <= i < |s| ==> EmailChar(s[i])
  }

  /** What `/^[^\s@]+@[^\s@]+\.[^\s@]+$/` accepts: some local part, `@`, some
      domain, `.`, some top-level part, each a non-empty run without
      whitespace or `@` (the domain and the top-level part may hold dots). */
  ghost predicate EmailPattern(s: string) {
    exists a, d :: 0 < a < d < |s| - 1 && s[a] == '@' && s[d] == '.'
                   && EmailPart(s[..a]) && EmailPart(s[a + 1..d]) && EmailPart(s[d + 1..])
  }

  /** A dot strictly inside `r`, neither first nor last. */
  function InnerDot(r: string): (k: int)
    ensures k == -1 <==> forall j :: 0 < j < |r| - 1 ==> r[j] != '.'
    ensures k != -1 ==> 0 < k < |r| - 1 && r[k] == '.'
  {
    if |r| < 3 then -1
    else
      var j := IndexOfChar(r[1..|r| - 1], '.');
      if j == -1 then
        assert forall i :: 0 < i < |r| - 1 ==> r[i] == r[1..|r| - 1][i - 1];
        -1
      else
        assert r[j + 1] == r[1..|r| - 1][j];
        j + 1
  }

  /** The email test as a scan: no whitespace, exactly one `@`, not first,
      and a dot strictly inside what follows it. */
  function CheckEmail(s: string): (b: bool) {
    var at := IndexOfChar(s, '@');
    && (forall i :: 0 <= i < |s| ==> !IsJsWhitespace(s[i]))
    && at > 0
    && '@' !in s[at + 1..]
    && InnerDot(s[at + 1..]) != -1
  }

  /** Every slice of a string without whitespace or `@` is such a run, when
      non-empty. */
  lemma SliceIsEmailPart(s: string, lo: int, hi: int)
    requires 0 <= lo < hi <= |s|
    requires forall i :: lo <= i < hi ==> EmailChar(s[i])
    ensures EmailPart(s[lo..hi])
  {
    var p := s[lo..hi];
    forall i | 0 <= i < |p| ensures EmailChar(p[i]) {
      assert p[i] == s[lo + i];
    }
  }

  /** With no whitespace anywhere and no `@` on either side of index `at`,
      every other character may appear in an email part. */
  lemma EmailCharsAroundAt(s: string, at: int)
    requires 0 <= at < |s|
    requires forall i :: 0 <= i < |s| ==> !IsJsWhitespace(s[i])
    requires '@' !in s[..at] && '@' !in s[at + 1..]
    ensures forall i :: 0 <= i < |s| && i != at ==> EmailChar(s[i])
  {
    forall i | 0 <= i < |s| && i != at ensures EmailChar(s[i]) {
      if i < at {
        assert s[i] == s[..at][i];
      } else {
        assert s[i] == s[at + 1..][i - at - 1];
      }
    }
  }

  /** What the scan accepts, the pattern accepts. */
  lemma CheckEmailSound(s: string)
    requires CheckEmail(s)
    ensures EmailPattern(s)
  {
    var at := IndexOfChar(s, '@');
    var r := s[at + 1..];
    var k := InnerDot(r);
    var d := at + 1 + k;
    assert s[d] == r[k];
    EmailCharsAroundAt(s, at);
    SliceIsEmailPart(s, 0, at);
    SliceIsEmailPart(s, at + 1, d);
    SliceIsEmailPart(s, d + 1, |s|);
    assert s[..at] == s[0..at];
    assert s[d + 1..] == s[d + 1..|s|];
  }

  /** A pattern match holds no whitespace, and no `@` but its separator. */
  lemma PatternPartsAreEmailChars(s: string, a: int, d: int)
    requires 0 < a < d < |s| - 1 && s[a] == '@' && s[d] == '.'
    requires EmailPart(s[..a]) && EmailPart(s[a + 1..d]) && EmailPart(s[d + 1..])
    ensures forall i :: 0 <= i < |s| ==> !IsJsWhitespace(s[i])
    ensures forall i :: 0 <= i < |s| && i != a ==> s[i] != '@'
  {
    forall i | 0 <= i < |s| && i != a && i != d ensures EmailChar(s[i]) {
      if i < a { assert s[i] == s[..a][i]; }
      else if i < d { assert s[i] == s[a + 1..d][i - a - 1]; }
      else { assert s[i] == s[d + 1..][i - d - 1]; }
    }
  }

  /** The only `@` of a pattern match is its separator. */
  lemma PatternSeparatorIsFirstAt(s: string, a: int)
    requires 0 <= a < |s| && s[a] == '@'
    requires forall i :: 0 <= i < |s| && i != a ==> s[i] != '@'
    ensures IndexOfChar(s, '@') == a
    ensures '@' !in s[a + 1..]
  {
    assert '@' !in s[..a] by {
      forall j | 0 <= j < a ensures s[..a][j] != '@' { assert s[..a][j] == s[j]; }
    }
    var r := s[a + 1..];
    assert '@' !in r by {
      forall j | 0 <= j < |r| ensures r[j] != '@' { assert r[j] == s[a + 1 + j]; }
    }
  }

  /** What the pattern accepts, the scan accepts. */
  lemma CheckEmailComplete(s: string)
    requires EmailPattern(s)
    ensures CheckEmail(s)
  {
    var a, d :| 0 < a < d < |s| - 1 && s[a] == '@' && s[d] == '.'
                && EmailPart(s[..a]) && EmailPart(s[a + 1..d]) && EmailPart(s[d + 1..]);
    PatternPartsAreEmailChars(s, a, d);
    PatternSeparatorIsFirstAt(s, a);
    var r := s[a + 1..];
    assert r[d - a - 1] == '.';
    assert InnerDot(r) != -1;
  }

  /** The scan accepts exactly the strings the pattern accepts. */
  lemma CheckEmailMatchesPattern(s: string)
    ensures CheckEmail(s) <==> EmailPattern(s)
  {
    if CheckEmail(s) { CheckEmailSound(s); }
    if EmailPattern(s) { CheckEmailComplete(s); }
  }
}
