/** The server-side input checks `validateEmail` and `validatePassword`.
    Both edge functions carry the same two definitions, word for word. */
module Validators {
  import opened JsValues

  /** `\s` of a JavaScript regular expression: the ECMAScript white-space
      and line-terminator characters. */
  predicate IsWhitespace(c: char)
  {
    || c == '\t' || c == '\n' || c == '\U{000B}' || c == '\U{000C}' || c == '\r' || c == ' '
    || c == '\U{00A0}' || c == '\U{1680}' || ('\U{2000}' <= c <= '\U{200A}')
    || c == '\U{2028}' || c == '\U{2029}' || c == '\U{202F}' || c == '\U{205F}'
    || c == '\U{3000}' || c == '\U{FEFF}'
  }

  /** Every character of s[lo..hi] matches `\S`. */
  predicate NonSpace(s: string, lo: int, hi: int)
    requires 0 <= lo <= hi <= |s|
  {
    forall k | lo <= k < hi :: !IsWhitespace(s[k])
  }

  /** The pattern `\S+@\S+\.\S+` matches s[i..j], with its `@` at `at` and
      its `.` at `dot`. */
  ghost predicate MatchAt(s: string, i: int, at: int, dot: int, j: int)
  {
    && 0 <= i < at && at + 1 < dot && dot + 1 < j <= |s|
    && NonSpace(s, i, at) && s[at] == '@'
    && NonSpace(s, at + 1, dot) && s[dot] == '.'
    && NonSpace(s, dot + 1, j)
  }

  /** `/\S+@\S+\.\S+/.test(s)`: the pattern is unanchored, so it holds when
      some substring of s matches. */
  ghost predicate EmailRegexMatches(s: string)
  {
    exists i, at, dot, j :: MatchAt(s, i, at, dot, j)
  }

  /** The shortest match around an `@` at `at` and a `.` at `dot`: one
      non-space character on each side of the `@`-and-`.` stretch. */
  predicate ShortestMatchAt(s: string, at: int, dot: int)
  {
    && 0 < at && at + 1 < dot && dot + 1 < |s|
    && !IsWhitespace(s[at - 1]) && s[at] == '@'
    && NonSpace(s, at + 1, dot) && s[dot] == '.'
    && !IsWhitespace(s[dot + 1])
  }

  /** Some `@` and `.` have the shortest match around them. */
  predicate HasShortestMatch(s: string)
  {
    exists at, dot | 0 <= at < dot < |s| :: ShortestMatchAt(s, at, dot)
  }

  /** `validateEmail`: exactly the unanchored regular-expression test. */
  function ValidateEmail(email: string): (ok: bool)
    ensures ok <==> EmailRegexMatches(email)
  {
    ShortestMatchIsRegexMatch(email);
    HasShortestMatch(email)
  }

  const MinPasswordLength := 8

  /** `validatePassword`: length only; the stronger rules of the sign-up
      form are not enforced here. A password that passes is never falsy. */
  function ValidatePassword(password: string): (ok: bool)
    ensures ok <==> |password| >= MinPasswordLength
    ensures ok ==> Truthy(Some(password))
  {
    |password| >= MinPasswordLength
  }

  /** `!email || !password` fails, then the email check, then the password check. */
  predicate AcceptsCredentials(email: Option<string>, password: Option<string>)
  {
    && Truthy(email) && Truthy(password)
    && ValidateEmail(email.value) && ValidatePassword(password.value)
  }

  /** Looking for the shortest match is enough: the regular expression
      matches somewhere exactly when it matches one character on each side. */
  lemma ShortestMatchIsRegexMatch(s: string)
    ensures HasShortestMatch(s) <==> EmailRegexMatches(s)
  {
    if HasShortestMatch(s) {
      var at, dot :| 0 <= at < dot < |s| && ShortestMatchAt(s, at, dot);
      assert MatchAt(s, at - 1, at, dot, dot + 2);
    }
    if EmailRegexMatches(s) {
      var i, at, dot, j :| MatchAt(s, i, at, dot, j);
      assert ShortestMatchAt(s, at, dot);
    }
  }

  /** A typical address, `a@b.com`, passes. */
  lemma SampleAddressIsValid()
    ensures ValidateEmail("a@b.com")
  {
    assert ShortestMatchAt("a@b.com", 1, 3);
  }

  /** An address without `@` never passes, whatever else it holds. */
  lemma EmailNeedsAt(s: string)
    requires forall k | 0 <= k < |s| :: s[k] != '@'
    ensures !EmailRegexMatches(s)
  {
  }

  /** Surrounding text does not matter: the test is not anchored. */
  lemma EmailTestIsUnanchored(prefix: string, s: string, suffix: string)
    requires EmailRegexMatches(s)
    ensures EmailRegexMatches(prefix + s + suffix)
  {
    var i, at, dot, j :| MatchAt(s, i, at, dot, j);
    var t := prefix + s + suffix;
    var p := |prefix|;
    assert forall k | 0 <= k < |s| :: t[p + k] == s[k];
    assert MatchAt(t, p + i, p + at, p + dot, p + j);
  }
}
