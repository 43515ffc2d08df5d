/**
  What the two sign-in forms share: the per-field error messages, the
  "clear this field's error" step on typing, the captcha token, and the
  e-mail pattern `^[^\s@]+@[^\s@]+\.[^\s@]+$`.
 */
module Forms {
  import opened Types
  import opened Strings

  /** Field to error message; an empty message shows nothing. */
  type Errors<K> = map<K, string>

  /** The field shows an error (a present, non-empty message). */
  predicate HasError<K>(errors: Errors<K>, key: K) {
    key in errors && errors[key] != ""
  }

  /** Typing into a field blanks its message if one is showing; the other
      messages, and the set of fields with entries, stay as they were. */
  function ClearError<K>(errors: Errors<K>, key: K): (r: Errors<K>)
    ensures r.Keys == errors.Keys
    ensures !HasError(r, key)
    ensures forall k :: k in errors && k != key ==> r[k] == errors[k]
    ensures !HasError(errors, key) ==> r == errors
  {
    if HasError(errors, key) then errors[key := ""] else errors
  }

  /** Blanking a message twice is the same as once. */
  lemma ClearErrorIdempotent<K>(errors: Errors<K>, key: K)
    ensures ClearError(ClearError(errors, key), key) == ClearError(errors, key)
  {
  }

  /** The captcha widget's token; a null or empty token counts as unsolved. */
  predicate CaptchaSolved(token: Option<string>) {
    token.Some? && token.value != ""
  }

  const CaptchaMessage: string := "لطفاً تأیید کنید که ربات نیستید"

  /** The widget reports a new token: a solved captcha blanks the captcha
      message (held under `key`). */
  function OnCaptchaChange<K>(errors: Errors<K>, key: K, token: Option<string>): (r: Errors<K>)
    ensures CaptchaSolved(token) ==> !HasError(r, key)
    ensures !CaptchaSolved(token) ==> r == errors
    ensures forall k :: k in errors && k != key ==> k in r && r[k] == errors[k]
  {
    if CaptchaSolved(token) then ClearError(errors, key) else errors
  }

  const PasswordRequired: string := "رمز عبور الزامی است"
  const PasswordTooShort: string := "رمز عبور باید حداقل ۶ کاراکتر باشد"
  const MinPassword: nat := 6

  /** The password check: required, then at least six characters. */
  function PasswordCheck(password: string): (e: Option<string>)
    ensures e.None? <==> |password| >= MinPassword
    ensures e.Some? ==> e.value == (if password == "" then PasswordRequired else PasswordTooShort)
  {
    if password == "" then Some(PasswordRequired)
    else if |password| < MinPassword then Some(PasswordTooShort)
    else None
  }

  /** A character a part of the address may hold: `[^\s@]`. */
  predicate AddressChar(c: char) {
    !IsSpace(c) && c != '@'
  }

  /** A non-empty run of address characters: `[^\s@]+`. */
  predicate Part(s: string) {
    |s| > 0 && forall k :: 0 <= k < |s| ==> AddressChar(s[k])
  }

  /** The pattern matches `s` with its `@` at position `i` and the literal
      dot at position `j`. */
  predicate MatchAt(s: string, i: int, j: int) {
    0 < i && i + 1 < j < |s| - 1 && s[i] == '@' && s[j] == '.'
    && Part(s[..i]) && Part(s[i + 1..j]) && Part(s[j + 1..])
  }

  /** The pattern matches `s` in some way. */
  ghost predicate MatchesEmailPattern(s: string) {
    exists i, j :: MatchAt(s, i, j)
  }

  /** The pattern decided directly: no whitespace, exactly one `@` with
      something before it, and a dot after the `@` with at least one
      character on each side. */
  predicate EmailShape(s: string) {
    (forall k :: 0 <= k < |s| ==> !IsSpace(s[k]))
    && var parts := SplitOn(s, '@');
       |parts| == 2 && |parts[0]| > 0 && |parts[1]| >= 3
       && '.' in parts[1][1..|parts[1]| - 1]
  }

  lemma SplitInTwo(s: string, parts: seq<string>)
    requires parts == SplitOn(s, '@') && |parts| == 2
    ensures s == parts[0] + "@" + parts[1]
  {
    JoinSplit(s, '@');
    assert parts[1..] == [parts[1]];
  }

  /** The direct check agrees with the pattern. */
  lemma EmailShapeIffPattern(s: string)
    ensures EmailShape(s) <==> MatchesEmailPattern(s)
  {
    if EmailShape(s) {
      var i, j := ShapeGivesMatch(s);
    }
    if MatchesEmailPattern(s) {
      var i, j :| MatchAt(s, i, j);
      MatchGivesShape(s, i, j);
    }
  }

  /** An address of the right shape matches, at the `@` and at the first dot
      that leaves something on both sides. */
  lemma ShapeGivesMatch(s: string) returns (i: int, j: int)
    requires EmailShape(s)
    ensures MatchAt(s, i, j)
  {
    var parts := SplitOn(s, '@');
    var a, b := parts[0], parts[1];
    SplitInTwo(s, parts);
    var inner := b[1..|b| - 1];
    var m :| 0 <= m < |inner| && inner[m] == '.';
    i, j := |a|, |a| + 2 + m;
    assert s[..i] == a;
    assert s[i + 1..j] == b[..m + 1];
    assert s[j + 1..] == b[m + 2..];
    assert s[i] == '@' && s[j] == b[m + 1] == '.';
  }

  /** A match shows the address has the right shape. */
  lemma MatchGivesShape(s: string, i: int, j: int)
    requires MatchAt(s, i, j)
    ensures EmailShape(s)
  {
    var a, b := s[..i], s[i + 1..];
    NoAtAfter(s, i, j);
    assert s == a + "@" + b;
    assert s == Join([a, b], '@');
    SplitJoin([a, b], '@');
    NoSpaceIn(s, i, j);
    assert b[1..|b| - 1][j - i - 2] == '.';
  }

  lemma NoAtAfter(s: string, i: int, j: int)
    requires MatchAt(s, i, j)
    ensures '@' !in s[i + 1..]
  {
    var b := s[i + 1..];
    forall k | 0 <= k < |b|
      ensures b[k] != '@'
    {
      if k < j - i - 1 {
        assert b[k] == s[i + 1..j][k];
      } else if k > j - i - 1 {
        assert b[k] == s[j + 1..][k - (j - i)];
      }
    }
  }

  lemma NoSpaceIn(s: string, i: int, j: int)
    requires MatchAt(s, i, j)
    ensures forall k :: 0 <= k < |s| ==> !IsSpace(s[k])
  {
    forall k | 0 <= k < |s|
      ensures !IsSpace(s[k])
    {
      if k < i {
        assert s[k] == s[..i][k];
      } else if i < k < j {
        assert s[k] == s[i + 1..j][k - i - 1];
      } else if k > j {
        assert s[k] == s[j + 1..][k - j - 1];
      }
    }
  }
}
