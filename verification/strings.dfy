/**
  The string operations the pages rely on: the ECMAScript `trim`, the
  whitespace class shared by `trim` and the regular-expression escape `\s`,
  lower-casing, `includes`, `startsWith` and the decimal rendering of a count.
 */
module Strings {

  /** The ECMAScript WhiteSpace and LineTerminator characters: what `trim`
      removes and what `\s` matches. */
  predicate IsSpace(c: char) {
    c == '\t' || c == '\n' || c == '\U{000B}' || c == '\U{000C}' || c == '\r'
    || c == ' ' || c == '\U{00A0}' || c == '\U{1680}'
    || ('\U{2000}' <= c <= '\U{200A}')
    || c == '\U{2028}' || c == '\U{2029}' || c == '\U{202F}' || c == '\U{205F}'
    || c == '\U{3000}' || c == '\U{FEFF}'
  }

  predicate AllSpace(s: string) {
    forall i :: 0 <= i < |s| ==> IsSpace(s[i])
  }

  /** `s` has no whitespace at either end (the empty string qualifies). */
  predicate IsTrimmed(s: string) {
    |s| == 0 || (!IsSpace(s[0]) && !IsSpace(s[|s| - 1]))
  }

  /** Drops leading whitespace: the result is the suffix of `s` that starts
      at its first non-space character. */
  function TrimStart(s: string): (r: string)
    ensures |r| <= |s| && r == s[|s| - |r|..]
    ensures AllSpace(s[..|s| - |r|])
    ensures |r| > 0 ==> !IsSpace(r[0])
  {
    if |s| > 0 && IsSpace(s[0]) then TrimStart(s[1..]) else s
  }

  /** Drops trailing whitespace: the result is the prefix of `s` that ends
      at its last non-space character. */
  function TrimEnd(s: string): (r: string)
    ensures |r| <= |s| && r == s[..|r|]
    ensures AllSpace(s[|r|..])
    ensures |r| > 0 ==> !IsSpace(r[|r| - 1])
  {
    if |s| > 0 && IsSpace(s[|s| - 1]) then TrimEnd(s[..|s| - 1]) else s
  }

  /** ECMAScript `String.prototype.trim`: the middle of `s` left once the
      whitespace at both ends is cut off (`TrimCutsEnds`). */
  function Trim(s: string): (r: string)
    ensures IsTrimmed(r)
    ensures |r| <= |s|
  {
    var t := TrimStart(s);
    var r := TrimEnd(t);
    assert |r| > 0 ==> r[0] == t[0];
    r
  }

  /** The trimmed text is a slice of `s` with only whitespace before and
      after it. Together with `IsTrimmed`, this fixes the result: it is `s`
      without its leading and trailing whitespace. */
  lemma TrimCutsEnds(s: string)
    ensures exists i, j :: 0 <= i <= j <= |s| && Trim(s) == s[i..j] && AllSpace(s[..i]) && AllSpace(s[j..])
  {
    var t := TrimStart(s);
    TrimMiddle(s, t, TrimEnd(t), |s| - |t|);
  }

  /** Where the trimmed text sits in `s`: after the leading whitespace, and
      followed only by whitespace. */
  lemma TrimMiddle(s: string, t: string, r: string, i: int)
    requires t == TrimStart(s) && r == TrimEnd(t) && i == |s| - |t|
    ensures 0 <= i <= i + |r| <= |s| && r == s[i..i + |r|]
    ensures AllSpace(s[..i]) && AllSpace(s[i + |r|..])
  {
    SliceOfSuffix(s, t, r, i);
  }

  /** A prefix `r` of the suffix `t` of `s` that starts at `i` is the slice
      of `s` at `i`, and what follows `r` in `t` follows it in `s`. */
  lemma SliceOfSuffix(s: string, t: string, r: string, i: int)
    requires 0 <= i <= |s| && t == s[i..] && |r| <= |t| && r == t[..|r|]
    ensures r == s[i..i + |r|] && s[i + |r|..] == t[|r|..]
  {
  }

  /** A string is blank when trimming leaves nothing: the falsy `s.trim()`. */
  predicate IsBlank(s: string) {
    Trim(s) == ""
  }

  /** Trimming leaves nothing exactly when every character is whitespace. */
  lemma BlankIffAllSpace(s: string)
    ensures IsBlank(s) <==> AllSpace(s)
  {
    if AllSpace(s) {
      AllSpaceTrimsAway(s);
    } else {
      var k :| 0 <= k < |s| && !IsSpace(s[k]);
      NonSpaceSurvives(s, k);
    }
  }

  lemma AllSpaceTrimsAway(s: string)
    requires AllSpace(s)
    ensures Trim(s) == ""
  {
  }

  lemma NonSpaceSurvives(s: string, k: int)
    requires 0 <= k < |s| && !IsSpace(s[k])
    ensures Trim(s) != ""
  {
    var t := TrimStart(s);
    var off := |s| - |t|;
    assert forall j :: 0 <= j < off ==> IsSpace(s[j]) by {
      forall j | 0 <= j < off
        ensures IsSpace(s[j])
      {
        assert s[..off][j] == s[j];
      }
    }
    assert t[k - off] == s[k];
    var r := TrimEnd(t);
    assert forall j :: |r| <= j < |t| ==> IsSpace(t[j]) by {
      forall j | |r| <= j < |t|
        ensures IsSpace(t[j])
      {
        assert t[|r|..][j - |r|] == t[j];
      }
    }
  }

  /** A trimmed string is its own trim. */
  lemma TrimFixesTrimmed(s: string)
    requires IsTrimmed(s)
    ensures Trim(s) == s
  {
  }

  /** Trimming twice is trimming once. */
  lemma TrimIdempotent(s: string)
    ensures Trim(Trim(s)) == Trim(s)
  {
    TrimFixesTrimmed(Trim(s));
  }

  /** ASCII lower-casing of one character; every other character is kept. */
  function LowerChar(c: char): char {
    if 'A' <= c <= 'Z' then (c as int + 32) as char else c
  }

  /** `toLowerCase`, restricted to the ASCII letters. */
  function Lower(s: string): (r: string)
    ensures |r| == |s|
  {
    seq(|s|, i requires 0 <= i < |s| => LowerChar(s[i]))
  }

  /** `s.startsWith(prefix)`. */
  predicate StartsWith(s: string, prefix: string) {
    |prefix| <= |s| && s[..|prefix|] == prefix
  }

  /** `s.includes(sub)`: some position of `s` starts a copy of `sub`. */
  ghost predicate Occurs(s: string, sub: string) {
    exists i :: OccursAt(s, sub, i)
  }

  /** A copy of `sub` starts at position `i` of `s`. */
  predicate OccursAt(s: string, sub: string, i: int) {
    0 <= i <= |s| - |sub| && s[i..i + |sub|] == sub
  }

  /** `s.includes(sub)`, searching position by position. */
  predicate Contains(s: string, sub: string)
    decreases |s|
  {
    StartsWith(s, sub) || (|s| > 0 && Contains(s[1..], sub))
  }

  /** The search finds `sub` exactly when some position of `s` starts a copy of it. */
  lemma ContainsIffOccurs(s: string, sub: string)
    ensures Contains(s, sub) <==> Occurs(s, sub)
  {
    if Contains(s, sub) {
      var i := FoundAt(s, sub);
      assert OccursAt(s, sub, i);
    } else if Occurs(s, sub) {
      var i :| OccursAt(s, sub, i);
      FoundFrom(s, sub, i);
    }
  }

  /** A successful search names a position where `sub` occurs. */
  lemma {:induction false} FoundAt(s: string, sub: string) returns (i: int)
    requires Contains(s, sub)
    ensures OccursAt(s, sub, i)
    decreases |s|
  {
    if StartsWith(s, sub) {
      i := 0;
    } else {
      var j := FoundAt(s[1..], sub);
      assert s[j + 1..j + 1 + |sub|] == s[1..][j..j + |sub|];
      i := j + 1;
    }
  }

  /** An occurrence at position `i` is found by the search. */
  lemma {:induction false} FoundFrom(s: string, sub: string, i: int)
    requires OccursAt(s, sub, i)
    ensures Contains(s, sub)
    decreases i
  {
    if i > 0 {
      assert s[1..][i - 1..i - 1 + |sub|] == s[i..i + |sub|];
      FoundFrom(s[1..], sub, i - 1);
    }
  }

  /** Every string contains the empty string. */
  lemma ContainsEmpty(s: string)
    ensures Contains(s, "")
  {
    assert s[..0] == "";
  }

  function DigitChar(d: nat): char
    requires d < 10
  {
    "0123456789"[d]
  }

  /** The decimal rendering of a natural number, most significant digit
      first and without leading zeros. */
  function Decimal(n: nat): (r: string)
    ensures |r| >= 1
    ensures forall i :: 0 <= i < |r| ==> '0' <= r[i] <= '9'
    ensures n < 10 ==> |r| == 1
    ensures n < 100 ==> |r| <= 2
  {
    if n < 10 then [DigitChar(n)] else Decimal(n / 10) + [DigitChar(n % 10)]
  }

  /** The number a string of decimal digits denotes. */
  function DecimalValue(s: string): nat
    requires forall i :: 0 <= i < |s| ==> '0' <= s[i] <= '9'
  {
    if |s| == 0 then 0 else DecimalValue(s[..|s| - 1]) * 10 + (s[|s| - 1] as int - '0' as int)
  }

  /** The digit character of `d` stands for `d`. */
  lemma DigitCharValue(d: nat)
    requires d < 10
    ensures DigitChar(d) as int - '0' as int == d
  {
    assert "0123456789"[d] as int == '0' as int + d by {
      assert "0123456789" == ['0', '1', '2', '3', '4', '5', '6', '7', '8', '9'];
    }
  }

  /** Reading back a rendered number gives the number. */
  lemma {:induction false} DecimalRoundTrip(n: nat)
    ensures DecimalValue(Decimal(n)) == n
  {
    var r := Decimal(n);
    if n < 10 {
      DigitCharValue(n);
      assert r[..|r| - 1] == [];
    } else {
      assert r[..|r| - 1] == Decimal(n / 10);
      assert r[|r| - 1] == DigitChar(n % 10);
      DigitCharValue(n % 10);
      DecimalRoundTrip(n / 10);
    }
  }

  /** Code-point lexicographic order: `a` sorts no later than `b`. */
  predicate LexLe(a: string, b: string) {
    if |a| == 0 then true
    else if |b| == 0 then false
    else if a[0] != b[0] then a[0] < b[0]
    else LexLe(a[1..], b[1..])
  }

  /** Any two strings are comparable. */
  lemma {:induction false} LexLeTotal(a: string, b: string)
    ensures LexLe(a, b) || LexLe(b, a)
  {
    if |a| > 0 && |b| > 0 && a[0] == b[0] {
      LexLeTotal(a[1..], b[1..]);
    }
  }

  /** The order is transitive. */
  lemma {:induction false} LexLeTransitive(a: string, b: string, c: string)
    requires LexLe(a, b) && LexLe(b, c)
    ensures LexLe(a, c)
  {
    if |a| > 0 && |b| > 0 && |c| > 0 && a[0] == b[0] && b[0] == c[0] {
      LexLeTransitive(a[1..], b[1..], c[1..]);
    }
  }

  /** `s.split(c)`: the pieces between occurrences of `c`, empty ones included. */
  function SplitOn(s: string, c: char): (r: seq<string>)
    ensures |r| >= 1
    ensures forall i :: 0 <= i < |r| ==> c !in r[i]
    decreases |s|
  {
    if |s| == 0 then [""]
    else
      var rest := SplitOn(s[1..], c);
      if s[0] == c then [""] + rest
      else [[s[0]] + rest[0]] + rest[1..]
  }

  /** `xs.join(c)`. */
  function Join(xs: seq<string>, c: char): string
  {
    if |xs| == 0 then ""
    else if |xs| == 1 then xs[0]
    else xs[0] + [c] + Join(xs[1..], c)
  }

  /** Splitting a text with a separator-free head glues the head onto the first piece. */
  lemma {:induction false} SplitAfterPiece(a: string, rest: string, c: char)
    requires c !in a
    ensures SplitOn(a + rest, c) == [a + SplitOn(rest, c)[0]] + SplitOn(rest, c)[1..]
    decreases |a|
  {
    if |a| > 0 {
      assert (a + rest)[1..] == a[1..] + rest;
      assert a[0] != c;
      SplitAfterPiece(a[1..], rest, c);
      assert [a[0]] + (a[1..] + SplitOn(rest, c)[0]) == a + SplitOn(rest, c)[0];
    } else {
      var r := SplitOn(rest, c);
      assert a + rest == rest && a + r[0] == r[0];
      assert [r[0]] + r[1..] == r;
    }
  }

  /** Joining separator-free pieces and splitting again gives the pieces back. */
  lemma {:induction false} SplitJoin(xs: seq<string>, c: char)
    requires |xs| >= 1
    requires forall i :: 0 <= i < |xs| ==> c !in xs[i]
    ensures SplitOn(Join(xs, c), c) == xs
  {
    if |xs| == 1 {
      SplitAfterPiece(xs[0], "", c);
      assert xs[0] + "" == xs[0];
    } else {
      var j := Join(xs[1..], c);
      SplitJoin(xs[1..], c);
      assert ([c] + j)[1..] == j;
      assert SplitOn([c] + j, c) == [""] + xs[1..];
      assert xs[0] + [c] + j == xs[0] + ([c] + j);
      SplitAfterPiece(xs[0], [c] + j, c);
      assert xs[0] + "" == xs[0];
    }
  }

  /** Splitting a text and joining the pieces gives the text back. */
  lemma {:induction false} JoinSplit(s: string, c: char)
    ensures Join(SplitOn(s, c), c) == s
    decreases |s|
  {
    if |s| > 0 {
      var rest := SplitOn(s[1..], c);
      JoinSplit(s[1..], c);
      if s[0] == c {
        assert s == [c] + s[1..];
      } else {
        var r := SplitOn(s, c);
        assert r == [[s[0]] + rest[0]] + rest[1..];
        if |rest| == 1 {
          assert s == [s[0]] + s[1..];
        } else {
          assert r[1..] == rest[1..];
          assert Join(rest, c) == rest[0] + [c] + Join(rest[1..], c);
          assert s == [s[0]] + s[1..];
        }
      }
    }
  }
}
