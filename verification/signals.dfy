/** The lexical signals of content.js lines 3-10: the suspicious top-level domains and the five
    regular expressions of `suspiciousPatterns`, each written out as a string predicate with
    the meaning `RegExp.prototype.test` gives it (some match anywhere in the string). */
module Signals {
  import opened Strings

  /** `suspiciousTLDs` (content.js line 3). */
  const SuspiciousTLDs: seq<string> := [".xyz", ".info", ".top", ".club", ".site", ".space"]

  /** The host ends with one of the listed suffixes (content.js line 90). */
  predicate HasSuspiciousTLD(host: string)
  {
    Any(SuspiciousTLDs, tld => EndsWith(host, tld))
  }

  /** `\w`. */
  predicate IsWordChar(c: char)
  {
    'a' <= c <= 'z' || 'A' <= c <= 'Z' || '0' <= c <= '9' || c == '_'
  }

  /** `\d`. */
  predicate IsDigit(c: char)
  {
    '0' <= c <= '9'
  }

  /** `[0-9A-Fa-f]`. */
  predicate IsHexDigit(c: char)
  {
    IsDigit(c) || 'a' <= c <= 'f' || 'A' <= c <= 'F'
  }

  /** `\b` at position `i` when the character at `i` is a word character. */
  predicate WordStartAt(s: string, i: nat)
    requires i <= |s|
  {
    i == 0 || !IsWordChar(s[i - 1])
  }

  /** `\b` at position `i` when the character before `i` is a word character. */
  predicate WordEndAt(s: string, i: nat)
    requires i <= |s|
  {
    i == |s| || !IsWordChar(s[i])
  }

  /** `/\blogin\./i` matching at `i`. Under `i` without `u`, JavaScript folds case only where
      the upper-case form is a single character and never folds a non-ASCII character onto
      an ASCII one, so for `login.` the fold is exactly ASCII lower-casing. */
  predicate LoginAt(s: string, i: nat)
  {
    i + 6 <= |s| && WordStartAt(s, i) && ToLower(s[i..i + 6]) == "login."
  }

  predicate MatchesLogin(s: string)
  {
    exists i :: 0 <= i <= |s| - 6 && LoginAt(s, i)
  }

  /** `n` digits start at `i`. */
  predicate DigitsAt(s: string, i: nat, n: nat)
  {
    i + n <= |s| && forall m :: i <= m < i + n ==> IsDigit(s[m])
  }

  /** `s` continues at `i` with `k` groups `\d{1,3}` separated by `\.`, the last one followed
      by `\b`. */
  predicate DigitGroupsFrom(s: string, i: nat, k: nat)
    decreases k, 1
  {
    k > 0 && (GroupThen(s, i, 1, k) || GroupThen(s, i, 2, k) || GroupThen(s, i, 3, k))
  }

  /** The first of those `k` groups has exactly `n` digits. */
  predicate GroupThen(s: string, i: nat, n: nat, k: nat)
    requires k > 0
    decreases k, 0
  {
    DigitsAt(s, i, n) &&
    if k == 1 then WordEndAt(s, i + n)
    else i + n < |s| && s[i + n] == '.' && DigitGroupsFrom(s, i + n + 1, k - 1)
  }

  /** `/\b\d{1,3}\.\d{1,3}\.\d{1,3}\.\d{1,3}\b/` matching at `i`. */
  predicate DottedQuadAt(s: string, i: nat)
  {
    i < |s| && WordStartAt(s, i) && DigitGroupsFrom(s, i, 4)
  }

  predicate MatchesDottedQuad(s: string)
  {
    exists i :: 0 <= i < |s| && DottedQuadAt(s, i)
  }

  /** `/@/`. */
  predicate MatchesAtSign(s: string)
  {
    '@' in s
  }

  /** `/%[0-9A-Fa-f]{2}/` matching at `i`. */
  predicate PercentEscapeAt(s: string, i: nat)
  {
    i + 3 <= |s| && s[i] == '%' && IsHexDigit(s[i + 1]) && IsHexDigit(s[i + 2])
  }

  predicate MatchesPercentEscape(s: string)
  {
    exists i :: 0 <= i < |s| && PercentEscapeAt(s, i)
  }

  predicate IsDashOrUnderscore(c: char)
  {
    c == '-' || c == '_'
  }

  /** `/[\-\_]{2,}/` matching at `i`: a run of two or more exists exactly where two such
      characters stand side by side. */
  predicate DashRunAt(s: string, i: nat)
  {
    i + 2 <= |s| && IsDashOrUnderscore(s[i]) && IsDashOrUnderscore(s[i + 1])
  }

  predicate MatchesDashRun(s: string)
  {
    exists i :: 0 <= i < |s| && DashRunAt(s, i)
  }

  /** Some pattern of the list finds a match somewhere in `s` (content.js line 94). */
  predicate MatchesSuspiciousPattern(s: string)
  {
    || MatchesLogin(s)
    || MatchesDottedQuad(s)
    || MatchesAtSign(s)
    || MatchesPercentEscape(s)
    || MatchesDashRun(s)
  }

  /** The part of a host name after its last dot (all of it when there is none). */
  function LastLabel(s: string): (r: string)
    ensures EndsWith(s, r)
    ensures '.' !in r
    ensures |r| < |s| ==> s[|s| - |r| - 1] == '.'
  {
    if |s| == 0 || s[|s| - 1] == '.' then ""
    else
      var r := LastLabel(s[..|s| - 1]) + [s[|s| - 1]];
      assert s[|s| - |r|..] == s[..|s| - 1][|s| - |r|..] + [s[|s| - 1]];
      r
  }

  /** A string has at most one dot-free suffix that is either the whole string or preceded by
      a dot. */
  lemma DotFreeSuffixUnique(s: string, r: string, t: string)
    requires EndsWith(s, r) && '.' !in r && (|r| < |s| ==> s[|s| - |r| - 1] == '.')
    requires EndsWith(s, t) && '.' !in t && (|t| < |s| ==> s[|s| - |t| - 1] == '.')
    ensures r == t
  {
    NoDotInSuffix(s, r, |s| - |t| - 1);
    NoDotInSuffix(s, t, |s| - |r| - 1);
    assert |r| == |t|;
  }

  /** No position inside a dot-free suffix holds a dot. */
  lemma NoDotInSuffix(s: string, r: string, k: int)
    requires EndsWith(s, r) && '.' !in r
    ensures |s| - |r| <= k < |s| ==> s[k] != '.'
  {
    if |s| - |r| <= k < |s| {
      assert s[k] == r[k - (|s| - |r|)];
    }
  }

  /** `s` ends with `"." + name` exactly when `name` is its last label and a dot stands
      before it. */
  lemma EndsWithDotLabel(s: string, name: string)
    requires '.' !in name
    ensures EndsWith(s, "." + name) <==> LastLabel(s) == name && |name| < |s|
  {
    var r := LastLabel(s);
    var d := "." + name;
    assert |d| == |name| + 1 && d[0] == '.' && d[1..] == name;
    if EndsWith(s, d) {
      var n := |s| - |name|;
      assert s[n..] == s[n - 1..][1..];
      assert s[n - 1] == s[n - 1..][0];
      DotFreeSuffixUnique(s, r, name);
    }
    if r == name && |name| < |s| {
      var n := |s| - |name|;
      assert s[n - 1..] == [s[n - 1]] + s[n..];
    }
  }

  /** The top-level domains `suspiciousTLDs` names, without their leading dots. */
  const SuspiciousLabels: seq<string> := ["xyz", "info", "top", "club", "site", "space"]

  /** The suffix test of content.js line 90 is a test on the last name: a host is flagged
      exactly when it has a dot and the name after its last dot is one of the listed ones.
      (A host that is a bare `xyz`, with no dot, is not flagged.) */
  lemma SuspiciousTLDIsLastLabel(host: string)
    ensures HasSuspiciousTLD(host) <==>
      LastLabel(host) in SuspiciousLabels && |LastLabel(host)| < |host|
  {
    assert forall i :: 0 <= i < |SuspiciousTLDs| ==>
      SuspiciousTLDs[i] == "." + SuspiciousLabels[i] && '.' !in SuspiciousLabels[i];
    DottedSuffixesAreLastLabels(host, SuspiciousTLDs, SuspiciousLabels);
  }

  /** Testing a host against a list of `"." + name` suffixes is testing its last label against
      the list of names. */
  lemma DottedSuffixesAreLastLabels(host: string, suffixes: seq<string>, names: seq<string>)
    requires |suffixes| == |names|
    requires forall i :: 0 <= i < |names| ==> suffixes[i] == "." + names[i] && '.' !in names[i]
    ensures Any(suffixes, sfx => EndsWith(host, sfx)) <==>
      LastLabel(host) in names && |LastLabel(host)| < |host|
  {
    forall i | 0 <= i < |names|
      ensures EndsWith(host, suffixes[i]) <==> LastLabel(host) == names[i] && |names[i]| < |host|
    {
      EndsWithDotLabel(host, names[i]);
    }
  }

  /** Two strings that differ at most in the case of ASCII letters. */
  predicate SameUpToCase(s: string, t: string)
  {
    |s| == |t| && forall i :: 0 <= i < |s| ==> ToLowerChar(s[i]) == ToLowerChar(t[i])
  }

  /** Every character class the patterns use is blind to ASCII case. */
  lemma ClassesIgnoreCase(c: char, d: char)
    requires ToLowerChar(c) == ToLowerChar(d)
    ensures IsWordChar(c) <==> IsWordChar(d)
    ensures IsDigit(c) <==> IsDigit(d)
    ensures IsHexDigit(c) <==> IsHexDigit(d)
    ensures IsDashOrUnderscore(c) <==> IsDashOrUnderscore(d)
    ensures c == '@' <==> d == '@'
    ensures c == '%' <==> d == '%'
    ensures c == '.' <==> d == '.'
  {
  }

  /** Two strings of equal length whose characters agree, position by position, on the
      classes the dotted-quad pattern uses. */
  predicate SameQuadClasses(s: string, t: string)
  {
    |s| == |t| &&
    forall m :: 0 <= m < |s| ==>
      (IsDigit(s[m]) <==> IsDigit(t[m])) && (IsWordChar(s[m]) <==> IsWordChar(t[m])) &&
      (s[m] == '.' <==> t[m] == '.')
  }

  lemma SameUpToCaseHasSameQuadClasses(s: string, t: string)
    requires SameUpToCase(s, t)
    ensures SameQuadClasses(s, t)
  {
    forall m | 0 <= m < |s|
      ensures (IsDigit(s[m]) <==> IsDigit(t[m])) && (IsWordChar(s[m]) <==> IsWordChar(t[m]))
      ensures s[m] == '.' <==> t[m] == '.'
    {
      ClassesIgnoreCase(s[m], t[m]);
    }
  }

  lemma QuadStepAgrees(s: string, t: string, i: nat, n: nat)
    requires SameQuadClasses(s, t)
    ensures DigitsAt(s, i, n) <==> DigitsAt(t, i, n)
    ensures i + n <= |s| ==> (WordEndAt(s, i + n) <==> WordEndAt(t, i + n))
  {
  }

  lemma {:induction false} DigitGroupsAgree(s: string, t: string, i: nat, k: nat)
    requires SameQuadClasses(s, t)
    ensures DigitGroupsFrom(s, i, k) <==> DigitGroupsFrom(t, i, k)
    decreases k, 1
  {
    if k > 0 {
      GroupThenAgrees(s, t, i, 1, k);
      GroupThenAgrees(s, t, i, 2, k);
      GroupThenAgrees(s, t, i, 3, k);
    }
  }

  lemma {:induction false} GroupThenAgrees(s: string, t: string, i: nat, n: nat, k: nat)
    requires SameQuadClasses(s, t) && k > 0
    ensures GroupThen(s, i, n, k) <==> GroupThen(t, i, n, k)
    decreases k, 0
  {
    QuadStepAgrees(s, t, i, n);
    if k > 1 {
      DigitGroupsAgree(s, t, i + n + 1, k - 1);
    }
  }

  /** The pattern test does not see ASCII case: `/\blogin\./` carries the `i` flag and the
      other patterns use only case-blind classes. So the lower-casing `normalizeURL`
      applies to the path never changes the verdict. */
  lemma PatternsIgnoreCase(s: string, t: string)
    requires SameUpToCase(s, t)
    ensures MatchesSuspiciousPattern(s) <==> MatchesSuspiciousPattern(t)
  {
    forall m | 0 <= m < |s|
      ensures (IsWordChar(s[m]) <==> IsWordChar(t[m])) && (IsHexDigit(s[m]) <==> IsHexDigit(t[m]))
      ensures (IsDashOrUnderscore(s[m]) <==> IsDashOrUnderscore(t[m]))
      ensures (s[m] == '@' <==> t[m] == '@') && (s[m] == '%' <==> t[m] == '%')
    {
      ClassesIgnoreCase(s[m], t[m]);
    }
    forall i | 0 <= i <= |s| - 6
      ensures LoginAt(s, i) <==> LoginAt(t, i)
    {
      assert ToLower(s[i..i + 6]) == ToLower(t[i..i + 6]);
    }
    SameUpToCaseHasSameQuadClasses(s, t);
    forall i | 0 <= i < |s|
      ensures DottedQuadAt(s, i) <==> DottedQuadAt(t, i)
    {
      DigitGroupsAgree(s, t, i, 4);
    }
    assert forall i :: 0 <= i < |s| ==> (PercentEscapeAt(s, i) <==> PercentEscapeAt(t, i));
    assert forall i :: 0 <= i < |s| ==> (DashRunAt(s, i) <==> DashRunAt(t, i));
    if '@' in s {
      var m :| 0 <= m < |s| && s[m] == '@';
      assert t[m] == '@';
    }
    if '@' in t {
      var m :| 0 <= m < |t| && t[m] == '@';
      assert s[m] == '@';
    }
  }

  /** A string and its lower-cased form differ only in case. */
  lemma LowerIsSameUpToCase(s: string)
    ensures SameUpToCase(s, ToLower(s))
  {
  }

  lemma LastGroup(s: string, i: nat, n: nat)
    requires 1 <= n <= 3 && DigitsAt(s, i, n) && WordEndAt(s, i + n)
    ensures DigitGroupsFrom(s, i, 1)
  {
  }

  lemma NextGroup(s: string, i: nat, n: nat, k: nat)
    requires 1 <= n <= 3 && DigitsAt(s, i, n) && k > 1
    requires i + n < |s| && s[i + n] == '.' && DigitGroupsFrom(s, i + n + 1, k - 1)
    ensures DigitGroupsFrom(s, i, k)
  {
  }

  /** `http://192.168.1.1`, alone or followed by a path, contains a dotted quad. */
  lemma DottedQuadAfterScheme(s: string)
    requires |s| >= 18 && s[..18] == "http://192.168.1.1"
    requires |s| == 18 || s[18] == '/'
    ensures MatchesDottedQuad(s)
  {
    assert s[7] == '1' && s[8] == '9' && s[9] == '2' && s[10] == '.';
    assert s[11] == '1' && s[12] == '6' && s[13] == '8' && s[14] == '.';
    assert s[15] == '1' && s[16] == '.' && s[17] == '1' && s[6] == '/';
    assert DigitsAt(s, 7, 3) && DigitsAt(s, 11, 3) && DigitsAt(s, 15, 1) && DigitsAt(s, 17, 1);
    assert WordStartAt(s, 7) && WordEndAt(s, 18);
    LastGroup(s, 17, 1);
    NextGroup(s, 15, 1, 2);
    NextGroup(s, 11, 3, 3);
    NextGroup(s, 7, 3, 4);
    assert DottedQuadAt(s, 7);
  }
}
