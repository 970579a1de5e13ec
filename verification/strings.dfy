/** The JavaScript string and array primitives the classifier is built from. */
module Strings {

  /** `s.startsWith(p)`. */
  predicate StartsWith(s: string, p: string)
  {
    |p| <= |s| && s[..|p|] == p
  }

  /** `s.endsWith(t)`. */
  predicate EndsWith(s: string, t: string)
  {
    |t| <= |s| && s[|s| - |t|..] == t
  }

  /** Array `some`: scans from the front and is true as soon as `p` holds of an element. */
  function Any<T>(xs: seq<T>, p: T -> bool): (r: bool)
    ensures r <==> exists i :: 0 <= i < |xs| && p(xs[i])
  {
    if |xs| == 0 then false
    else if p(xs[0]) then true
    else
      var r := Any(xs[1..], p);
      assert forall i :: 1 <= i < |xs| ==> xs[i] == xs[1..][i - 1];
      r
  }

  /** The characters matched by the regular-expression class `\s`, which are also the ones
      `String.prototype.trim` removes: WhiteSpace and LineTerminator of ECMA-262. */
  predicate IsJsWhitespace(c: char)
  {
    || c == '\t' || c == '\n' || c == '\U{000B}' || c == '\U{000C}' || c == '\r' || c == ' '
    || c == '\U{00A0}' || c == '\U{1680}' || ('\U{2000}' <= c <= '\U{200A}')
    || c == '\U{2028}' || c == '\U{2029}' || c == '\U{202F}' || c == '\U{205F}'
    || c == '\U{3000}' || c == '\U{FEFF}'
  }

  predicate IsUpperAscii(c: char)
  {
    'A' <= c <= 'Z'
  }

  /** `toLowerCase` on one character, restricted to the ASCII letters. */
  function ToLowerChar(c: char): (r: char)
    ensures !IsUpperAscii(r)
    ensures IsUpperAscii(c) ==> r as int == c as int + 32
    ensures !IsUpperAscii(c) ==> r == c
  {
    if IsUpperAscii(c) then (c as int + 32) as char else c
  }

  /** Lower-casing, character by character. */
  function ToLower(s: string): (r: string)
    ensures |r| == |s|
    ensures forall i :: 0 <= i < |s| ==> r[i] == ToLowerChar(s[i])
  {
    seq(|s|, i requires 0 <= i < |s| => ToLowerChar(s[i]))
  }

  /** Lower-casing twice is lower-casing once. */
  lemma ToLowerIdempotent(s: string)
    ensures ToLower(ToLower(s)) == ToLower(s)
  {
    assert forall i :: 0 <= i < |s| ==> ToLower(ToLower(s))[i] == ToLower(s)[i];
  }

  /** `parts.join(sep)`. */
  function Join(parts: seq<string>, sep: string): (r: string)
    ensures |parts| == 1 ==> r == parts[0]
    ensures |parts| > 0 ==> StartsWith(r, parts[0])
  {
    if |parts| == 0 then ""
    else if |parts| == 1 then parts[0]
    else
      var r := parts[0] + sep + Join(parts[1..], sep);
      assert r[..|parts[0]|] == parts[0];
      r
  }

  /** Where part `k` starts in `Join(parts, sep)`: after the first `k` parts, each followed by
      one `sep`. */
  function PartStart(parts: seq<string>, sep: string, k: nat): nat
    requires k <= |parts|
  {
    if k == 0 then 0 else PartStart(parts, sep, k - 1) + |parts[k - 1]| + |sep|
  }

  /** Where the `sep` after part `k` starts. */
  function SepStart(parts: seq<string>, sep: string, k: nat): nat
    requires k < |parts|
  {
    PartStart(parts, sep, k) + |parts[k]|
  }

  lemma {:induction false} PartStartTail(parts: seq<string>, sep: string, k: nat)
    requires 1 <= k <= |parts|
    ensures PartStart(parts, sep, k) == |parts[0]| + |sep| + PartStart(parts[1..], sep, k - 1)
  {
    if k > 1 {
      PartStartTail(parts, sep, k - 1);
    }
  }

  /** `part` stands in `r` at offset `a`. */
  predicate StandsAt(r: string, part: string, a: nat)
  {
    a + |part| <= |r| && r[a..a + |part|] == part
  }

  lemma {:induction false} JoinLength(parts: seq<string>, sep: string)
    requires |parts| > 0
    ensures |Join(parts, sep)| + |sep| == PartStart(parts, sep, |parts|)
  {
    if |parts| > 1 {
      JoinLength(parts[1..], sep);
      PartStartTail(parts, sep, |parts|);
    }
  }

  lemma {:induction false} JoinPartAt(parts: seq<string>, sep: string, k: nat)
    requires k < |parts|
    ensures StandsAt(Join(parts, sep), parts[k], PartStart(parts, sep, k))
  {
    var r := Join(parts, sep);
    if k > 0 {
      var tail := parts[1..];
      var rt := Join(tail, sep);
      var off := |parts[0]| + |sep|;
      var b := PartStart(tail, sep, k - 1);
      JoinPartAt(tail, sep, k - 1);
      PartStartTail(parts, sep, k);
      assert r == parts[0] + sep + rt;
      assert tail[k - 1] == parts[k];
      assert r[off + b..off + b + |parts[k]|] == rt[b..b + |parts[k]|];
    }
  }

  lemma {:induction false} JoinSepAt(parts: seq<string>, sep: string, k: nat)
    requires k + 1 < |parts|
    ensures StandsAt(Join(parts, sep), sep, SepStart(parts, sep, k))
  {
    var r := Join(parts, sep);
    var tail := parts[1..];
    var rt := Join(tail, sep);
    assert r == parts[0] + sep + rt;
    if k > 0 {
      var off := |parts[0]| + |sep|;
      var b := PartStart(tail, sep, k - 1) + |tail[k - 1]|;
      JoinSepAt(tail, sep, k - 1);
      PartStartTail(parts, sep, k);
      assert tail[k - 1] == parts[k];
      assert r[off + b..off + b + |sep|] == rt[b..b + |sep|];
    }
  }

  lemma JoinAllParts(parts: seq<string>, sep: string)
    ensures forall k ::
      0 <= k < |parts| ==> StandsAt(Join(parts, sep), parts[k], PartStart(parts, sep, k))
  {
    forall k | 0 <= k < |parts|
      ensures StandsAt(Join(parts, sep), parts[k], PartStart(parts, sep, k))
    {
      JoinPartAt(parts, sep, k);
    }
  }

  lemma JoinAllSeps(parts: seq<string>, sep: string)
    ensures forall k ::
      0 <= k < |parts| - 1 ==> StandsAt(Join(parts, sep), sep, SepStart(parts, sep, k))
  {
    forall k | 0 <= k < |parts| - 1
      ensures StandsAt(Join(parts, sep), sep, SepStart(parts, sep, k))
    {
      JoinSepAt(parts, sep, k);
    }
  }

  /** The layout of `parts.join(sep)`: every part stands at its offset, in order, one `sep`
      between each two neighbours, and nothing else. */
  lemma JoinLayout(parts: seq<string>, sep: string)
    ensures |parts| == 0 ==> Join(parts, sep) == ""
    ensures |parts| > 0 ==> |Join(parts, sep)| + |sep| == PartStart(parts, sep, |parts|)
    ensures forall k ::
      0 <= k < |parts| ==> StandsAt(Join(parts, sep), parts[k], PartStart(parts, sep, k))
    ensures forall k ::
      0 <= k < |parts| - 1 ==> StandsAt(Join(parts, sep), sep, SepStart(parts, sep, k))
  {
    if |parts| > 0 {
      JoinLength(parts, sep);
    }
    JoinAllParts(parts, sep);
    JoinAllSeps(parts, sep);
  }
}
