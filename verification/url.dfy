/** content.js `sanitizeURL` and `normalizeURL`: cleaning a raw link before it reaches the
    WHATWG URL parser, and the comparable form the pattern test runs on. */
module Url {
  import opened Wrappers
  import opened Strings

  /** The three fields of a parsed `URL` object the classifier reads. */
  datatype ParsedURL = ParsedURL(hostname: string, origin: string, pathname: string)

  /** The WHATWG `URL` constructor, kept abstract: `None` where it throws. Every operation
      below takes the parser as a parameter, so every property holds for any parser. */
  type Parser = string -> Option<ParsedURL>

  /** The characters the cleaning step deletes: whitespace, `<` and `>`. */
  predicate IsStripped(c: char)
  {
    IsJsWhitespace(c) || c == '<' || c == '>'
  }

  /** `s.trimStart()`. */
  function TrimStart(s: string): (r: string)
    ensures EndsWith(s, r)
    ensures |r| == 0 || !IsJsWhitespace(r[0])
    ensures forall i :: 0 <= i < |s| - |r| ==> IsJsWhitespace(s[i])
  {
    if |s| > 0 && IsJsWhitespace(s[0]) then TrimStart(s[1..]) else s
  }

  /** `s.trimEnd()`. */
  function TrimEnd(s: string): (r: string)
    ensures StartsWith(s, r)
    ensures |r| == 0 || !IsJsWhitespace(r[|r| - 1])
    ensures forall i :: |r| <= i < |s| ==> IsJsWhitespace(s[i])
  {
    if |s| > 0 && IsJsWhitespace(s[|s| - 1]) then TrimEnd(s[..|s| - 1]) else s
  }

  /** `s.trim()`. */
  function Trim(s: string): string
  {
    TrimEnd(TrimStart(s))
  }

  /** Removes every whitespace character, `<` and `>`, keeping the other characters in order. */
  function Strip(s: string): (r: string)
    ensures |r| <= |s|
    ensures forall i :: 0 <= i < |r| ==> !IsStripped(r[i])
    ensures forall c :: c in r <==> c in s && !IsStripped(c)
  {
    if |s| == 0 then ""
    else (if IsStripped(s[0]) then "" else [s[0]]) + Strip(s[1..])
  }

  lemma {:induction false} StripAppend(s: string, t: string)
    ensures Strip(s + t) == Strip(s) + Strip(t)
    decreases |s|
  {
    if |s| == 0 {
      assert s + t == t;
    } else {
      assert (s + t)[0] == s[0] && (s + t)[1..] == s[1..] + t;
      StripAppend(s[1..], t);
    }
  }

  lemma {:induction false} StripAllStripped(s: string)
    requires forall i :: 0 <= i < |s| ==> IsStripped(s[i])
    ensures Strip(s) == ""
    decreases |s|
  {
    if |s| > 0 {
      StripAllStripped(s[1..]);
    }
  }

  /** A string without the deleted characters is left as it is. */
  lemma {:induction false} StripKeepsClean(s: string)
    requires forall i :: 0 <= i < |s| ==> !IsStripped(s[i])
    ensures Strip(s) == s
    decreases |s|
  {
    if |s| > 0 {
      StripKeepsClean(s[1..]);
    }
  }

  /** Deleting the characters twice is deleting them once. */
  lemma StripIdempotent(s: string)
    ensures Strip(Strip(s)) == Strip(s)
  {
    StripKeepsClean(Strip(s));
  }

  lemma TrimStartIsSubsumed(s: string)
    ensures Strip(TrimStart(s)) == Strip(s)
  {
    var r := TrimStart(s);
    var dropped := s[..|s| - |r|];
    assert s == dropped + r;
    StripAppend(dropped, r);
    StripAllStripped(dropped);
  }

  lemma TrimEndIsSubsumed(s: string)
    ensures Strip(TrimEnd(s)) == Strip(s)
  {
    var r := TrimEnd(s);
    var dropped := s[|r|..];
    assert s == r + dropped;
    StripAppend(r, dropped);
    StripAllStripped(dropped);
  }

  /** The `trim()` before the `replace` changes nothing: everything it removes the
      `replace` removes as well. */
  lemma TrimIsSubsumed(s: string)
    ensures Strip(Trim(s)) == Strip(s)
  {
    TrimStartIsSubsumed(s);
    TrimEndIsSubsumed(TrimStart(s));
  }

  /** `cleanUrl` of content.js line 33. */
  function Clean(url: string): string
  {
    Strip(Trim(url))
  }

  predicate HasHttpScheme(s: string)
  {
    StartsWith(s, "http://") || StartsWith(s, "https://")
  }

  /** The string `sanitizeURL` hands to the parser (content.js lines 33-38). */
  function ParserInput(url: string): (r: string)
    ensures forall i :: 0 <= i < |r| ==> !IsStripped(r[i])
    ensures HasHttpScheme(r)
    ensures EndsWith(r, Clean(url))
    ensures r == Clean(url) <==> HasHttpScheme(Clean(url))
    ensures r != Clean(url) ==> r == "http://" + Clean(url)
  {
    var c := Clean(url);
    if HasHttpScheme(c) then c
    else
      var r := "http://" + c;
      assert r[..7] == "http://" && r[7..] == c;
      r
  }

  /** Cleaning an already cleaned input changes nothing, so `sanitizeURL` is idempotent on
      what it hands the parser. */
  lemma ParserInputIdempotent(url: string)
    ensures ParserInput(ParserInput(url)) == ParserInput(url)
  {
    var r := ParserInput(url);
    assert Trim(r) == r;
    StripKeepsClean(r);
  }

  /** content.js `sanitizeURL` (lines 31-42): the parser's own result on the cleaned
      string, `None` exactly where the parser throws. */
  function SanitizeURL(parse: Parser, url: string): (r: Option<ParsedURL>)
    ensures r.None? <==> parse(ParserInput(url)).None?
    ensures r.Some? ==> r == parse(ParserInput(url))
  {
    parse(ParserInput(url))
  }

  /** content.js `normalizeURL` (lines 45-48). */
  function NormalizeURL(parse: Parser, url: string): (r: string)
    ensures SanitizeURL(parse, url).None? ==> r == ToLower(url)
    ensures SanitizeURL(parse, url).Some? ==>
      var u := SanitizeURL(parse, url).value;
      StartsWith(r, u.origin) && r[|u.origin|..] == ToLower(u.pathname)
  {
    match SanitizeURL(parse, url)
    case Some(u) =>
      var r := u.origin + ToLower(u.pathname);
      assert r[..|u.origin|] == u.origin;
      r
    case None => ToLower(url)
  }

  /** What `normalizeURL` produces: on success the origin, then a text as long as the parsed
      path that agrees with it up to case and holds no ASCII capital; on failure such a
      lower-case twin of the raw input. */
  lemma NormalizeURLLowerCasesPath(parse: Parser, url: string)
    ensures SanitizeURL(parse, url).Some? ==>
      var u, r := SanitizeURL(parse, url).value, NormalizeURL(parse, url);
      && StartsWith(r, u.origin)
      && |r| == |u.origin| + |u.pathname|
      && ToLower(r[|u.origin|..]) == r[|u.origin|..]
      && ToLower(r[|u.origin|..]) == ToLower(u.pathname)
    ensures SanitizeURL(parse, url).None? ==>
      var r := NormalizeURL(parse, url);
      |r| == |url| && ToLower(r) == r && ToLower(r) == ToLower(url)
  {
    match SanitizeURL(parse, url)
    case Some(u) =>
      ToLowerIdempotent(u.pathname);
    case None =>
      ToLowerIdempotent(url);
  }

  /** Whitespace and angle brackets anywhere in a link, leading, trailing or embedded, never
      change what `sanitizeURL` returns. */
  lemma SanitizeIgnoresStrippedChars(parse: Parser, url1: string, url2: string)
    requires Strip(url1) == Strip(url2)
    ensures SanitizeURL(parse, url1) == SanitizeURL(parse, url2)
  {
    TrimIsSubsumed(url1);
    TrimIsSubsumed(url2);
  }
}
