/** The alert decision inside content.js `scanPage` (lines 181-188): what each link on the page
    is marked with. */
module Scan {
  import opened Wrappers
  import opened Strings
  import opened Url
  import opened Legitimacy
  import opened Signals
  import opened Reasons
  import EditDistance

  /** The `modifyElement` call made for a link, if any: `High` turns it red and shows its
      message on hover, `Medium` turns it yellow. */
  datatype Alert = NoAlert | Medium(message: string) | High(message: string)

  /** The message of every medium alert (content.js line 186). */
  const InsecureProtocolMessage: string := "This link uses an insecure protocol (HTTP)."

  /** JavaScript truthiness of `reason`: `null` and `''` are falsy. */
  predicate Truthy(reason: Option<string>)
  {
    reason.Some? && reason.value != ""
  }

  /** content.js lines 182-187 for one link with address `href`: high when a reason comes
      back, carrying it; otherwise medium when the address starts with `http:`; otherwise no
      alert. A medium alert never carries a reason. */
  function LinkAlert(parse: Parser, href: string): (a: Alert)
    ensures a.High? <==> GetSuspiciousReason(parse, href).Some?
    ensures a.High? ==> a.message == GetSuspiciousReason(parse, href).value
    ensures a.Medium? <==> GetSuspiciousReason(parse, href).None? && StartsWith(href, "http:")
    ensures a.Medium? ==> a.message == InsecureProtocolMessage
    ensures a.NoAlert? <==> GetSuspiciousReason(parse, href).None? && !StartsWith(href, "http:")
  {
    var reason := GetSuspiciousReason(parse, href);
    if Truthy(reason) then High(reason.value)
    else if StartsWith(href, "http:") then Medium(InsecureProtocolMessage)
    else NoAlert
  }

  /** Fail closed: a link the parser rejects is marked high with `Invalid URL.`. */
  lemma UnparsableLinkIsHigh(parse: Parser, href: string)
    requires SanitizeURL(parse, href).None?
    ensures LinkAlert(parse, href) == High(InvalidURLMessage)
  {
  }

  /** A link is left unmarked or marked medium exactly when it parses, its domain is
      legitimate, its host has no suspicious top-level domain and its comparable form matches
      no suspicious pattern. */
  lemma NotHighIff(parse: Parser, href: string)
    ensures !LinkAlert(parse, href).High? <==>
      && SanitizeURL(parse, href).Some?
      && IsLegitimateDomain(parse, href)
      && !HasSuspiciousTLD(ToLower(SanitizeURL(parse, href).value.hostname))
      && !MatchesSuspiciousPattern(PatternInput(parse, href))
  {
  }

  /** A medium alert is given only to a plain-HTTP link on a legitimate domain. */
  lemma MediumMeansLegitimateHttp(parse: Parser, href: string)
    ensures LinkAlert(parse, href).Medium? ==>
      IsLegitimateDomain(parse, href) && StartsWith(href, "http:") &&
      GetSuspiciousReason(parse, href).None?
  {
    NotHighIff(parse, href);
  }

  /** A link on a trusted entry or one of its subdomains with no other signal is left
      unmarked, or marked medium when its address starts with `http:`: so `https://paypal.com/`
      gets no alert and `http://paypal.com/` a medium one. */
  lemma TrustedLinkAlert(parse: Parser, href: string, d: string)
    requires SanitizeURL(parse, href).Some?
    requires d in LegitimateDomains
    requires var host := ToLower(SanitizeURL(parse, href).value.hostname);
      host == d || EndsWith(host, "." + d)
    requires !HasSuspiciousTLD(ToLower(SanitizeURL(parse, href).value.hostname))
    requires !MatchesSuspiciousPattern(PatternInput(parse, href))
    ensures LinkAlert(parse, href) ==
      if StartsWith(href, "http:") then Medium(InsecureProtocolMessage) else NoAlert
  {
    TrustedAndSubdomainsAreLegitimate(ToLower(SanitizeURL(parse, href).value.hostname), LegitimateDomains, d);
  }

  /** Every link whose host has seven characters or fewer is marked high, whatever its scheme
      or path: no trusted entry is within two edits of it. */
  lemma ShortHostIsHigh(parse: Parser, href: string)
    requires SanitizeURL(parse, href).Some?
    requires |SanitizeURL(parse, href).value.hostname| <= 7
    ensures LinkAlert(parse, href).High?
  {
    ShortHostIsNotLegitimate(ToLower(SanitizeURL(parse, href).value.hostname));
  }

  /** A near miss of a trusted entry passes unmarked over HTTPS when it carries no other
      signal: the fuzzy match accepts it as legitimate rather than flagging it. */
  lemma NearMissPassesUnmarked(parse: Parser, href: string, d: string)
    requires SanitizeURL(parse, href).Some?
    requires d in LegitimateDomains
    requires EditDistance.Distance(ToLower(SanitizeURL(parse, href).value.hostname), d) <= TypoThreshold
    requires !HasSuspiciousTLD(ToLower(SanitizeURL(parse, href).value.hostname))
    requires !MatchesSuspiciousPattern(PatternInput(parse, href))
    requires !StartsWith(href, "http:")
    ensures LinkAlert(parse, href) == NoAlert
  {
    NearMissIsLegitimate(ToLower(SanitizeURL(parse, href).value.hostname), LegitimateDomains, d);
  }

  /** A link whose origin is the literal address `http://192.168.1.1` is marked high, by
      the dotted-quad pattern, whatever the parser reports as its host name. */
  lemma DottedQuadOriginIsHigh(parse: Parser, href: string)
    requires SanitizeURL(parse, href).Some?
    requires SanitizeURL(parse, href).value.origin == "http://192.168.1.1"
    requires var p := SanitizeURL(parse, href).value.pathname; |p| == 0 || p[0] == '/'
    ensures LinkAlert(parse, href).High?
  {
    var u := SanitizeURL(parse, href).value;
    var s := PatternInput(parse, href);
    assert s == u.origin + ToLower(u.pathname);
    assert s[..18] == "http://192.168.1.1";
    DottedQuadAfterScheme(s);
    NotHighIff(parse, href);
  }
}
