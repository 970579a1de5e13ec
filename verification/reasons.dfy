/** content.js `getSuspiciousReason` (lines 77-103): the reasons a link is suspicious, in the
    order they are pushed, joined into one message. */
module Reasons {
  import opened Wrappers
  import opened Strings
  import opened Url
  import opened Legitimacy
  import opened Signals

  /** The four reasons, named after the check that pushes them. */
  datatype Reason = PoorReputation | SuspiciousTopLevelDomain | SuspiciousPattern | Typosquatting

  function Message(r: Reason): string
  {
    match r
    case PoorReputation => "Domain is not on the trusted list or has a poor reputation."
    case SuspiciousTopLevelDomain => "Uses suspicious top-level domain (TLD)."
    case SuspiciousPattern => "Matches known suspicious patterns."
    case Typosquatting => "Potential typosquatting detected: Domain resembles a trusted domain."
  }

  /** Returned in place of the reasons when the link does not parse. */
  const InvalidURLMessage: string := "Invalid URL."

  /** Position of each reason in the fixed emission order. */
  function Rank(r: Reason): nat
  {
    match r
    case PoorReputation => 0
    case SuspiciousTopLevelDomain => 1
    case SuspiciousPattern => 2
    case Typosquatting => 3
  }

  /** `normalizedURL` of content.js line 81: the string the pattern test runs on. */
  function PatternInput(parse: Parser, url: string): string
  {
    ExpandShortenedURL(NormalizeURL(parse, url))
  }

  /** No reason comes before one of lower or equal rank. */
  predicate InEmissionOrder(rs: seq<Reason>)
  {
    forall i, j :: 0 <= i < j < |rs| ==> Rank(rs[i]) < Rank(rs[j])
  }

  /** Appends `r` when its check fired; `r` ranks after every reason already in the list. */
  function PushIf(rs: seq<Reason>, cond: bool, r: Reason): (rs': seq<Reason>)
    requires InEmissionOrder(rs)
    requires forall i :: 0 <= i < |rs| ==> Rank(rs[i]) < Rank(r)
    ensures forall x :: x in rs' <==> x in rs || (cond && x == r)
    ensures InEmissionOrder(rs')
    ensures forall i :: 0 <= i < |rs'| ==> Rank(rs'[i]) <= Rank(r)
  {
    if cond then rs + [r] else rs
  }

  /** The pushes of content.js lines 85-100, given the outcome of each check. */
  function Assemble(poorReputation: bool, badTLD: bool, badPattern: bool, notLegitimate: bool): (rs: seq<Reason>)
    ensures PoorReputation in rs <==> poorReputation
    ensures SuspiciousTopLevelDomain in rs <==> badTLD
    ensures SuspiciousPattern in rs <==> badPattern
    ensures Typosquatting in rs <==> notLegitimate
    ensures InEmissionOrder(rs)
  {
    var rs1 := PushIf([], poorReputation, PoorReputation);
    var rs2 := PushIf(rs1, badTLD, SuspiciousTopLevelDomain);
    var rs3 := PushIf(rs2, badPattern, SuspiciousPattern);
    PushIf(rs3, notLegitimate, Typosquatting)
  }

  /** The `reasons` array of content.js lines 83-100, for a link whose parsed host name is
      `hostname`: each reason is present exactly when its check fires, at most once, and in
      the fixed order. */
  function CollectReasons(parse: Parser, url: string, hostname: string): (rs: seq<Reason>)
    ensures PoorReputation in rs <==> CheckDomainReputation(parse, url) != Safe
    ensures SuspiciousTopLevelDomain in rs <==> HasSuspiciousTLD(ToLower(hostname))
    ensures SuspiciousPattern in rs <==> MatchesSuspiciousPattern(PatternInput(parse, url))
    ensures Typosquatting in rs <==> !IsLegitimateDomain(parse, url)
    ensures InEmissionOrder(rs)
  {
    var normalizedURL := PatternInput(parse, url);
    var host := ToLower(hostname);
    Assemble(CheckDomainReputation(parse, url) != Safe,
             HasSuspiciousTLD(host),
             MatchesSuspiciousPattern(normalizedURL),
             !IsLegitimateDomain(parse, url))
  }

  function Messages(rs: seq<Reason>): (ms: seq<string>)
    ensures |ms| == |rs|
    ensures forall i :: 0 <= i < |rs| ==> ms[i] == Message(rs[i])
  {
    seq(|rs|, i requires 0 <= i < |rs| => Message(rs[i]))
  }

  /** Every message is longer than `Invalid URL.`. */
  lemma MessageShape(r: Reason)
    ensures |Message(r)| > |InvalidURLMessage|
  {
    assert |InvalidURLMessage| == 12;
    match r
    case PoorReputation =>
    case SuspiciousTopLevelDomain =>
    case SuspiciousPattern =>
    case Typosquatting =>
  }

  /** content.js `getSuspiciousReason`: `Invalid URL.` when the link does not parse, `None`
      (the source's `null`) when it parses and no reason fires, and otherwise the messages
      joined with single spaces. The answer is never empty, and `Invalid URL.` is never the
      join of real reasons. */
  function GetSuspiciousReason(parse: Parser, url: string): (r: Option<string>)
    ensures SanitizeURL(parse, url).None? ==> r == Some(InvalidURLMessage)
    ensures SanitizeURL(parse, url).Some? ==>
      (r.None? <==> IsLegitimateDomain(parse, url) &&
                    !HasSuspiciousTLD(ToLower(SanitizeURL(parse, url).value.hostname)) &&
                    !MatchesSuspiciousPattern(PatternInput(parse, url)))
    ensures r.Some? ==> |r.value| > 0
    ensures r == Some(InvalidURLMessage) <==> SanitizeURL(parse, url).None?
    ensures SanitizeURL(parse, url).Some? && r.Some? ==>
      r.value == Join(Messages(CollectReasons(parse, url, SanitizeURL(parse, url).value.hostname)), " ")
  {
    match SanitizeURL(parse, url)
    case None => Some(InvalidURLMessage)
    case Some(u) =>
      var rs := CollectReasons(parse, url, u.hostname);
      if |rs| > 0 then
        var joined := Join(Messages(rs), " ");
        MessageShape(rs[0]);
        assert |joined| >= |Message(rs[0])|;
        Some(joined)
      else
        assert PoorReputation !in rs && SuspiciousTopLevelDomain !in rs && SuspiciousPattern !in rs;
        None
  }

  /** For a link that parses, the text shown is every fired reason's message, in emission
      order, each at its offset and one space between neighbours; there is text exactly when
      some reason fired. */
  lemma ReasonTextLayout(parse: Parser, url: string)
    requires SanitizeURL(parse, url).Some?
    ensures var rs := CollectReasons(parse, url, SanitizeURL(parse, url).value.hostname);
      var r := GetSuspiciousReason(parse, url);
      && (r.Some? <==> |rs| > 0)
      && (r.Some? ==> |r.value| + 1 == PartStart(Messages(rs), " ", |rs|))
      && (r.Some? ==> forall k :: 0 <= k < |rs| ==>
            StandsAt(r.value, Message(rs[k]), PartStart(Messages(rs), " ", k)))
      && (r.Some? ==> forall k :: 0 <= k < |rs| - 1 ==>
            StandsAt(r.value, " ", SepStart(Messages(rs), " ", k)))
  {
    var rs := CollectReasons(parse, url, SanitizeURL(parse, url).value.hostname);
    JoinLayout(Messages(rs), " ");
  }

  /** Because `checkDomainReputation` answers `'safe'` exactly for legitimate domains, the
      reputation reason and the typosquatting reason always come together. */
  lemma ReputationIffTyposquatting(parse: Parser, url: string, hostname: string)
    ensures PoorReputation in CollectReasons(parse, url, hostname) <==>
            Typosquatting in CollectReasons(parse, url, hostname)
  {
  }

  /** `expandShortenedURL` leaves `normalizeURL`'s result alone, so for a link that parses
      the patterns are matched against the origin followed by the lower-cased path. */
  lemma PatternInputIsNormalized(parse: Parser, url: string)
    requires SanitizeURL(parse, url).Some?
    ensures var u := SanitizeURL(parse, url).value;
      PatternInput(parse, url) == u.origin + ToLower(u.pathname)
  {
  }

  /** The lower-casing of the path does not change whether the pattern reason fires: the
      verdict is the one on the origin followed by the path as parsed. */
  lemma PatternReasonIgnoresPathCase(parse: Parser, url: string)
    requires SanitizeURL(parse, url).Some?
    ensures var u := SanitizeURL(parse, url).value;
      MatchesSuspiciousPattern(PatternInput(parse, url)) <==>
        MatchesSuspiciousPattern(u.origin + u.pathname)
  {
    var u := SanitizeURL(parse, url).value;
    LowerIsSameUpToCase(u.pathname);
    assert SameUpToCase(u.origin + u.pathname, u.origin + ToLower(u.pathname));
    PatternsIgnoreCase(u.origin + u.pathname, u.origin + ToLower(u.pathname));
  }

  /** A link that parses to a host within two edits of a trusted entry never gets the
      typosquatting reason, nor the reputation reason: the fuzzy match accepts it. */
  lemma NearMissGetsNoDomainReason(parse: Parser, url: string, d: string)
    requires SanitizeURL(parse, url).Some?
    requires d in LegitimateDomains
    requires EditDistance.Distance(ToLower(SanitizeURL(parse, url).value.hostname), d) <= TypoThreshold
    ensures var rs := CollectReasons(parse, url, SanitizeURL(parse, url).value.hostname);
      Typosquatting !in rs && PoorReputation !in rs
  {
    NearMissIsLegitimate(ToLower(SanitizeURL(parse, url).value.hostname), LegitimateDomains, d);
  }

  /** A link that parses to a host of at most seven characters gets both domain reasons,
      the typosquatting one included, whatever the host looks like. */
  lemma ShortHostGetsTyposquattingReason(parse: Parser, url: string)
    requires SanitizeURL(parse, url).Some?
    requires |SanitizeURL(parse, url).value.hostname| <= 7
    ensures var rs := CollectReasons(parse, url, SanitizeURL(parse, url).value.hostname);
      Typosquatting in rs && PoorReputation in rs
  {
    ShortHostIsNotLegitimate(ToLower(SanitizeURL(parse, url).value.hostname));
  }
}
