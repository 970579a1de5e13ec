/** content.js `isLegitimateDomain` and the two placeholders built on it,
    `checkDomainReputation` and `expandShortenedURL`. */
module Legitimacy {
  import opened Wrappers
  import opened Strings
  import opened Url
  import EditDistance

  /** `legitimateDomains` (content.js line 2). */
  const LegitimateDomains: seq<string> := ["paypal.com", "example.com", "yourlegitdomain.com"]

  /** The fuzzy-match bound of content.js line 58. */
  const TypoThreshold: nat := 2

  /** The test `isLegitimateDomain` applies to each trusted entry: exact match, subdomain,
      or within two edits of the entry, comparing the whole host name. */
  predicate MatchesTrusted(host: string, domain: string)
  {
    || host == domain
    || EndsWith(host, "." + domain)
    || EditDistance.Distance(host, domain) <= TypoThreshold
  }

  /** Some entry of the trusted list accepts the host. */
  predicate IsLegitimateHost(host: string, domains: seq<string>)
  {
    Any(domains, d => MatchesTrusted(host, d))
  }

  /** A host is legitimate exactly when some trusted entry equals it, is a dot-suffix of it, or
      lies within two edits of it. */
  lemma LegitimateHostIff(host: string, domains: seq<string>)
    ensures IsLegitimateHost(host, domains) <==>
      exists d :: d in domains &&
        (host == d || EndsWith(host, "." + d) || EditDistance.Distance(host, d) <= TypoThreshold)
  {
    if IsLegitimateHost(host, domains) {
      var i :| 0 <= i < |domains| && MatchesTrusted(host, domains[i]);
      assert domains[i] in domains;
    }
    if exists d :: d in domains && MatchesTrusted(host, d) {
      var d :| d in domains && MatchesTrusted(host, d);
      var i :| 0 <= i < |domains| && domains[i] == d;
      assert MatchesTrusted(host, domains[i]);
    }
  }

  /** Every trusted entry and every subdomain of one is legitimate. */
  lemma TrustedAndSubdomainsAreLegitimate(host: string, domains: seq<string>, d: string)
    requires d in domains
    requires host == d || EndsWith(host, "." + d)
    ensures IsLegitimateHost(host, domains)
  {
    LegitimateHostIff(host, domains);
  }

  /** A host within two edits of a trusted entry is legitimate too: a near miss is accepted,
      not flagged. */
  lemma NearMissIsLegitimate(host: string, domains: seq<string>, d: string)
    requires d in domains
    requires EditDistance.Distance(host, d) <= TypoThreshold
    ensures IsLegitimateHost(host, domains)
  {
    LegitimateHostIff(host, domains);
  }

  /** content.js `isLegitimateDomain` (lines 51-60). */
  function IsLegitimateDomain(parse: Parser, url: string): (r: bool)
    ensures SanitizeURL(parse, url).None? ==> !r
    ensures SanitizeURL(parse, url).Some? ==>
      var host := ToLower(SanitizeURL(parse, url).value.hostname);
      (r <==> (exists d :: d in LegitimateDomains &&
                 (host == d || EndsWith(host, "." + d) || EditDistance.Distance(host, d) <= TypoThreshold)))
  {
    match SanitizeURL(parse, url)
    case None => false
    case Some(u) =>
      var host := ToLower(u.hostname);
      LegitimateHostIff(host, LegitimateDomains);
      IsLegitimateHost(host, LegitimateDomains)
  }

  /** The outcome of `checkDomainReputation`: `'safe'` or `'unknown'`. */
  datatype Reputation = Safe | Unknown

  /** content.js `checkDomainReputation` (lines 63-67), a placeholder that consults no
      service: the domain is safe exactly when it is legitimate. */
  function CheckDomainReputation(parse: Parser, url: string): (r: Reputation)
    ensures r == Safe <==> IsLegitimateDomain(parse, url)
  {
    if IsLegitimateDomain(parse, url) then Safe else Unknown
  }

  /** content.js `expandShortenedURL` (lines 70-74), a placeholder that expands nothing. */
  function ExpandShortenedURL(url: string): string
  {
    url
  }

  /** The typosquat `paypa1.com` is one substitution from `paypal.com`, so the source treats
      it as legitimate. */
  lemma TyposquatOfPaypalIsLegitimate()
    ensures IsLegitimateHost("paypa1.com", LegitimateDomains)
  {
    assert "paypa1.com" == "paypa" + ['1'] + ".com";
    assert "paypal.com" == "paypa" + ['l'] + ".com";
    EditDistance.OneSubstitutionWithinOne("paypa", '1', 'l', ".com");
    NearMissIsLegitimate("paypa1.com", LegitimateDomains, "paypal.com");
  }

  /** A host of seven characters or fewer, such as `evil.io`, is not legitimate: its length
      alone keeps it three or more edits away from every trusted entry. */
  lemma ShortHostIsNotLegitimate(host: string)
    requires |host| <= 7
    ensures !IsLegitimateHost(host, LegitimateDomains)
  {
    forall i | 0 <= i < |LegitimateDomains|
      ensures !MatchesTrusted(host, LegitimateDomains[i])
    {
      var d := LegitimateDomains[i];
      assert |d| >= 10;
      EditDistance.LengthBounds(host, d);
    }
  }
}
