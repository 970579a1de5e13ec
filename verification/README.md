# LinkDefense URL-risk classifier, modelled in Dafny

LinkDefense is a browser content script that marks the links on a page red (high alert), yellow
(medium alert) or leaves them alone. This project models its classification engine,
`content.js` lines 1-103 and the alert decision of `scanPage` (lines 181-188), as pure Dafny
functions, and proves properties of it for every input.

The modules follow the components of the engine:

- `Wrappers` — `Option`, standing for JavaScript's `null`-or-value.
- `Strings` — the string primitives the source uses: `startsWith`, `endsWith`, `some`, `trim`'s
  whitespace set, `toLowerCase`, `join`.
- `EditDistance` — `levenshtein`. `Distance` is the classic edit-distance recurrence over
  prefixes. Edit scripts (`Apply`, `Cost`) show that `Distance` is the least number of
  insertions, deletions and substitutions that rewrite one string into the other. Composing
  scripts gives the triangle inequality. The triangle inequality in turn justifies the source's
  shortcut of taking the diagonal cell, without a minimum, when two characters agree.
  `Levenshtein`/`NextRow` are the source's single-row program, proved equal to `Distance` by
  their loop invariants.
- `Url` — `sanitizeURL` and `normalizeURL`. The WHATWG `URL` parser is a parameter
  `parse: string -> Option<ParsedURL>`: `None` where the constructor throws, otherwise the
  `hostname`, `origin` and `pathname` it reports. Every property holds for every parser.
- `Legitimacy` — `isLegitimateDomain`, plus the placeholders `checkDomainReputation` and
  `expandShortenedURL`.
- `Signals` — the suspicious top-level-domain list and the five regular expressions of
  `suspiciousPatterns`. Each is written out as a string predicate with the meaning
  `RegExp.prototype.test` gives it: some match exists anywhere in the string.
- `Reasons` — `getSuspiciousReason`.
- `Scan` — the high/medium/none decision made for each link in `scanPage`.

The code is modelled as written, and two consequences are worth knowing.

First, the fuzzy match in `isLegitimateDomain` accepts near misses. A host within two edits of a
trusted entry, such as `paypa1.com`, counts as legitimate (`TyposquatOfPaypalIsLegitimate`).
It then gets no domain reason (`NearMissGetsNoDomainReason`), and over HTTPS with no other
signal it is not marked at all (`NearMissPassesUnmarked`).

Second, the reason "Potential typosquatting detected" fires for every host that is not
legitimate, whether or not it resembles a trusted entry (`ShortHostGetsTyposquattingReason`). It
always comes together with the reputation reason (`ReputationIffTyposquatting`).

The edit distance is taken against the whole host name with threshold 2. The code has no
shortener detector and no separate IP-literal detector: only the dotted-quad regular expression
sees IP addresses.

## Model

| member | source | states |
|---|---|---|
| `EditDistance.Levenshtein` | content.js:13-28 | The single-row dynamic program returns exactly the minimum edit distance of its two arguments. |
| `EditDistance.NextRow` | content.js:19-25 | One pass of the outer loop turns row `i` of the table into row `i + 1` in place: `prev` carries the new cell to the left while `tmp[j]` still holds the previous row's diagonal. |
| `EditDistance.ScriptCostBoundsDistance` | content.js:13-28 | No edit script that rewrites `a` into `b` uses fewer edits than the computed distance. |
| `EditDistance.OptimalScript` | content.js:13-28 | Some edit script attains the distance, so the distance is the minimum number of insertions, deletions and substitutions. |
| `EditDistance.Compose` | content.js:13-28 | Two scripts run back to back can be merged into one direct script costing no more than both together. |
| `EditDistance.Triangle` | content.js:13-28 | The distance obeys the triangle inequality. |
| `EditDistance.Symmetric` | content.js:13-28 | `levenshtein(a, b) == levenshtein(b, a)`. |
| `EditDistance.ZeroIffEqual` | content.js:13-28 | The distance is zero exactly between equal strings, so `levenshtein(a, a) == 0`. |
| `EditDistance.EmptyDistance` | content.js:15-17 | The distance between the empty string and `b` is the length of `b`, which is what row 0 holds. |
| `EditDistance.LengthBounds` | content.js:13-28 | The distance is at most the longer length and at least the difference of the lengths. |
| `EditDistance.EqualLastIsDiagonal` | content.js:21 | When the last characters agree, the distance equals the diagonal one, so the source may skip the minimum. |
| `EditDistance.CellStep` | content.js:21 | Each cell is the diagonal when the characters agree and otherwise one more than the least of diagonal, left and up. |
| `EditDistance.OneSubstitutionWithinOne` | content.js:56-58 | A single character swap anywhere in a string is within one edit, so inside the fuzzy-match threshold. |
| `Strings.Any` | content.js:57-59 | `some` is true exactly when some element satisfies the test. |
| `Strings.JoinLayout` | content.js:102 | `join` puts every part at its offset, in order, one separator between each two neighbours, and nothing else; the text is as long as the parts plus the separators. |
| `Url.Strip` | content.js:33 | The cleaned string contains no whitespace, `<` or `>`, and contains every other character of the input, and only those. |
| `Url.StripAppend` | content.js:33 | Cleaning distributes over concatenation. With the next two rows this fixes the result completely: the kept characters stay in order with their repeats. |
| `Url.StripKeepsClean` | content.js:33 | A string with no whitespace, `<` or `>` is left exactly as it is. |
| `Url.StripAllStripped` | content.js:33 | A string made only of whitespace, `<` and `>` cleans to the empty string. |
| `Url.StripIdempotent` | content.js:33 | Cleaning twice is cleaning once. |
| `Url.TrimIsSubsumed` | content.js:33 | The `trim()` before the `replace` changes nothing. |
| `Url.ParserInput` | content.js:33-38 | The string handed to the parser has no whitespace, `<` or `>`, starts with `http://` or `https://`, and ends with the cleaned input. `http://` is prepended exactly when the cleaned input did not already start with one of the two schemes. |
| `Url.ParserInputIdempotent` | content.js:33-38 | Sanitizing the string handed to the parser hands the parser the same string again. |
| `Url.SanitizeIgnoresStrippedChars` | content.js:33 | Links that differ only in whitespace or angle brackets, anywhere, sanitize to the same result. |
| `Url.NormalizeURLLowerCasesPath` | content.js:45-48 | On success the result is the origin followed by a text exactly as long as the parsed path that agrees with it up to case and has no ASCII capital. On failure it is such a lower-case twin of the raw input. |
| `Legitimacy.LegitimateHostIff` | content.js:57-59 | A host is legitimate exactly when some trusted entry equals it, is a dot-suffix of it, or is within two edits of it. |
| `Legitimacy.IsLegitimateDomain` | content.js:51-60 | False when the link does not parse. Otherwise true exactly when the lower-cased host name is a trusted entry, ends with `.` plus one, or is within two edits of one. |
| `Legitimacy.TrustedAndSubdomainsAreLegitimate` | content.js:58 | Every trusted entry and every subdomain of one is legitimate. |
| `Legitimacy.NearMissIsLegitimate` | content.js:56-58 | A host within two edits of a trusted entry is legitimate. |
| `Legitimacy.TyposquatOfPaypalIsLegitimate` | content.js:56-58 | `paypa1.com` is legitimate against the built-in trusted list. |
| `Legitimacy.ShortHostIsNotLegitimate` | content.js:51-60 | No host of seven characters or fewer, for example `evil.io`, is legitimate against the built-in list. |
| `Signals.SuspiciousTLDIsLastLabel` | content.js:90 | The suffix test flags a host exactly when it has a dot and its last label is `xyz`, `info`, `top`, `club`, `site` or `space`. |
| `Signals.PatternsIgnoreCase` | content.js:4-10 | Two strings that differ only in ASCII case match the suspicious patterns alike. |
| `Signals.DottedQuadAfterScheme` | content.js:6 | `http://192.168.1.1`, alone or followed by a path, matches the dotted-quad pattern. |
| `Reasons.Assemble` | content.js:83-100 | The pushes leave each reason in the list exactly when its check fired, once, in the order reputation, TLD, pattern, typosquatting. |
| `Reasons.CollectReasons` | content.js:83-100 | The reputation reason is present iff the reputation is not `'safe'`; the TLD reason iff the lower-cased host has a listed suffix; the pattern reason iff the normalized URL matches a pattern; the typosquatting reason iff the domain is not legitimate. The list is in that fixed order. |
| `Reasons.GetSuspiciousReason` | content.js:77-103 | `Invalid URL.` exactly when the link does not parse. Otherwise `null` exactly when the domain is legitimate and neither the TLD nor the pattern test fires, and when a reason fires the text is the fired reasons' messages joined with single spaces. A reason string is never empty. |
| `Reasons.ReasonTextLayout` | content.js:102 | For a link that parses, there is text exactly when some reason fired, and each fired reason's message stands at its offset in emission order with one space between neighbours. |
| `Reasons.ReputationIffTyposquatting` | content.js:85-100 | The reputation reason and the typosquatting reason are always present together. |
| `Reasons.PatternInputIsNormalized` | content.js:81 | `expandShortenedURL` changes nothing, so the patterns are matched against the origin followed by the lower-cased path. |
| `Reasons.PatternReasonIgnoresPathCase` | content.js:94 | Lower-casing the path never changes whether the pattern reason fires. |
| `Reasons.NearMissGetsNoDomainReason` | content.js:98-100 | A host within two edits of a trusted entry gets neither the typosquatting nor the reputation reason. |
| `Reasons.ShortHostGetsTyposquattingReason` | content.js:98-100 | A host of seven characters or fewer gets both domain reasons. |
| `Scan.LinkAlert` | content.js:182-187 | High exactly when a reason string comes back, and it carries that string. Medium exactly when none comes back and the address starts with `http:`, and it carries only the insecure-protocol message. Otherwise no alert. |
| `Scan.UnparsableLinkIsHigh` | content.js:78-79 | A link the parser rejects is marked high with `Invalid URL.`. |
| `Scan.NotHighIff` | content.js:182-187 | A link escapes the high alert exactly when it parses, is legitimate, and neither the TLD nor the pattern test fires. |
| `Scan.MediumMeansLegitimateHttp` | content.js:185-186 | A medium alert is given only to a legitimate link whose address starts with `http:` and that has no reason. |
| `Scan.TrustedLinkAlert` | content.js:182-187 | A trusted or subdomain link with no other signal gets medium over `http:` and no alert otherwise. |
| `Scan.ShortHostIsHigh` | content.js:182-184 | Every link whose host has seven characters or fewer is marked high. |
| `Scan.NearMissPassesUnmarked` | content.js:182-187 | A near miss of a trusted entry with no other signal is not marked when its address does not start with `http:`. |
| `Scan.DottedQuadOriginIsHigh` | content.js:94 | A link with origin `http://192.168.1.1` is marked high. |

## Left out

- DOM glue: `modifyElement`, `showPopup`, `hidePopup`, the injected stylesheet, the `MutationObserver`, and the walk over `document.querySelectorAll('a')` in `scanPage`. They are side effects with no decision logic. `Scan.LinkAlert` is the decision made for one link.
- The popup's `alert` class toggle (content.js line 155). It is presentation only.
- `popup.js`: Chrome message passing and list rendering.
- The WHATWG `URL` parser's internals (host extraction, origin serialisation, percent-encoding). The parser is a foreign library, so every operation takes it as the parameter `parse`.
- `async`/`await`: the two placeholders return at once, so they are pure functions here.
- Reputation services and shortener expansion: the code has neither, and the placeholders model what it does.
- Strings.ToLower: lower-cases ASCII letters only and leaves every other character as it is. JavaScript's `toLowerCase` also maps non-ASCII capitals, so for hosts, paths and raw inputs that contain them the model's lower-casing differs from the source's.
- Strings: the model's characters are Unicode scalar values. JavaScript indexes UTF-16 code units, so `levenshtein` on characters outside the Basic Multilingual Plane counts each as two units in the source and one here.
- Regular-expression engine: only the five listed patterns are modelled, each by its match-anywhere meaning. For `/\blogin\./i`, ASCII case folding is exact, because JavaScript's non-Unicode case folding never maps a non-ASCII character onto an ASCII one.
- Detectors the code does not have: it compares the whole host name against each trusted entry with a fixed threshold of 2. It has no shortener detector, no IP-literal detector beyond the dotted-quad pattern, and no trusted-domain loader, so the model has none either.
