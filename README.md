# ShadowProbe scan pipeline in Dafny

This project models the core of ShadowProbe, a web vulnerability scanner written in Rust. It
follows one scan from its configuration to its reports:

- the shared vocabulary: HTTP methods, severities and their derived order, vulnerability types,
  findings, and the default scan configuration;
- the scan profiles and the lookup by name;
- the payload tables;
- the HTTP response predicates;
- the detectors:
  - SQL injection, XSS, LFI and SSTI, which are four copies of one parameter-probing algorithm;
  - open redirect;
  - XXE;
  - CORS;
- the scanner engine that chains the detectors;
- the crawler that walks a site's same-domain links to a bounded depth;
- the request cache with its time to live;
- the rate limiter's timing rule;
- the scan statistics counters;
- the payload evasion transforms;
- the AI analyzer's severity downgrade and false-positive filter;
- the console, CSV and SARIF reports.

What the scanner cannot see is a parameter of the model:

- The network is a function `Network = Request -> Option<HttpResponse>`. `None` stands for a
  transport error.
- The URL library (`Url.UrlLibrary`: parse and join) and the HTML link parser are functions too.
- The AI model's analysis and proof-of-concept generator are functions.
- The SSRF detector, whose source file is not part of this model, is an opaque detector in the
  engine's environment.
- Float formatting is a function: the console's percentage, the CSV score and the RFC 3339 time.
- Clocks are explicit `now` arguments, counted in nanoseconds.
- Random finding ids and wall-clock timestamps are the placeholders `""` and `0`.

Shared definitions:

- `Wrappers` holds `Option` and `Result`.
- `Text` holds substrings, character replacement, decimal and hex digits, UTF-8 length and ASCII
  case mapping.
- `Seqs` holds the `Somes`, `Flatten` and `Collect` folds.
- `PercentEncoding` makes the `urlencoding` crate concrete. It follows sections 2.1 and 2.3 of
  RFC 3986: unreserved characters stay, and every other UTF-8 byte becomes `%XX` in upper-case hex.
- `Evidence` holds the evidence truncation shared by the detectors.
- `Injection` holds the parameter-probing algorithm. It is instantiated by the `Sqli`, `Xss`,
  `Lfi`, `Ssti` and `OpenRedirect` modules.

Where the source changes state in place, the model does too:

- `Cache.ScanCache`, `RateLimiter.RateLimiter`, `Stats.ScanStatistics` and `Crawler.Crawler` are
  classes whose methods modify their fields.
- `Analyzer.EnhanceVulnerabilities` updates an array in place.
- The detector loops, the engine's loop, the console's `push_str` loop and the CSV row loop are
  methods with loop invariants. Each is proved equal to a specification function, and the
  properties are proved about those functions.

## Model

| member | source | states |
|---|---|---|
| Types.MethodName | crates/shadowprobe-core/src/types.rs:27-37 | every method name is a non-empty upper-case word |
| Types.MethodNameRoundTrip | crates/shadowprobe-core/src/types.rs:27-37 | reading a method's name back gives the method |
| Types.MethodNameInjective | crates/shadowprobe-core/src/types.rs:27-37 | distinct methods have distinct names |
| Types.Rank | crates/shadowprobe-core/src/types.rs:40-47 | the derived order's position of each severity is below 5 |
| Types.SeverityOrderTotal | crates/shadowprobe-core/src/types.rs:40-47 | the derived order is a strict total order with Critical < High < Medium < Low < Info (declaration order) |
| Types.SeverityName | crates/shadowprobe-core/src/types.rs:50-58 | each severity label is a non-empty upper-case word |
| Types.SeverityNameInjective | crates/shadowprobe-core/src/types.rs:50-58 | distinct severities have distinct labels |
| Types.ColorCode | crates/shadowprobe-core/src/types.rs:60-68 | every colour code is a seven-character ANSI "ESC[1;NNm" sequence |
| Types.ColorCodeInjective | crates/shadowprobe-core/src/types.rs:60-68 | distinct severities get distinct colours |
| Types.TypeName | crates/shadowprobe-core/src/types.rs:92-113 | a custom type shows its own name; every built-in name is non-empty |
| Types.TypeNamesDistinct | crates/shadowprobe-core/src/types.rs:92-113 | the built-in type names are pairwise distinct |
| Types.CustomNameCollides | crates/shadowprobe-core/src/types.rs:92-113 | a custom type can show the same name as a built-in one, so names do not identify types |
| Types.DefaultScanConfig | crates/shadowprobe-core/src/types.rs:168-187 | the default configuration has depth 3, 50 concurrent requests, timeout 10, AI on, aggressive mode off, redirects followed, scan types SQLi, XSS and SSRF |
| Client.ClassificationAgrees | crates/shadowprobe-scanner/src/client.rs:105-119 | success, redirect, client error and server error hold exactly for the 2xx, 3xx, 4xx and 5xx classes of section 15 of RFC 9110 |
| Client.ClassesExclusive | crates/shadowprobe-scanner/src/client.rs:105-119 | at most one predicate holds, and none outside 200-599 |
| Client.ContentType | crates/shadowprobe-scanner/src/client.rs:121-123 | present exactly when the "content-type" header is, with its value |
| Client.NoContentTypeNeither | crates/shadowprobe-scanner/src/client.rs:125-135 | without a content type a response is neither HTML nor JSON |
| Client.HtmlWithCharset | crates/shadowprobe-scanner/src/client.rs:125-135 | "text/html; charset=utf-8" is HTML and not JSON |
| Payloads.ForSqli | crates/shadowprobe-scanner/src/payloads.rs:15-53 | the SQLi set is tagged SQLInjection and has 5 payloads |
| Payloads.ForXss | crates/shadowprobe-scanner/src/payloads.rs:55-86 | the XSS set is tagged XSS and has 5 payloads |
| Payloads.ForSsrf | crates/shadowprobe-scanner/src/payloads.rs:88-119 | the SSRF set is tagged SSRF and has 5 payloads |
| Payloads.ForLfi | crates/shadowprobe-scanner/src/payloads.rs:121-147 | the LFI set is tagged LFI and has 4 payloads |
| Payloads.ForSsti | crates/shadowprobe-scanner/src/payloads.rs:149-175 | the SSTI set is tagged SSTI and has 4 payloads |
| Payloads.ForCommandInjection | crates/shadowprobe-scanner/src/payloads.rs:177-208 | the command-injection set is tagged CommandInjection and has 5 payloads |
| Payloads.ForOpenRedirect | crates/shadowprobe-scanner/src/payloads.rs:210-231 | the open-redirect set has 3 payloads, none with a detection pattern |
| Payloads.AllPayloads | crates/shadowprobe-scanner/src/payloads.rs:234-244 | seven sets, none empty |
| Payloads.AllPayloadsOrder | crates/shadowprobe-scanner/src/payloads.rs:234-244 | the sets come in the order SQLi, XSS, SSRF, LFI, SSTI, command injection, open redirect, with pairwise distinct types |
| Payloads.SqliDescriptionsNonEmpty | crates/shadowprobe-scanner/src/payloads_test.rs:61-68 | every SQLi payload has a description |
| Payloads.SqliTableContents | crates/shadowprobe-scanner/src/payloads_test.rs:13-14 | some SQLi payload contains "OR" and some contains "UNION" |
| Payloads.XssTableContents | crates/shadowprobe-scanner/src/payloads_test.rs:23 | some XSS payload contains "<script>" |
| Payloads.SsrfTargetsLoopback | crates/shadowprobe-scanner/src/payloads_test.rs:32 | some SSRF payload targets 127.0.0.1 |
| Payloads.SsrfTargetsMetadata | crates/shadowprobe-scanner/src/payloads_test.rs:35 | some SSRF payload targets the cloud metadata address 169.254.169.254 |
| Payloads.SilentPayloads | crates/shadowprobe-scanner/src/payloads.rs:15-175 | the time-based and authentication-bypass SQLi payloads have no pattern; every other SQLi payload and every XSS, LFI and SSTI payload has one |
| Config.Lookup | crates/shadowprobe-core/src/config.rs:137-145 | a found profile has the key as its name and comes from the list; None means no profile has that name |
| Config.LookupFinds | crates/shadowprobe-core/src/config.rs:137-145 | with distinct names, the profile named by the key is the one found |
| Config.PresetNamesDistinct | crates/shadowprobe-core/src/config.rs:27-120 | the four presets have distinct names |
| Config.ByName | crates/shadowprobe-core/src/config.rs:137-145 | a found preset's name is the lower-cased input; None means no preset has it |
| Config.ByNameFindsPreset | crates/shadowprobe-core/src/config.rs:137-145 | every preset is found by any spelling that lower-cases to its name |
| Config.ByNameUpperCase | crates/shadowprobe-core/src/config.rs:137-145 | "STEALTH" finds the stealth preset |
| Config.ByNameMixedCase | crates/shadowprobe-core/src/config.rs:137-145 | "Fast" finds the fast preset |
| Config.ByNameUnknown | crates/shadowprobe-core/src/config.rs:137-145 | an unknown name finds nothing |
| Config.DefaultProfile | crates/shadowprobe-core/src/config.rs:148-152 | the default profile is the balanced preset, which `by_name` finds under its own name |
| Config.RateLimitedPresets | crates/shadowprobe-core/src/config.rs:27-120 | only fast (100 ms) and stealth (2000 ms) set a rate limit |
| Config.PresetFacts | crates/shadowprobe-core/src/config.rs:27-120 | fast has depth 2 and 100 concurrent requests, deep is aggressive and uses evasion, every preset follows redirects |
| Config.BalancedMatchesScanConfigDefault | crates/shadowprobe-core/src/config.rs:46-68 | the balanced preset agrees with the default scan configuration on depth, concurrency, timeout, user agent, AI and aggressive mode |
| Config.DefaultConfig | crates/shadowprobe-core/src/config.rs:188-198 | the default configuration names the balanced profile, writes to "./output", logs at level "info", and has empty key and wordlist maps |
| Cache.NewFingerprint | crates/shadowprobe-scanner/src/cache.rs:16-25 | a fingerprint keeps url and method and hashes the parameters |
| Cache.KeyInjective | crates/shadowprobe-scanner/src/cache.rs:27-29 | for methods without ':', equal keys mean equal fingerprints |
| Cache.FingerprintKeys | crates/shadowprobe-scanner/src/cache.rs:150-156 | two GET keys for one url are equal exactly when the parameters' hashes are equal, so the test's differently hashed parameters get different keys |
| Cache.Retain | crates/shadowprobe-scanner/src/cache.rs:94-96 | retaining keeps exactly the live entries, unchanged |
| Cache.KeysPartition | crates/shadowprobe-scanner/src/cache.rs:99-110 | every entry is live or expired, never both |
| Cache.StatsOf | crates/shadowprobe-scanner/src/cache.rs:99-110 | total = active + expired, with active the live entries |
| Cache.RetainStats | crates/shadowprobe-scanner/src/cache.rs:94-110 | after retaining nothing is expired and the active count is unchanged |
| Cache.ScanCache.constructor | crates/shadowprobe-scanner/src/cache.rs:46-52 | an empty cache with the given TTL |
| Cache.ScanCache.Default | crates/shadowprobe-scanner/src/cache.rs:119-122 | an empty cache with a one-hour TTL |
| Cache.ScanCache.Get | crates/shadowprobe-scanner/src/cache.rs:54-68 | returns the stored result exactly when the entry is live; removes an expired entry and changes nothing else |
| Cache.ScanCache.Insert | crates/shadowprobe-scanner/src/cache.rs:71-80 | the key now maps to the result stamped now (last write wins) and nothing else changes; with a positive TTL it is then contained |
| Cache.ScanCache.Cleanup | crates/shadowprobe-scanner/src/cache.rs:94-96 | keeps exactly the live entries; no expired entry is left and the active count is unchanged |
| Cache.ScanCache.Clear | crates/shadowprobe-scanner/src/cache.rs:113-115 | the cache is empty |
| Cache.InsertThenGet | crates/shadowprobe-scanner/src/cache.rs:136-147 | before inserting the fingerprint is absent; afterwards it is contained and get returns "test_result" |
| RateLimiter.MinDelayMs | crates/shadowprobe-scanner/src/rate_limiter.rs:16-21 | the delay is 1000 / rps ms by truncating division, and 100 ms at rps 0 |
| RateLimiter.Permits | crates/shadowprobe-scanner/src/rate_limiter.rs:24 | at least one permit, and at least rps |
| RateLimiter.RateLimiter.constructor | crates/shadowprobe-scanner/src/rate_limiter.rs:16-27 | delay, permits and the last request at the construction time |
| RateLimiter.RateLimiter.Acquire | crates/shadowprobe-scanner/src/rate_limiter.rs:32-48 | with no permit it waits (None, nothing changes); otherwise it takes a permit and starts no earlier than now and no earlier than the last start plus the delay, and the history of starts stays spaced by the delay |
| RateLimiter.RateLimiter.Release | crates/shadowprobe-scanner/src/rate_limiter.rs:68-70 | dropping the guard returns the permit |
| RateLimiter.RateLimiter.Backoff | crates/shadowprobe-scanner/src/rate_limiter.rs:51-64 | no wait unless adaptive; 2 s on 429 or 5xx; else 500 ms above a 5 s response, and none otherwise |
| RateLimiter.SpacedSpan | crates/shadowprobe-scanner/src/rate_limiter.rs:36-45 | starts spaced by the delay span at least i delays after i steps |
| RateLimiter.PresetDelays | crates/shadowprobe-scanner/src/rate_limiter.rs:77-94 | the presets wait 10, 50 and 500 ms; fast is not adaptive, the others and every custom one are |
| RateLimiter.FiveAcquisitions | crates/shadowprobe-scanner/src/rate_limiter.rs:101-113 | five acquisitions at 10 requests per second take at least 400 ms, whatever else delays them |
| Stats.ScanStatistics.constructor | crates/shadowprobe-core/src/stats.rs:24-41 | all counters zero, no times recorded, fastest at Duration::MAX and slowest at zero |
| Stats.ScanStatistics.RecordRequest | crates/shadowprobe-core/src/stats.rs:43-65 | total grows by one and exactly one of successes and failures does; bytes grow by the size; fastest and slowest stay the extremes of all times; the average takes the step as written, weighting the old average by the incremented count and dividing by one more, so average × (count + 1) never exceeds the sum of the times (see Findings) |
| Stats.ScanStatistics.CalculateThroughput | crates/shadowprobe-core/src/stats.rs:68-73 | records the scan duration and changes no counter |
| Stats.ScanStatistics.SuccessRate | crates/shadowprobe-core/src/stats.rs:75-80 | a percentage, 0 before any request, 100 exactly when nothing failed |
| Stats.ScanStatistics.EfficiencyScore | crates/shadowprobe-core/src/stats.rs:89-95 | non-negative, 0 before any request, 0 afterwards exactly when no vulnerability was found |
| Stats.ScanStatistics.AverageBytesPerRequest | crates/shadowprobe-core/src/stats.rs:82-87 | bytes divided by requests, truncated, and 0 before any request |
| Stats.Percent | crates/shadowprobe-core/src/stats.rs:75-95 | part × 100 / whole, between 0 and 100 for a part of the whole |
| Stats.ConsistentStep | crates/shadowprobe-core/src/stats.rs:43-60 | one more request keeps total = successes + failures, bytes the sum of sizes, and fastest/slowest the minimum/maximum |
| Stats.MinMax | crates/shadowprobe-core/src/stats.rs:54-60 | the minimum and maximum are recorded values bounding every other |
| Stats.AverageAsWritten | crates/shadowprobe-core/src/stats.rs:62-64 | the average as the source updates it |
| Stats.AverageAsWrittenBelowSum | crates/shadowprobe-core/src/stats.rs:62-64 | the average as written, weighted by one more than the count, is at most the sum of the times: it always lies below the true mean |
| Stats.AverageAsWrittenHalves | crates/shadowprobe-core/src/stats.rs:62-64 | as written, one 100 ms request averages 50 ms, and the three requests of the test average 87.5 ms instead of 116.67 ms |
| Stats.RunningMean | crates/shadowprobe-core/src/stats.rs:62-64 | the corrected running mean |
| Stats.RunningMeanBelowSum | crates/shadowprobe-core/src/stats.rs:62-64 | the running mean never exceeds the exact mean |
| Stats.RunningMeanConstant | crates/shadowprobe-core/src/stats.rs:62-64 | when every time is t, the running mean is t |
| Stats.ThreeRequests | crates/shadowprobe-core/src/stats.rs:126-137 | 3 requests, 2 successes, 1 failure, 3584 bytes, a success rate of 200/3 %, and an average of 87.5 ms as written (the true mean is 116.67 ms) |
| Evasion.DoubleEncodeEscapesPercent | crates/shadowprobe-scanner/src/evasion.rs:8-16 | double encoding is single encoding with every '%' turned into "%25" |
| Evasion.UnicodeEscape | crates/shadowprobe-scanner/src/evasion.rs:19-24 | each escape is "\u" and at least four digits |
| Evasion.UnicodeEscapeValue | crates/shadowprobe-scanner/src/evasion.rs:19-24 | an escape's digits are hex for the character's code point |
| Evasion.UnicodeRoundTrip | crates/shadowprobe-scanner/src/evasion.rs:19-24 | decoding the escapes gives the input back |
| Evasion.UnicodeEncodeBmpLength | crates/shadowprobe-scanner/src/evasion.rs:19-24 | text in the Basic Multilingual Plane grows six-fold |
| Evasion.HtmlEntity | crates/shadowprobe-scanner/src/evasion.rs:27-39 | every entity runs from '&' to its only ';' |
| Evasion.EntityRoundTrip | crates/shadowprobe-scanner/src/evasion.rs:27-39 | each entity names its character |
| Evasion.HtmlRoundTrip | crates/shadowprobe-scanner/src/evasion.rs:27-39 | decoding the entities gives the input back |
| Evasion.HtmlEncodeNoMarkup | crates/shadowprobe-scanner/src/evasion.rs:27-39 | the output has no '<', '>', '"' or '\'' |
| Evasion.HexEncode | crates/shadowprobe-scanner/src/evasion.rs:42-44 | the output is hex digits only |
| Evasion.HexEncodeNotInjective | crates/shadowprobe-scanner/src/evasion.rs:42-44 | without padding, U+0001 U+0002 and U+0012 both give "12" |
| Evasion.HexEncodeByteWidth | crates/shadowprobe-scanner/src/evasion.rs:42-44 | characters from U+0010 to U+00FF take two digits each |
| Evasion.MixedCase | crates/shadowprobe-scanner/src/evasion.rs:47-59 | same length; upper case at even positions, lower case at odd ones |
| Evasion.MixedCaseIdempotent | crates/shadowprobe-scanner/src/evasion.rs:47-59 | applying it twice is applying it once |
| Evasion.MixedCaseKeepsText | crates/shadowprobe-scanner/src/evasion.rs:47-59 | the text is unchanged up to letter case |
| Evasion.MixedCaseSelect | crates/shadowprobe-scanner/src/evasion.rs:165-169 | "SELECT" becomes "SeLeCt" |
| Evasion.ObfuscateWhitespaceNoSpace | crates/shadowprobe-scanner/src/evasion.rs:62-66 | no space is left |
| Evasion.ObfuscateWhitespaceKeepsEquals | crates/shadowprobe-scanner/src/evasion.rs:62-66 | the number of '=' is unchanged |
| Evasion.ObfuscateWithoutEquals | crates/shadowprobe-scanner/src/evasion.rs:62-71 | without '=' it is the comment evasion |
| Evasion.SqlCommentEvasionShape | crates/shadowprobe-scanner/src/evasion.rs:69-71 | no space is left, and each space costs three more characters |
| Evasion.NullByteInject | crates/shadowprobe-scanner/src/evasion.rs:143-146 | the payload followed by "%00.jpg" |
| Evasion.CrlfInject | crates/shadowprobe-scanner/src/evasion.rs:148-150 | "%0d%0a" followed by the payload |
| Evasion.GenerateVariants | crates/shadowprobe-scanner/src/evasion.rs:93-107 | the payload first, then its URL, double-URL and mixed-case encodings; six variants when it names SELECT or UNION, else four |
| Evasion.VariantsOfSelect | crates/shadowprobe-scanner/src/evasion.rs:172-176 | "SELECT * FROM users" gets six variants |
| PercentEncoding.EncodeHasNoDelimiters | crates/shadowprobe-scanner/src/scanners/sqli.rs:33-37 | an encoded value has no '&', '=', '#' or '?' |
| PercentEncoding.EncodeUnreserved | crates/shadowprobe-scanner/src/scanners/sqli.rs:33-37 | unreserved text is left as it is |
| PercentEncoding.EncodeOfEncoded | crates/shadowprobe-scanner/src/evasion.rs:13-16 | encoding encoded text only turns each '%' into "%25" |
| PercentEncoding.EncodeApostrophe | crates/shadowprobe-scanner/src/evasion.rs:158-162 | the apostrophe encodes as "%27" |
| Evidence.BytePrefix | crates/shadowprobe-scanner/src/scanners/sqli.rs:78-84 | the longest prefix within n UTF-8 bytes |
| Evidence.BoundaryIff | crates/shadowprobe-scanner/src/scanners/sqli.rs:78-84 | the cut lands on n bytes exactly when n is a character boundary |
| Evidence.EvidencePanics | crates/shadowprobe-scanner/src/scanners/sqli.rs:78-84 | as written, cutting inside a two-byte character panics, for any limit |
| Evidence.EvidencePanicsAt300 | crates/shadowprobe-scanner/src/scanners/sqli.rs:78-84 | as written, 299 'a' followed by 'é' panic at the 300-byte limit |
| Evidence.EvidenceShape | crates/shadowprobe-scanner/src/scanners/sqli.rs:78-84 | a short body is kept whole; a long one becomes a proper prefix and "..."; at most 3 bytes over the limit |
| Evidence.EvidenceAgrees | crates/shadowprobe-scanner/src/scanners/sqli.rs:78-84 | the corrected cut agrees with the code as written wherever that does not panic, and it panics exactly when the limit is not a boundary |
| Injection.ProbeUrlShape | crates/shadowprobe-scanner/src/scanners/sqli.rs:33-37 | the probe URL is the base, then '&' if it has a '?' else '?', then param=encoded value, which opens no other pair, fragment or query |
| Injection.ProbeUrlQuery | crates/shadowprobe-scanner/src/scanners/sqli.rs:33-37 | the probe URL has a '?' and adds none when the base has one |
| Injection.SilentNeverMatches | crates/shadowprobe-scanner/src/scanners/sqli.rs:74-76 | a payload without patterns never matches a body |
| Injection.ExternalHostIff | crates/shadowprobe-scanner/src/scanners/open_redirect.rs:96-103 | a location is external exactly when it parses with a host containing "evil.com" or other than "target.com" |
| Injection.OpenRedirectRule | crates/shadowprobe-scanner/src/scanners/open_redirect.rs:79-104 | no redirect without a 3xx status and a location; with both, the location tests decide |
| Injection.TestParameter | crates/shadowprobe-scanner/src/scanners/sqli.rs:24-72 | the loop yields one finding per matching payload, in table order, skipping failed requests |
| Injection.Scan | crates/shadowprobe-scanner/src/scanners/sqli.rs:107-125 | the loop over parameters returns Ok with their findings concatenated |
| Injection.ParamFindingsMember | crates/shadowprobe-scanner/src/scanners/sqli.rs:24-72 | a finding on a parameter comes from a payload whose probe matched |
| Injection.AllFindingsMember | crates/shadowprobe-scanner/src/scanners/sqli.rs:107-125 | a finding of the scan is a finding of one of the parameters |
| Injection.AllFindingsAppend | crates/shadowprobe-scanner/src/scanners/sqli.rs:107-125 | findings come out parameter by parameter |
| Injection.AllFindingsCount | crates/shadowprobe-scanner/src/scanners/sqli.rs:107-125 | at most parameters × payloads findings |
| Injection.OfflineFindsNothing | crates/shadowprobe-scanner/src/scanners/sqli.rs:65-67 | with every request failing there is no finding and no error |
| Injection.FindingSource | crates/shadowprobe-scanner/src/scanners/sqli.rs:24-125 | every finding is the probe of one parameter with one payload |
| Injection.ScanFindingsWellFormed | crates/shadowprobe-scanner/src/scanners/sqli.rs:44-58 | every finding has the detector's type, severity and remediation, GET, a probed parameter, no AI data, and a curl proof of concept |
| Injection.BodyFindingEvidence | crates/shadowprobe-scanner/src/scanners/sqli.rs:44-84 | a body-pattern finding's evidence is the truncated body of a response containing a pattern (corrected evidence cut) |
| Injection.FindingReason | crates/shadowprobe-scanner/src/scanners/sqli.rs:24-84 | each finding's response matched its payload |
| Sqli.SqliFindings | crates/shadowprobe-scanner/src/scanners/sqli.rs:44-58 | SQLi findings are Critical GET findings on a probed parameter with at most 303 bytes of evidence |
| Sqli.SqliReportedPayloads | crates/shadowprobe-scanner/src/scanners/sqli.rs:24-76 | only the three payloads with patterns can be reported; the sleep and comment payloads never are |
| Sqli.ReportedAmong | crates/shadowprobe-scanner/src/payloads.rs:15-53 | the SQLi payloads with patterns are the three boolean and UNION ones |
| Sqli.SqliScanShape | crates/shadowprobe-scanner/src/scanners/sqli.rs:86-125 | the query keys are probed, or the fallback names when there are none; at most 5 findings per parameter |
| Xss.XssFindings | crates/shadowprobe-scanner/src/scanners/xss.rs:44-58 | XSS findings are High GET findings reporting an XSS payload with patterns |
| Xss.XssScanShape | crates/shadowprobe-scanner/src/scanners/xss.rs:86-125 | query keys or the fallback names; at most 5 findings per parameter |
| Lfi.LfiFindings | crates/shadowprobe-scanner/src/scanners/lfi.rs:44-58 | LFI findings are High GET findings reporting an LFI payload |
| Lfi.LfiScanShape | crates/shadowprobe-scanner/src/scanners/lfi.rs:86-125 | query keys or the fallback names; at most 4 findings per parameter |
| Ssti.SstiFindings | crates/shadowprobe-scanner/src/scanners/ssti.rs:44-58 | SSTI findings are Critical GET findings with at most 203 bytes of evidence |
| Ssti.SstiScanShape | crates/shadowprobe-scanner/src/scanners/ssti.rs:86-125 | query keys or the fallback names; at most 4 findings per parameter |
| OpenRedirect.OpenRedirectFindings | crates/shadowprobe-scanner/src/scanners/open_redirect.rs:24-77 | open-redirect findings are Medium GET findings whose probe answered 3xx with a location, reported as "Status: s, Location: l" |
| OpenRedirect.OpenRedirectScanShape | crates/shadowprobe-scanner/src/scanners/open_redirect.rs:106-147 | query keys or the eight fallback names; at most 3 findings per parameter |
| Xxe.XxePayloads | crates/shadowprobe-scanner/src/scanners/xxe.rs:19-72 | five payloads; the blind-DTD and SVG ones have no pattern |
| Xxe.XxeIsVulnerableSame | crates/shadowprobe-scanner/src/scanners/xxe.rs:124-129 | the empty-list guard changes nothing; an empty list never matches |
| Xxe.ShellEscapeShape | crates/shadowprobe-scanner/src/scanners/xxe.rs:104-108 | escaping adds one character per newline and per '"' |
| Xxe.TestXmlEndpoint | crates/shadowprobe-scanner/src/scanners/xxe.rs:74-122 | each payload is POSTed as application/xml in order; matching responses give findings and failed requests are skipped |
| Xxe.Scan | crates/shadowprobe-scanner/src/scanners/xxe.rs:164-172 | Ok with the endpoint's findings, or nothing for a URL without an XML indicator |
| Xxe.XxeAtMostThree | crates/shadowprobe-scanner/src/scanners/xxe.rs:139-172 | no finding without an indicator, and at most three findings |
| Xxe.ReportedDocument | crates/shadowprobe-scanner/src/scanners/xxe.rs:19-72 | only the classic, parameter-entity and CDATA documents can be reported |
| Xxe.XxeFindings | crates/shadowprobe-scanner/src/scanners/xxe.rs:90-108 | XXE findings are High POST findings on the URL itself with no parameter, a curl proof of concept and at most 303 bytes of evidence (corrected evidence cut) |
| Cors.TestCorsMisconfiguration | crates/shadowprobe-scanner/src/scanners/cors.rs:19-106 | each origin is probed in order; misconfigured responses give findings and failed requests are skipped |
| Cors.Scan | crates/shadowprobe-scanner/src/scanners/cors.rs:126-130 | Ok with the findings for the four origins |
| Cors.MisconfiguredIff | crates/shadowprobe-scanner/src/scanners/cors.rs:41-46 | a finding exactly when the allowed origin is "*", "null" or contains the probed origin |
| Cors.SeverityRule | crates/shadowprobe-scanner/src/scanners/cors.rs:48-57 | Critical exactly with credentials, otherwise High for "*" or "null" and Medium for the rest |
| Cors.CorsAtMostFour | crates/shadowprobe-scanner/src/scanners/cors.rs:26-39 | at most four findings |
| Cors.CorsFindingsShape | crates/shadowprobe-scanner/src/scanners/cors.rs:41-85 | every finding answers one probed origin, with its payload and evidence; its severity is Critical with credentials, otherwise High for a wildcard or null origin and Medium for a reflected one |
| Cors.NoHeaderNoFinding | crates/shadowprobe-scanner/src/scanners/cors.rs:41 | no allowed-origin header, no finding |
| Engine.ScanWith | crates/shadowprobe-scanner/src/scanners/mod.rs:12-15 | runs one detector |
| Engine.ScanUrl | crates/shadowprobe-scanner/src/scanners/mod.rs:35-48 | the loop concatenates the detectors' findings, or stops at the first error |
| Engine.AllSucceed | crates/shadowprobe-scanner/src/scanners/mod.rs:35-48 | the scan succeeds exactly when every detector does, with their findings in registration order |
| Engine.FirstFailure | crates/shadowprobe-scanner/src/scanners/mod.rs:43 | a failed scan returns the error of the first failing detector, all before it having succeeded |
| Engine.OnlySsrfFails | crates/shadowprobe-scanner/src/scanners/mod.rs:35-48 | only the SSRF detector can fail |
| Engine.NewEngineScan | crates/shadowprobe-scanner/src/scanners/mod.rs:23-52 | five detectors with SSRF third; the scan fails exactly when the SSRF detector does, with its error (corrected evidence cut) |
| Engine.FindingsTyped | crates/shadowprobe-scanner/src/scanners/mod.rs:35-48 | every finding of a modelled detector has that detector's type |
| Crawler.StripFragment | crates/shadowprobe-scanner/src/crawler.rs:132-138 | the prefix before the first '#' (the fragment of section 3.5 of RFC 3986) |
| Crawler.StripFragmentOf | crates/shadowprobe-scanner/src/crawler.rs:132-138 | a link without '#' is kept, and "a#b" becomes "a" |
| Crawler.StripFragmentIdempotent | crates/shadowprobe-scanner/src/crawler.rs:132-138 | stripping twice is stripping once |
| Crawler.ResolveLinks | crates/shadowprobe-scanner/src/crawler.rs:108-145 | every link is non-empty and has no fragment |
| Crawler.ResolveLinksMember | crates/shadowprobe-scanner/src/crawler.rs:108-145 | a link is extracted exactly when some reference resolves to it |
| Crawler.ExtractLinks | crates/shadowprobe-scanner/src/crawler.rs:108-145 | fails with InvalidUrl when the page URL does not parse, else resolves every reference the parser finds |
| Crawler.SameDomainCases | crates/shadowprobe-scanner/src/crawler.rs:147-153 | an unparseable link is never same-domain; otherwise the domains must be equal |
| Crawler.Followed | crates/shadowprobe-scanner/src/crawler.rs:92-97 | the followed links are same-domain links not yet visited |
| Crawler.FollowedMember | crates/shadowprobe-scanner/src/crawler.rs:92-97 | a link is followed exactly when it is a same-domain link not yet visited |
| Crawler.Crawler.constructor | crates/shadowprobe-scanner/src/crawler.rs:20-37 | an empty crawl of the given base, depth and concurrency |
| Crawler.NewCrawler | crates/shadowprobe-scanner/src/crawler.rs:20-37 | fails with InvalidUrl on an unparseable seed, else an empty crawler |
| Crawler.Crawler.CrawlRecursive | crates/shadowprobe-scanner/src/crawler.rs:53-106 | a URL too deep or already visited changes nothing; a new one is discovered at its depth and fetched once; for a new HTML page whose URL parses, its links are recorded as the resolved references and, below the maximum depth, every same-domain link on it ends up visited; the walk stays sound |
| Crawler.Crawler.Enter | crates/shadowprobe-scanner/src/crawler.rs:60-69 | the URL is visited and discovered at its depth |
| Crawler.Crawler.Visit | crates/shadowprobe-scanner/src/crawler.rs:73-106 | a fetch error or a non-HTML page ends the branch with Ok; only an unparseable page URL aborts; an HTML page's links are recorded and, below the maximum depth, every same-domain link on it ends up visited |
| Crawler.Crawler.QueueLinks | crates/shadowprobe-scanner/src/crawler.rs:92-97 | the queued tasks are the followed links |
| Crawler.Crawler.CrawlChildren | crates/shadowprobe-scanner/src/crawler.rs:100-102 | the queued children are awaited one after another, their errors discarded: below the maximum depth every one ends up visited, and the first, when new, is entered one level down |
| Crawler.Crawler.AwaitTask | crates/shadowprobe-scanner/src/crawler.rs:101 | awaiting one queued child crawls it one level down: below the maximum depth it ends up visited, entered at that depth when it was new |
| Crawler.Crawler.DiscoveredUrls | crates/shadowprobe-scanner/src/crawler.rs:155-157 | every discovered URL, once each |
| Crawler.Crawler.Crawl | crates/shadowprobe-scanner/src/crawler.rs:39-51 | the seed is visited at depth 0; the crawl never returns when there are no permits; on success it returns the discovered URLs |
| Crawler.LinkPath | crates/shadowprobe-scanner/src/crawler.rs:53-106 | every visited URL is reached from the seed by a chain of same-domain links, one per depth level, within the depth bound |
| Analyzer.Downgrade | crates/shadowprobe-ai/src/analyzer.rs:69-77 | one rank toward Info, which stays put |
| Analyzer.EnhanceOneShape | crates/shadowprobe-ai/src/analyzer.rs:20-42 | records the confidence and analysis; downgrades exactly below 0.4; never overwrites a proof of concept, and adds one only at 0.7 or more; leaves the other fields unchanged |
| Analyzer.DisabledEnhance | crates/shadowprobe-ai/src/analyzer.rs:17-44 | with the model disabled only the confidence 0.5 and the fixed analysis are added |
| Analyzer.EnhanceVulnerabilities | crates/shadowprobe-ai/src/analyzer.rs:17-44 | every element is enhanced in place, in order |
| Analyzer.EnhancedRanks | crates/shadowprobe-ai/src/analyzer.rs:17-44 | over the whole list each finding moves at most one rank toward Info, exactly those with confidence below 0.4 that are not Info move, and the rank total grows by the number moved, at most the list's length |
| Analyzer.EnhancedShape | crates/shadowprobe-ai/src/analyzer.rs:17-44 | length and order kept; id, type, url, payload and evidence unchanged; confidence and analysis set |
| Analyzer.FilterMember | crates/shadowprobe-ai/src/analyzer.rs:80-91 | a finding is kept exactly when it has no confidence or one of at least 0.3 |
| Analyzer.FilterAppend | crates/shadowprobe-ai/src/analyzer.rs:80-91 | filtering preserves order |
| Analyzer.FilterKeepsPlausible | crates/shadowprobe-ai/src/analyzer.rs:80-91 | plausible lists are kept whole; filtering is idempotent and never grows a list |
| Analyzer.DisabledKeepsAll | crates/shadowprobe-ai/src/analyzer.rs:17-91 | with the model disabled nothing is filtered out |
| Console.Colorize | crates/shadowprobe-report/src/console.rs:13-19 | the text unchanged when uncoloured, else code + text + reset |
| Console.Generate | crates/shadowprobe-report/src/console.rs:23-89 | the loop builds the report and always returns Ok |
| Console.ReportSummary | crates/shadowprobe-report/src/console.rs:36-46 | the report states the target, scan id, number of findings and endpoints, and requests |
| Console.ReportFindings | crates/shadowprobe-report/src/console.rs:48-65 | no findings gives the "No vulnerabilities detected" block and no entries; otherwise the "Vulnerabilities detected" line is directly followed by the first entry, and the report contains every finding's entry and each entry immediately followed by the next |
| Console.EntryIn | crates/shadowprobe-report/src/console.rs:59-65 | the entries' concatenation contains every finding's entry |
| Console.PairIn | crates/shadowprobe-report/src/console.rs:59-65 | in the entries' concatenation each entry is immediately followed by the next |
| Console.EntryNumber | crates/shadowprobe-report/src/console.rs:59-65 | the i-th entry starts with "i+1. " |
| Console.EntryPosition | crates/shadowprobe-report/src/console.rs:59-65 | the entries are numbered in list order |
| Console.EntryLines | crates/shadowprobe-report/src/console.rs:59-77 | an entry has one line per field, with the Parameter line exactly when there is a parameter and the AI Confidence line exactly when there is a confidence |
| Console.UncolouredPlain | crates/shadowprobe-report/src/console.rs:13-89 | an uncoloured report of plain text has no escape character |
| Console.ColouredStart | crates/shadowprobe-report/src/console.rs:26-34 | a coloured report starts with the cyan code |
| Csv.EscapeLength | crates/shadowprobe-report/src/exporters/csv.rs:45-47 | escaping adds one character per '"' |
| Csv.EscapeRoundTrip | crates/shadowprobe-report/src/exporters/csv.rs:45-47 | turning '""' back into '"' recovers the input (section 2 rule 7 of RFC 4180) |
| Csv.HeaderColumns | crates/shadowprobe-report/src/exporters/csv.rs:16-19 | the header line splits into the ten column names |
| Csv.Values | crates/shadowprobe-report/src/exporters/csv.rs:22-39 | a row has ten values |
| Csv.Export | crates/shadowprobe-report/src/exporters/csv.rs:12-43 | the loop writes the header and one row per finding, in order |
| Csv.ReadRecordRoundTrip | crates/shadowprobe-report/src/exporters/csv.rs:22-47 | a line of quoted escaped fields reads back as the fields |
| Csv.RowFields | crates/shadowprobe-report/src/exporters/csv.rs:22-39 | each row is ten quoted escaped fields and reads back as the finding's values |
| Csv.MissingValues | crates/shadowprobe-report/src/exporters/csv.rs:23-24 | a missing parameter gives "" and a missing confidence "N/A" |
| Csv.DocumentRoundTrip | crates/shadowprobe-report/src/exporters/csv.rs:12-43 | the file reads back as the header and one value row per finding, in order |
| Sarif.LevelIff | crates/shadowprobe-report/src/exporters/sarif.rs:91-98 | Critical and High are "error", Medium "warning", Low "note", Info "none" |
| Sarif.LevelAllowed | crates/shadowprobe-report/src/exporters/sarif.rs:91-98 | every level is one section 3.27.10 of SARIF 2.1.0 allows |
| Sarif.LevelMonotone | crates/shadowprobe-report/src/exporters/sarif.rs:91-98 | a more severe finding never gets a lower level |
| Sarif.RuleFields | crates/shadowprobe-report/src/exporters/sarif.rs:23-44 | a rule has the finding's id, level and type name |
| Sarif.ResultProperties | crates/shadowprobe-report/src/exporters/sarif.rs:63-69 | the properties hold the method, parameter ("" when missing), payload, evidence and confidence |
| Sarif.ResultRoundTrip | crates/shadowprobe-report/src/exporters/sarif.rs:46-72 | reading a result back gives the finding's rule id, level, message, uri, method, evidence and confidence |
| Sarif.ResultMatchesRule | crates/shadowprobe-report/src/exporters/sarif.rs:28-65 | the i-th result names the i-th rule, with the same level |
| Sarif.LogShape | crates/shadowprobe-report/src/exporters/sarif.rs:74-88 | version 2.1.0 and one run by the ShadowProbe driver, with one rule and one result per finding, in order |

## Left out

- Network I/O, TLS, redirects and timeouts in the HTTP client: the network is a parameter.
- HTML parsing with scraper, and URL parsing, joining and `query_pairs`: these are parameters.
  The model does not state which references a page contains or how they resolve.
- The SSRF detector: `scanners/ssrf.rs` is not part of this model. The engine takes its name,
  type and scan function as parameters.
- Concurrency: tokio tasks, semaphores, `DashMap`/`DashSet` and `sleep`.
  - The crawler is modelled as a sequential depth-first walk. The source awaits the children in
    order, so this is faithful.
  - A crawler created with a concurrency of 0 can never acquire a permit. The model reports this
    as the `Stalled` outcome.
  - The rate limiter's sleep is an `extra` delay argument, its clock an explicit `now`.
- Crate-level declarations: the cache, rate limiter, evasion, stats, XXE, CORS and open-redirect
  files are modelled even though the crates' `lib.rs`/`mod.rs` do not declare them.
- The severity order: `types_test.rs:13-18` asserts Critical > High, but that file is not compiled.
  The model follows the derived order of `types.rs:40`, Critical < High < Medium < Low < Info.
- Floating point: confidences, percentages and scores are exact reals; the 0.3, 0.4 and 0.7
  thresholds are constants. The float formatting in the console and CSV outputs is a function
  parameter. `requests_per_second`, `summary` and the score arithmetic of `model.rs` and
  `scoring.rs` are not modelled, nor is `prioritize_vulnerabilities`.
- `Uuid::new_v4` ids and `Utc::now` timestamps: findings carry `""` and `0`.
- SARIF output is a JSON value tree: pretty-printing and key order are not modelled.
- The HTML, Markdown and JSON reporters, `save_to_file` and the configuration file I/O are not
  modelled.
- The CLI commands (`scan.rs`, `list.rs`, `version.rs`) only orchestrate and print.
- `sql_concat_evasion`, `xss_polyglots` and `waf_bypasses` in evasion.rs are fixed string tables
  with nothing to prove.
- Case mapping (`to_lowercase`, `to_uppercase`) is ASCII only. Other letters are left unchanged.
- Evasion.MixedCaseIdempotent: holds for the ASCII case mapping only. Unicode case mapping can
  change lengths.
- Evasion.MixedCaseKeepsText: holds for the ASCII case mapping only.
- Stats.ScanStatistics.RecordRequest: requires fewer than 2^32 - 2 requests and times below
  Duration::MAX. It does not model the `as u32` truncation of the count, nor the panic when
  average × count overflows a Duration. `totalBytesTransferred` is unbounded, so the `u64`
  overflow of the byte total (a panic in debug builds, wrap-around in release) is not modelled.
- Injection.EvidenceOf, Xxe.XxeFinding: the detectors build evidence with the corrected cut at a
  character boundary. Where the source's `&body[..max_len]` panics (a multi-byte character
  across the limit), the model's scans, and so `Engine.NewEngineScan`, report the finding instead.
- Cache.KeyInjective: requires methods without ':'. The source only ever uses method names.
- Cache.FingerprintKeys: the hash is a parameter, so "id=1" and "id=2" get different keys only
  under the hash's own guarantee that they hash differently, which the source's test relies on.
- RateLimiter.RateLimiter.Acquire: waiting for a permit is the `None` result. The caller retries
  after a Release.

## Findings

| source | as written | input that shows it | evidently intended | confidence | as-written member | corrected member |
|---|---|---|---|---|---|---|
| crates/shadowprobe-scanner/src/scanners/sqli.rs:78-84 (likewise xss.rs, lfi.rs and ssti.rs:78-84, xxe.rs:131-137) | `&body[..max_len]` slices at a byte offset, which panics when that offset falls inside a multi-byte UTF-8 character | a body of 299 'a' followed by 'é', with the 300-byte limit | cut at the last character boundary within the limit, then append "..." | high, not executed | Evidence.EvidenceAsWritten (Evidence.EvidencePanicsAt300) | Evidence.Evidence (Evidence.EvidenceShape, Evidence.EvidenceAgrees) |
| crates/shadowprobe-core/src/stats.rs:62-64 | the average is multiplied by the count after its increment and divided by that count plus one | one request of 100 ms gives an average of 50 ms | the running mean: the old average weighted by the count before the request | medium, not executed | Stats.AverageAsWritten (Stats.AverageAsWrittenHalves) | Stats.RunningMean (Stats.RunningMeanConstant, Stats.RunningMeanBelowSum) |
