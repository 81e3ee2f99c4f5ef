/**
 * `XssScanner`: the parameter-probing detector with the cross-site scripting payload table, high findings and
 * evidence cut at 300 bytes.
 */
module Xss {
  import opened Wrappers
  import opened Text
  import opened Types
  import opened Url
  import opened Client
  import opened Payloads
  import opened Injection

  const Name: string := "XSS Scanner"

  /** The parameters probed when the URL has no query. */
  const Fallback: seq<string> := ["q", "search", "query", "name", "message"]

  const Detector: ParamDetector := ParamDetector(
    XSS, High, ForXss().payloads, Fallback, BodyPatterns(300),
    "Cross-Site Scripting (XSS) detected using ",
    ". The application reflects user input without proper sanitization.",
    "Encode all user input before rendering in HTML context. Use Content Security Policy (CSP). Never trust user input.")

  /**
   * Every cross-site scripting finding is a high GET finding on a probed parameter, with a curl proof of
   * concept for its URL and at most 303 bytes of evidence; it names a payload that has
   * detection patterns.
   */
  lemma XssFindings(net: Network, lib: UrlLibrary, url: string, v: Vulnerability)
    requires v in ScanFindings(net, lib, Detector, url)
    ensures v.vulnType == XSS && v.severity == High && v.httpMethod == GET
    ensures v.parameter.Some? && v.parameter.value in Params(lib, Detector, url)
    ensures v.poc == Some("curl -v '" + v.url + "'")
    ensures Utf8Len(v.evidence) <= 303
    ensures exists p | p in ForXss().payloads :: !Silent(p) && v.payload == p.value
  {
    ScanFindingsWellFormed(net, lib, Detector, url, v);
    BodyFindingEvidence(net, lib, Detector, url, v);
  }

  /**
   * Without query keys the five fallback names are probed, and a scan reports at most one finding
   * per parameter and payload.
   */
  lemma XssScanShape(net: Network, lib: UrlLibrary, url: string)
    ensures QueryKeys(lib, url) == [] ==> Params(lib, Detector, url) == Fallback
    ensures QueryKeys(lib, url) != [] ==> Params(lib, Detector, url) == QueryKeys(lib, url)
    ensures |ScanFindings(net, lib, Detector, url)| <= 5 * |Params(lib, Detector, url)|
  {
    AllFindingsCount(net, lib, Detector, url, Params(lib, Detector, url));
  }
}
