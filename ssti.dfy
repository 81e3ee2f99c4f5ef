/**
 * `SstiScanner`: the parameter-probing detector with the server-side template injection payload table, critical findings and
 * evidence cut at 200 bytes.
 */
module Ssti {
  import opened Wrappers
  import opened Text
  import opened Types
  import opened Url
  import opened Client
  import opened Payloads
  import opened Injection

  const Name: string := "SSTI Scanner"

  /** The parameters probed when the URL has no query. */
  const Fallback: seq<string> := ["template", "view", "name", "message", "content"]

  const Detector: ParamDetector := ParamDetector(
    SSTI, Critical, ForSsti().payloads, Fallback, BodyPatterns(200),
    "Server-Side Template Injection (SSTI) detected using ",
    ". This can lead to Remote Code Execution.",
    "Use a safe templating engine. Never use user input directly in templates. Implement sandboxing for template rendering.")

  /**
   * Every server-side template injection finding is a critical GET finding on a probed parameter, with a curl proof of
   * concept for its URL and at most 203 bytes of evidence; it names a payload that has
   * detection patterns.
   */
  lemma SstiFindings(net: Network, lib: UrlLibrary, url: string, v: Vulnerability)
    requires v in ScanFindings(net, lib, Detector, url)
    ensures v.vulnType == SSTI && v.severity == Critical && v.httpMethod == GET
    ensures v.parameter.Some? && v.parameter.value in Params(lib, Detector, url)
    ensures v.poc == Some("curl -v '" + v.url + "'")
    ensures Utf8Len(v.evidence) <= 203
    ensures exists p | p in ForSsti().payloads :: !Silent(p) && v.payload == p.value
  {
    ScanFindingsWellFormed(net, lib, Detector, url, v);
    BodyFindingEvidence(net, lib, Detector, url, v);
  }

  /**
   * Without query keys the five fallback names are probed, and a scan reports at most one finding
   * per parameter and payload.
   */
  lemma SstiScanShape(net: Network, lib: UrlLibrary, url: string)
    ensures QueryKeys(lib, url) == [] ==> Params(lib, Detector, url) == Fallback
    ensures QueryKeys(lib, url) != [] ==> Params(lib, Detector, url) == QueryKeys(lib, url)
    ensures |ScanFindings(net, lib, Detector, url)| <= 4 * |Params(lib, Detector, url)|
  {
    AllFindingsCount(net, lib, Detector, url, Params(lib, Detector, url));
  }
}
