/**
 * `LfiScanner`: the parameter-probing detector with the local file inclusion payload table, high findings and
 * evidence cut at 300 bytes.
 */
module Lfi {
  import opened Wrappers
  import opened Text
  import opened Types
  import opened Url
  import opened Client
  import opened Payloads
  import opened Injection

  const Name: string := "LFI Scanner"

  /** The parameters probed when the URL has no query. */
  const Fallback: seq<string> := ["file", "path", "page", "include", "template"]

  const Detector: ParamDetector := ParamDetector(
    LFI, High, ForLfi().payloads, Fallback, BodyPatterns(300),
    "Local File Inclusion (LFI) detected using ",
    ". The application may allow reading arbitrary files.",
    "Use a whitelist of allowed files. Never directly use user input in file paths. Implement proper access controls.")

  /**
   * Every local file inclusion finding is a high GET finding on a probed parameter, with a curl proof of
   * concept for its URL and at most 303 bytes of evidence; it names a payload that has
   * detection patterns.
   */
  lemma LfiFindings(net: Network, lib: UrlLibrary, url: string, v: Vulnerability)
    requires v in ScanFindings(net, lib, Detector, url)
    ensures v.vulnType == LFI && v.severity == High && v.httpMethod == GET
    ensures v.parameter.Some? && v.parameter.value in Params(lib, Detector, url)
    ensures v.poc == Some("curl -v '" + v.url + "'")
    ensures Utf8Len(v.evidence) <= 303
    ensures exists p | p in ForLfi().payloads :: !Silent(p) && v.payload == p.value
  {
    ScanFindingsWellFormed(net, lib, Detector, url, v);
    BodyFindingEvidence(net, lib, Detector, url, v);
  }

  /**
   * Without query keys the five fallback names are probed, and a scan reports at most one finding
   * per parameter and payload.
   */
  lemma LfiScanShape(net: Network, lib: UrlLibrary, url: string)
    ensures QueryKeys(lib, url) == [] ==> Params(lib, Detector, url) == Fallback
    ensures QueryKeys(lib, url) != [] ==> Params(lib, Detector, url) == QueryKeys(lib, url)
    ensures |ScanFindings(net, lib, Detector, url)| <= 4 * |Params(lib, Detector, url)|
  {
    AllFindingsCount(net, lib, Detector, url, Params(lib, Detector, url));
  }
}
