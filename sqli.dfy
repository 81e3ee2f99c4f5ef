/**
 * `SqlInjectionScanner`: the parameter-probing detector with the SQL injection payload table,
 * critical findings and evidence cut at 300 bytes.
 */
module Sqli {
  import opened Wrappers
  import opened Text
  import opened Types
  import opened Url
  import opened Client
  import opened Payloads
  import opened Injection

  const Name: string := "SQL Injection Scanner"

  /** The parameters probed when the URL has no query. */
  const Fallback: seq<string> := ["id", "user", "username", "search", "query"]

  const Detector: ParamDetector := ParamDetector(
    SQLInjection, Critical, ForSqli().payloads, Fallback, BodyPatterns(300),
    "SQL Injection detected using ",
    ". The application is vulnerable to SQL injection attacks.",
    "Use parameterized queries or prepared statements. Never directly concatenate user input into SQL queries. Implement proper input validation and sanitization.")

  /**
   * Every SQL injection finding is a critical GET finding on a probed parameter, with a curl proof
   * of concept for its URL and at most 303 bytes of evidence.
   */
  lemma SqliFindings(net: Network, lib: UrlLibrary, url: string, v: Vulnerability)
    requires v in ScanFindings(net, lib, Detector, url)
    ensures v.vulnType == SQLInjection && v.severity == Critical && v.httpMethod == GET
    ensures v.parameter.Some? && v.parameter.value in Params(lib, Detector, url)
    ensures v.poc == Some("curl -v '" + v.url + "'")
    ensures Utf8Len(v.evidence) <= 303
  {
    ScanFindingsWellFormed(net, lib, Detector, url, v);
    BodyFindingEvidence(net, lib, Detector, url, v);
  }

  /**
   * A finding names one of the three payloads that have detection patterns, never the time-based
   * or the authentication-bypass payload.
   */
  lemma SqliReportedPayloads(net: Network, lib: UrlLibrary, url: string, v: Vulnerability)
    requires v in ScanFindings(net, lib, Detector, url)
    ensures v.payload in ["' OR '1'='1", "' OR 1=1--", "' UNION SELECT NULL--"]
    ensures v.payload != "1' AND SLEEP(5)--" && v.payload != "admin'--"
  {
    BodyFindingEvidence(net, lib, Detector, url, v);
    ReportedAmong(v.payload);
  }

  /** The values of the SQL injection payloads that have detection patterns. */
  lemma ReportedAmong(value: string)
    requires exists i | 0 <= i < |ForSqli().payloads| :: !Silent(ForSqli().payloads[i]) && value == ForSqli().payloads[i].value
    ensures value in ["' OR '1'='1", "' OR 1=1--", "' UNION SELECT NULL--"]
    ensures value != "1' AND SLEEP(5)--" && value != "admin'--"
  {
    var ps := ForSqli().payloads;
    var i :| 0 <= i < |ps| && !Silent(ps[i]) && value == ps[i].value;
    assert i < 3;
  }

  /**
   * Without query keys the five fallback names are probed, and a scan reports at most one finding
   * per parameter and payload.
   */
  lemma SqliScanShape(net: Network, lib: UrlLibrary, url: string)
    ensures QueryKeys(lib, url) == [] ==> Params(lib, Detector, url) == Fallback
    ensures QueryKeys(lib, url) != [] ==> Params(lib, Detector, url) == QueryKeys(lib, url)
    ensures |ScanFindings(net, lib, Detector, url)| <= 5 * |Params(lib, Detector, url)|
  {
    AllFindingsCount(net, lib, Detector, url, Params(lib, Detector, url));
  }
}
