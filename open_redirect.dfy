/**
 * `OpenRedirectScanner`: the parameter-probing detector with the open-redirect payload table and
 * the redirect-target rule; its evidence is the status and the location of the redirect.
 */
module OpenRedirect {
  import opened Wrappers
  import opened Text
  import opened Types
  import opened Url
  import opened Client
  import opened Payloads
  import opened Injection

  const Name: string := "Open Redirect Scanner"

  /** The parameters probed when the URL has no query. */
  const Fallback: seq<string> :=
    ["redirect", "url", "next", "return", "dest", "destination", "redir", "redirect_uri"]

  const Detector: ParamDetector := ParamDetector(
    Types.OpenRedirect, Medium, ForOpenRedirect().payloads, Fallback, RedirectTarget,
    "Open Redirect vulnerability detected using ",
    ". The application redirects to user-controlled URLs.",
    "Use a whitelist of allowed redirect destinations. Validate all redirect URLs. Avoid using user input directly in redirect targets.")

  /**
   * Every open-redirect finding is a medium GET finding on a probed parameter whose probe got a
   * 3xx response with a location header, and its evidence reports that status and location.
   */
  lemma OpenRedirectFindings(net: Network, lib: UrlLibrary, url: string, v: Vulnerability)
    requires v in ScanFindings(net, lib, Detector, url)
    ensures v.vulnType == Types.OpenRedirect && v.severity == Medium && v.httpMethod == GET
    ensures v.parameter.Some? && v.parameter.value in Params(lib, Detector, url)
    ensures Get(net, v.url).Some?
    ensures var r := Get(net, v.url).value;
      300 <= r.status < 400 && "location" in r.headers &&
      v.evidence == "Status: " + Decimal(r.status as nat) + ", Location: " + r.headers["location"]
  {
    ScanFindingsWellFormed(net, lib, Detector, url, v);
    FindingReason(net, lib, Detector, url, v);
  }

  /**
   * Without query keys the eight fallback names are probed, and a scan reports at most one finding
   * per parameter and payload.
   */
  lemma OpenRedirectScanShape(net: Network, lib: UrlLibrary, url: string)
    ensures QueryKeys(lib, url) == [] ==> Params(lib, Detector, url) == Fallback
    ensures QueryKeys(lib, url) != [] ==> Params(lib, Detector, url) == QueryKeys(lib, url)
    ensures |ScanFindings(net, lib, Detector, url)| <= 3 * |Params(lib, Detector, url)|
  {
    AllFindingsCount(net, lib, Detector, url, Params(lib, Detector, url));
  }
}
