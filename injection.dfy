/**
 * The parameter-probing detector shared, line for line, by the SQL injection, XSS, LFI, SSTI and
 * open-redirect scanners. For each parameter (the URL's query keys, or a fixed fallback list when
 * it has none) and each payload of the detector's table, it sends a GET to the probe URL and, when
 * the response matches the detector's rule, records one finding. A failed request is skipped.
 * The scanners differ only in the data gathered in `ParamDetector`.
 */
module Injection {
  import opened Wrappers
  import opened Text
  import opened Types
  import opened Client
  import opened Url
  import opened Payloads
  import opened Seqs
  import PercentEncoding
  import Evidence

  // ---------------------------------------------------------------------------------------------
  // Probe URLs
  // ---------------------------------------------------------------------------------------------

  /**
   * The probe URL: the base URL, then '&' when it already has a '?' and '?' otherwise, then
   * `param=` and the percent-encoded payload.
   */
  function ProbeUrl(base: string, param: string, value: string): string {
    base + (if '?' in base then "&" else "?") + param + "=" + PercentEncoding.Encode(value)
  }

  /**
   * The probe URL extends the base by exactly one separator and the pair; the encoded value holds
   * no '&', '=', '#' or '?', so it cannot open another pair, a fragment or a second query.
   */
  lemma ProbeUrlShape(base: string, param: string, value: string)
    ensures base <= ProbeUrl(base, param, value)
    ensures ProbeUrl(base, param, value)[|base|] == (if '?' in base then '&' else '?')
    ensures ProbeUrl(base, param, value)[|base| + 1..] == param + "=" + PercentEncoding.Encode(value)
    ensures var e := PercentEncoding.Encode(value); '&' !in e && '=' !in e && '#' !in e && '?' !in e
  {
    PercentEncoding.EncodeHasNoDelimiters(value);
    var sep := if '?' in base then "&" else "?";
    assert ProbeUrl(base, param, value) == base + (sep + (param + "=" + PercentEncoding.Encode(value)));
  }

  /**
   * A probe URL always has a query, and adds no second '?' to a base that has one: with a
   * parameter free of '?', it holds as many '?' as the base, or exactly one.
   */
  lemma ProbeUrlQuery(base: string, param: string, value: string)
    requires '?' !in param
    ensures '?' in ProbeUrl(base, param, value)
    ensures Count(ProbeUrl(base, param, value), '?') == (if '?' in base then Count(base, '?') else 1)
  {
    var e := PercentEncoding.Encode(value);
    PercentEncoding.EncodeHasNoDelimiters(value);
    var sep := if '?' in base then "&" else "?";
    var u := ProbeUrl(base, param, value);
    assert u == base + sep + param + "=" + e;
    CountAppend(base + sep + param + "=", e, '?');
    CountAppend(base + sep + param, "=", '?');
    CountAppend(base + sep, param, '?');
    CountAppend(base, sep, '?');
    CountZero(e, '?');
    CountZero(param, '?');
    CountZero(base, '?');
    assert u[|base|] == sep[0];
  }

  // ---------------------------------------------------------------------------------------------
  // Detectors and their match rules
  // ---------------------------------------------------------------------------------------------

  /**
   * How a response is judged: by the payload's detection patterns in the body, with evidence cut
   * at `evidenceCap` bytes, or by the redirect target of a 3xx response.
   */
  datatype Rule = BodyPatterns(evidenceCap: nat) | RedirectTarget

  /**
   * One scanner's data: the kind and severity of its findings, its payload table, its fallback
   * parameters, its rule, the text around the payload description in a finding's description,
   * and its remediation text.
   */
  datatype ParamDetector = ParamDetector(
    vulnType: VulnerabilityType,
    severity: Severity,
    payloads: seq<Payload>,
    fallback: seq<string>,
    rule: Rule,
    descPrefix: string,
    descSuffix: string,
    remediation: string)

  /** `is_vulnerable`: some detection pattern occurs in the body. */
  predicate IsVulnerable(body: string, patterns: seq<string>) {
    exists i | 0 <= i < |patterns| :: Contains(body, patterns[i])
  }

  /** `is_open_redirect`, last step: the location parses with a host other than "target.com". */
  predicate ExternalHost(lib: UrlLibrary, location: string) {
    match lib.parse(location)
    case Failure(_) => false
    case Success(u) =>
      match u.host
      case None => false
      case Some(h) => Contains(h, "evil.com") || h != "target.com"
  }

  /**
   * `is_open_redirect`: a 3xx response whose location mentions "evil.com" or the payload, starts
   * with "//" or "javascript:", or names an external host.
   */
  predicate IsOpenRedirect(lib: UrlLibrary, r: HttpResponse, payload: string) {
    IsRedirect(r) && "location" in r.headers &&
    var loc := r.headers["location"];
    Contains(loc, "evil.com") || Contains(loc, payload) || StartsWith(loc, "//") ||
    StartsWith(loc, "javascript:") || ExternalHost(lib, loc)
  }

  /** The detector's rule applied to a response to payload `p`. */
  predicate Matches(lib: UrlLibrary, d: ParamDetector, r: HttpResponse, p: Payload) {
    match d.rule
    case BodyPatterns(_) => IsVulnerable(r.body, p.detectionPatterns)
    case RedirectTarget => IsOpenRedirect(lib, r, p.value)
  }

  /** A payload with no detection pattern never matches a body-pattern rule. */
  lemma SilentNeverMatches(lib: UrlLibrary, d: ParamDetector, r: HttpResponse, p: Payload)
    requires d.rule.BodyPatterns? && Silent(p)
    ensures !Matches(lib, d, r, p)
  {
  }

  /**
   * The host test reduces to "the host is not target.com" (no host containing "evil.com" is
   * "target.com"), so only a location on that literal host, or with no parsable host, escapes it.
   */
  lemma ExternalHostIff(lib: UrlLibrary, location: string)
    ensures ExternalHost(lib, location) <==>
      (lib.parse(location).Success? && lib.parse(location).value.host.Some? &&
       lib.parse(location).value.host.value != "target.com")
  {
    if lib.parse(location).Success? && lib.parse(location).value.host == Some("target.com") {
      var h := "target.com";
      forall i | 0 <= i <= |h| - 8
        ensures !OccursAt(h, "evil.com", i)
      {
        assert h[i..i + 8][0] == h[i] != 'e';
      }
    }
  }

  /**
   * A status outside [300, 400) or a missing location is never an open redirect; with a 3xx
   * status, a location naming any host but "target.com" always is, the scanned site's own host
   * included.
   */
  lemma OpenRedirectRule(lib: UrlLibrary, r: HttpResponse, payload: string)
    ensures !(300 <= r.status < 400) ==> !IsOpenRedirect(lib, r, payload)
    ensures "location" !in r.headers ==> !IsOpenRedirect(lib, r, payload)
    ensures (300 <= r.status < 400 && "location" in r.headers &&
             lib.parse(r.headers["location"]).Success? &&
             lib.parse(r.headers["location"]).value.host.Some? &&
             lib.parse(r.headers["location"]).value.host.value != "target.com") ==>
            IsOpenRedirect(lib, r, payload)
  {
    if "location" in r.headers {
      ExternalHostIff(lib, r.headers["location"]);
    }
  }

  // ---------------------------------------------------------------------------------------------
  // Findings
  // ---------------------------------------------------------------------------------------------

  /**
   * The evidence of a finding: the body cut at the cap, or the status and location of a redirect
   * ("N/A" without a location). The cut is made at a character boundary; the code as written
   * slices at a byte offset (see `Evidence.EvidenceAsWritten`).
   */
  function EvidenceOf(d: ParamDetector, r: HttpResponse): string {
    match d.rule
    case BodyPatterns(cap) => Evidence.Evidence(r.body, cap)
    case RedirectTarget =>
      "Status: " + Decimal(r.status as nat) + ", Location: " +
      (if "location" in r.headers then r.headers["location"] else "N/A")
  }

  /**
   * The finding recorded for payload `p` on parameter `param` at `probe`. The random id and the
   * wall-clock timestamp are left empty and zero.
   */
  function Finding(d: ParamDetector, probe: string, param: string, p: Payload, r: HttpResponse): Vulnerability {
    Vulnerability(
      id := "",
      vulnType := d.vulnType,
      severity := d.severity,
      url := probe,
      httpMethod := GET,
      parameter := Some(param),
      payload := p.value,
      evidence := EvidenceOf(d, r),
      description := d.descPrefix + p.description + d.descSuffix,
      remediation := d.remediation,
      poc := Some("curl -v '" + probe + "'"),
      aiConfidence := None,
      aiAnalysis := None,
      timestamp := 0)
  }

  /** One probe: the finding when the request succeeds and the response matches, else nothing. */
  function Probe(net: Network, lib: UrlLibrary, d: ParamDetector, base: string, param: string, p: Payload): Option<Vulnerability> {
    var probe := ProbeUrl(base, param, p.value);
    match Get(net, probe)
    case None => None
    case Some(r) => if Matches(lib, d, r, p) then Some(Finding(d, probe, param, p, r)) else None
  }

  /** The outcome of each payload of the table on one parameter, in table order. */
  function Probes(net: Network, lib: UrlLibrary, d: ParamDetector, base: string, param: string): seq<Option<Vulnerability>> {
    seq(|d.payloads|, i requires 0 <= i < |d.payloads| => Probe(net, lib, d, base, param, d.payloads[i]))
  }

  /** The findings on one parameter, in payload order. */
  function ParamFindings(net: Network, lib: UrlLibrary, d: ParamDetector, base: string, param: string): seq<Vulnerability> {
    Somes(Probes(net, lib, d, base, param))
  }

  /** The findings of each parameter of `params`. */
  function PerParam(net: Network, lib: UrlLibrary, d: ParamDetector, base: string, params: seq<string>): seq<seq<Vulnerability>> {
    seq(|params|, j requires 0 <= j < |params| => ParamFindings(net, lib, d, base, params[j]))
  }

  /** The findings over the parameters `params`, parameter by parameter. */
  function AllFindings(net: Network, lib: UrlLibrary, d: ParamDetector, base: string, params: seq<string>): seq<Vulnerability> {
    Flatten(PerParam(net, lib, d, base, params))
  }

  /** The parameters probed: the URL's query keys, or the detector's fallback list when it has none. */
  function Params(lib: UrlLibrary, d: ParamDetector, url: string): seq<string> {
    if QueryKeys(lib, url) == [] then d.fallback else QueryKeys(lib, url)
  }

  /** What `scan` returns for `url`. */
  function ScanFindings(net: Network, lib: UrlLibrary, d: ParamDetector, url: string): seq<Vulnerability> {
    AllFindings(net, lib, d, url, Params(lib, d, url))
  }

  // ---------------------------------------------------------------------------------------------
  // The scanner's loops
  // ---------------------------------------------------------------------------------------------

  /** `test_parameter`: every payload on one parameter; a failed request is skipped. */
  method TestParameter(net: Network, lib: UrlLibrary, d: ParamDetector, base: string, param: string)
    returns (found: seq<Vulnerability>)
    ensures found == ParamFindings(net, lib, d, base, param)
  {
    ghost var outcomes := Probes(net, lib, d, base, param);
    found := [];
    var i := 0;
    while i < |d.payloads|
      invariant 0 <= i <= |d.payloads|
      invariant found == Somes(outcomes[..i])
    {
      var hit := Probe(net, lib, d, base, param, d.payloads[i]);
      assert outcomes[..i + 1][..i] == outcomes[..i] && outcomes[i] == hit;
      if hit.Some? {
        found := found + [hit.value];
      }
      i := i + 1;
    }
    assert outcomes[..i] == outcomes;
  }

  /** `scan`: every probed parameter in turn; it never fails. */
  method Scan(net: Network, lib: UrlLibrary, d: ParamDetector, url: string)
    returns (r: Result<seq<Vulnerability>, ScanError>)
    ensures r == Success(ScanFindings(net, lib, d, url))
  {
    var params := QueryKeys(lib, url);
    if |params| == 0 {
      params := d.fallback;
    }
    ghost var per := PerParam(net, lib, d, url, params);
    var all := [];
    var i := 0;
    while i < |params|
      invariant 0 <= i <= |params|
      invariant all == Flatten(per[..i])
    {
      var found := TestParameter(net, lib, d, url, params[i]);
      assert per[i] == found;
      FlattenSnoc(per, i);
      all := all + found;
      i := i + 1;
    }
    assert per[..i] == per;
    r := Success(all);
  }

  // ---------------------------------------------------------------------------------------------
  // Properties
  // ---------------------------------------------------------------------------------------------

  /** A finding on one parameter is exactly a successful, matching probe with one of the payloads. */
  lemma ParamFindingsMember(net: Network, lib: UrlLibrary, d: ParamDetector, base: string, param: string, v: Vulnerability)
    ensures v in ParamFindings(net, lib, d, base, param) <==>
      exists i | 0 <= i < |d.payloads| :: Probe(net, lib, d, base, param, d.payloads[i]) == Some(v)
  {
    var outcomes := Probes(net, lib, d, base, param);
    SomesMember(outcomes, v);
    assert forall i | 0 <= i < |d.payloads| :: outcomes[i] == Probe(net, lib, d, base, param, d.payloads[i]);
  }

  /** A finding of the whole scan comes from one parameter. */
  lemma AllFindingsMember(net: Network, lib: UrlLibrary, d: ParamDetector, base: string, params: seq<string>, v: Vulnerability)
    ensures v in AllFindings(net, lib, d, base, params) <==>
      exists j | 0 <= j < |params| :: v in ParamFindings(net, lib, d, base, params[j])
  {
    var per := PerParam(net, lib, d, base, params);
    FlattenMember(per, v);
    assert forall j | 0 <= j < |params| :: per[j] == ParamFindings(net, lib, d, base, params[j]);
  }

  /**
   * Findings come out parameter by parameter: the findings over `a + b` are those over `a`
   * followed by those over `b`.
   */
  lemma AllFindingsAppend(net: Network, lib: UrlLibrary, d: ParamDetector, base: string, a: seq<string>, b: seq<string>)
    ensures AllFindings(net, lib, d, base, a + b) == AllFindings(net, lib, d, base, a) + AllFindings(net, lib, d, base, b)
  {
    var pa := PerParam(net, lib, d, base, a);
    var pb := PerParam(net, lib, d, base, b);
    var pab := PerParam(net, lib, d, base, a + b);
    forall i | 0 <= i < |pab|
      ensures pab[i] == (pa + pb)[i]
    {
      if i < |a| {
        assert (a + b)[i] == a[i];
      } else {
        assert (a + b)[i] == b[i - |a|];
      }
    }
    assert pab == pa + pb;
    FlattenAppend(pa, pb);
  }

  /** A scan yields at most one finding per (parameter, payload) pair. */
  lemma AllFindingsCount(net: Network, lib: UrlLibrary, d: ParamDetector, base: string, params: seq<string>)
    ensures |AllFindings(net, lib, d, base, params)| <= |params| * |d.payloads|
  {
    var per := PerParam(net, lib, d, base, params);
    forall j | 0 <= j < |per|
      ensures |per[j]| <= |d.payloads|
    {
      SomesLength(Probes(net, lib, d, base, params[j]));
    }
    FlattenLength(per, |d.payloads|);
  }

  /** When every request fails the scan finds nothing (and still does not fail). */
  lemma OfflineFindsNothing(net: Network, lib: UrlLibrary, d: ParamDetector, base: string, params: seq<string>)
    requires forall rq :: net(rq).None?
    ensures AllFindings(net, lib, d, base, params) == []
  {
    var per := PerParam(net, lib, d, base, params);
    forall j | 0 <= j < |per|
      ensures |per[j]| <= 0
    {
      var outcomes := Probes(net, lib, d, base, params[j]);
      forall i | 0 <= i < |outcomes|
        ensures outcomes[i].None?
      {
        assert Get(net, ProbeUrl(base, params[j], d.payloads[i].value)).None?;
      }
      SomesNone(outcomes);
    }
    FlattenLength(per, 0);
  }

  /** The fixed fields of every finding a probe makes. */
  predicate WellFormed(d: ParamDetector, base: string, params: seq<string>, v: Vulnerability) {
    v.vulnType == d.vulnType && v.severity == d.severity && v.httpMethod == GET &&
    v.remediation == d.remediation && v.aiConfidence.None? && v.aiAnalysis.None? &&
    v.parameter.Some? && v.parameter.value in params &&
    v.poc == Some("curl -v '" + v.url + "'") &&
    exists i | 0 <= i < |d.payloads| ::
      Matching(d, base, v, d.payloads[i])
  }

  /** `v` reports payload `p` on its parameter: its payload, url and description come from `p`. */
  predicate Matching(d: ParamDetector, base: string, v: Vulnerability, p: Payload)
    requires v.parameter.Some?
  {
    v.payload == p.value && v.url == ProbeUrl(base, v.parameter.value, p.value) &&
    v.description == d.descPrefix + p.description + d.descSuffix
  }

  /** The probe of payload `i` on parameter `j` that produced the finding `v`. */
  lemma FindingSource(net: Network, lib: UrlLibrary, d: ParamDetector, url: string, v: Vulnerability)
    returns (j: nat, i: nat)
    requires v in ScanFindings(net, lib, d, url)
    ensures j < |Params(lib, d, url)| && i < |d.payloads|
    ensures Probe(net, lib, d, url, Params(lib, d, url)[j], d.payloads[i]) == Some(v)
  {
    var params := Params(lib, d, url);
    AllFindingsMember(net, lib, d, url, params, v);
    j :| 0 <= j < |params| && v in ParamFindings(net, lib, d, url, params[j]);
    ParamFindingsMember(net, lib, d, url, params[j], v);
    i :| 0 <= i < |d.payloads| && Probe(net, lib, d, url, params[j], d.payloads[i]) == Some(v);
  }

  /**
   * Every finding of a scan names its detector's kind and severity, the GET method, one of the
   * probed parameters, one of the payloads with the probe URL built from them, and a curl proof
   * of concept for that URL; no AI fields are set.
   */
  lemma ScanFindingsWellFormed(net: Network, lib: UrlLibrary, d: ParamDetector, url: string, v: Vulnerability)
    requires v in ScanFindings(net, lib, d, url)
    ensures WellFormed(d, url, Params(lib, d, url), v)
  {
    var j, i := FindingSource(net, lib, d, url, v);
    assert Matching(d, url, v, d.payloads[i]);
  }

  /**
   * A body-pattern finding reports a payload that has patterns, one of which occurs in the
   * response to its probe, and its evidence is at most the cap plus three bytes.
   */
  lemma BodyFindingEvidence(net: Network, lib: UrlLibrary, d: ParamDetector, url: string, v: Vulnerability)
    requires d.rule.BodyPatterns?
    requires v in ScanFindings(net, lib, d, url)
    ensures Utf8Len(v.evidence) <= d.rule.evidenceCap + 3
    ensures exists i | 0 <= i < |d.payloads| :: !Silent(d.payloads[i]) && v.payload == d.payloads[i].value
  {
    var j, i := FindingSource(net, lib, d, url, v);
    var r := Get(net, ProbeUrl(url, Params(lib, d, url)[j], d.payloads[i].value)).value;
    Evidence.EvidenceShape(r.body, d.rule.evidenceCap);
    assert !Silent(d.payloads[i]);
  }

  /**
   * Why a finding was reported: the request to its URL succeeded, the response matches the rule
   * for the payload it names, and its evidence is taken from that response.
   */
  lemma FindingReason(net: Network, lib: UrlLibrary, d: ParamDetector, url: string, v: Vulnerability)
    requires v in ScanFindings(net, lib, d, url)
    ensures Get(net, v.url).Some?
    ensures v.evidence == EvidenceOf(d, Get(net, v.url).value)
    ensures exists i | 0 <= i < |d.payloads| ::
      v.payload == d.payloads[i].value && Matches(lib, d, Get(net, v.url).value, d.payloads[i])
  {
    var j, i := FindingSource(net, lib, d, url, v);
    assert v.payload == d.payloads[i].value;
  }
}
