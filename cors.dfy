/**
 * `CorsScanner`: send a GET with each of four foreign `Origin` headers and report a finding when
 * the response's Access-Control-Allow-Origin is the wildcard, "null", or reflects the origin; the
 * severity rises to critical when credentials are allowed.
 */
module Cors {
  import opened Wrappers
  import opened Text
  import opened Types
  import opened Client
  import opened Seqs

  const Name: string := "CORS Misconfiguration Scanner"

  /** The origins probed, in order. */
  const Origins: seq<string> := ["https://evil.com", "http://attacker.com", "null", "http://localhost"]

  const AllowOrigin: string := "access-control-allow-origin"
  const AllowCredentials: string := "access-control-allow-credentials"

  const CredentialsPrefix: string := "Critical CORS misconfiguration: Access-Control-Allow-Origin is '"
  const CredentialsSuffix: string := "' with credentials enabled. This allows any origin to access sensitive data."
  const WildcardText: string := "CORS misconfiguration: Access-Control-Allow-Origin is set to wildcard (*), allowing any origin to access resources."
  const ReflectedPrefix: string := "CORS misconfiguration: Origin '"
  const ReflectedSuffix: string := "' is reflected in Access-Control-Allow-Origin header."
  const Remediation: string := "Use a whitelist of allowed origins. Never use wildcard (*) with credentials. Properly validate the Origin header."
  const EvidenceOrigin: string := "Access-Control-Allow-Origin: "
  const EvidenceCredentials: string := "\nAccess-Control-Allow-Credentials: "

  /** The GET carrying `origin`. */
  function OriginRequest(url: string, origin: string): Request {
    Request(GET, url, map["Origin" := origin], None)
  }

  /** `is_reflected_origin`: the allowed origin contains the probed one. */
  predicate IsReflectedOrigin(headers: map<string, string>, origin: string) {
    AllowOrigin in headers && Contains(headers[AllowOrigin], origin)
  }

  /** The test applied to the allowed origin `acao`. */
  predicate Misconfigured(headers: map<string, string>, acao: string, origin: string) {
    acao == "*" || acao == origin || acao == "null" || IsReflectedOrigin(headers, origin)
  }

  /** Credentials are allowed exactly when the header says "true". */
  predicate HasCredentials(headers: map<string, string>) {
    AllowCredentials in headers && headers[AllowCredentials] == "true"
  }

  /** Critical with credentials, else high for the wildcard or "null", else medium. */
  function CorsSeverity(acao: string, credentials: bool): Severity {
    if credentials then Critical else if acao == "*" || acao == "null" then High else Medium
  }

  function CorsDescription(acao: string, origin: string, credentials: bool): string {
    if credentials && (acao == "*" || acao == origin) then CredentialsPrefix + acao + CredentialsSuffix
    else if acao == "*" then WildcardText
    else ReflectedPrefix + origin + ReflectedSuffix
  }

  function CorsEvidence(acao: string, credentials: bool): string {
    EvidenceOrigin + acao + EvidenceCredentials + (if credentials then "true" else "false")
  }

  function CorsFinding(url: string, origin: string, acao: string, credentials: bool): Vulnerability {
    Vulnerability(
      id := "",
      vulnType := CORS,
      severity := CorsSeverity(acao, credentials),
      url := url,
      httpMethod := GET,
      parameter := None,
      payload := "Origin: " + origin,
      evidence := CorsEvidence(acao, credentials),
      description := CorsDescription(acao, origin, credentials),
      remediation := Remediation,
      poc := Some("curl -H 'Origin: " + origin + "' -v '" + url + "'"),
      aiConfidence := None,
      aiAnalysis := None,
      timestamp := 0)
  }

  /** One probe: a finding when the request succeeds and its allowed origin is misconfigured. */
  function CorsProbe(net: Network, url: string, origin: string): Option<Vulnerability> {
    match net(OriginRequest(url, origin))
    case None => None
    case Some(r) =>
      if AllowOrigin in r.headers && Misconfigured(r.headers, r.headers[AllowOrigin], origin) then
        Some(CorsFinding(url, origin, r.headers[AllowOrigin], HasCredentials(r.headers)))
      else None
  }

  function Outcomes(net: Network, url: string, origins: seq<string>): seq<Option<Vulnerability>> {
    seq(|origins|, i requires 0 <= i < |origins| => CorsProbe(net, url, origins[i]))
  }

  /** What `scan` returns. */
  function CorsFindings(net: Network, url: string): seq<Vulnerability> {
    Somes(Outcomes(net, url, Origins))
  }

  /** `test_cors_misconfiguration`: every origin in turn; a failed request is skipped. */
  method TestCorsMisconfiguration(net: Network, url: string, origins: seq<string>)
    returns (r: Result<seq<Vulnerability>, ScanError>)
    ensures r == Success(Somes(Outcomes(net, url, origins)))
  {
    ghost var outcomes := Outcomes(net, url, origins);
    var found := [];
    var i := 0;
    while i < |origins|
      invariant 0 <= i <= |origins|
      invariant found == Somes(outcomes[..i])
    {
      var hit := CorsProbe(net, url, origins[i]);
      assert outcomes[..i + 1][..i] == outcomes[..i] && outcomes[i] == hit;
      if hit.Some? {
        found := found + [hit.value];
      }
      i := i + 1;
    }
    assert outcomes[..i] == outcomes;
    r := Success(found);
  }

  /** `scan`. */
  method Scan(net: Network, url: string) returns (r: Result<seq<Vulnerability>, ScanError>)
    ensures r == Success(CorsFindings(net, url))
  {
    r := TestCorsMisconfiguration(net, url, Origins);
  }

  /**
   * The match test is "wildcard, null, or contains the origin": the equality test is subsumed by
   * the reflection test.
   */
  lemma MisconfiguredIff(headers: map<string, string>, origin: string)
    requires AllowOrigin in headers
    ensures var acao := headers[AllowOrigin];
      Misconfigured(headers, acao, origin) <==> (acao == "*" || acao == "null" || Contains(acao, origin))
  {
    ContainsSelf(origin);
  }

  /** Severity is critical exactly with credentials; without, high exactly for "*" and "null". */
  lemma SeverityRule(acao: string, credentials: bool)
    ensures CorsSeverity(acao, credentials) == Critical <==> credentials
    ensures CorsSeverity(acao, credentials) == High <==> !credentials && (acao == "*" || acao == "null")
    ensures CorsSeverity(acao, credentials) == Medium <==> !credentials && acao != "*" && acao != "null"
  {
  }

  /** At most one finding per origin, so at most four. */
  lemma CorsAtMostFour(net: Network, url: string)
    ensures |CorsFindings(net, url)| <= 4
  {
    SomesLength(Outcomes(net, url, Origins));
  }

  /**
   * Every CORS finding answers one probed origin: the response to its request allowed an origin
   * that is "*", "null" or contains the probed one; it is a GET finding on the unchanged URL with
   * no parameter, names the origin as its payload, and is critical exactly when that response
   * allowed credentials.
   */
  lemma CorsFindingsShape(net: Network, url: string, v: Vulnerability)
    requires v in CorsFindings(net, url)
    ensures exists i | 0 <= i < |Origins| :: Answered(net, url, Origins[i], v)
  {
    var xs := Outcomes(net, url, Origins);
    SomesMember(xs, v);
    var i :| 0 <= i < |xs| && xs[i] == Some(v);
    var r := net(OriginRequest(url, Origins[i])).value;
    MisconfiguredIff(r.headers, Origins[i]);
    SeverityRule(r.headers[AllowOrigin], HasCredentials(r.headers));
    assert Answered(net, url, Origins[i], v);
  }

  /** `v` is the finding for the response to the probe with `origin`. */
  predicate Answered(net: Network, url: string, origin: string, v: Vulnerability) {
    net(OriginRequest(url, origin)).Some? &&
    var r := net(OriginRequest(url, origin)).value;
    AllowOrigin in r.headers &&
    var acao := r.headers[AllowOrigin];
    (acao == "*" || acao == "null" || Contains(acao, origin)) &&
    v.vulnType == CORS && v.httpMethod == GET && v.url == url && v.parameter.None? &&
    v.payload == "Origin: " + origin &&
    (v.severity == Critical <==> HasCredentials(r.headers)) &&
    (v.severity == High <==> !HasCredentials(r.headers) && (acao == "*" || acao == "null")) &&
    (v.severity == Medium <==> !HasCredentials(r.headers) && acao != "*" && acao != "null") &&
    v.evidence == CorsEvidence(acao, HasCredentials(r.headers))
  }

  /** A response without an allowed origin never yields a finding. */
  lemma NoHeaderNoFinding(net: Network, url: string, origin: string)
    requires net(OriginRequest(url, origin)).Some?
    requires AllowOrigin !in net(OriginRequest(url, origin)).value.headers
    ensures CorsProbe(net, url, origin).None?
  {
  }
}
