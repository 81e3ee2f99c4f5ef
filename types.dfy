/**
 * The shared vocabulary of the scanner: HTTP methods, severities and their derived order,
 * vulnerability kinds with their display names, the finding record, the scan result, the default
 * scan configuration and the error enum.
 */
module Types {
  import opened Wrappers
  import opened Text

  // ---------------------------------------------------------------------------------------------
  // HTTP methods
  // ---------------------------------------------------------------------------------------------

  datatype HttpMethod = GET | POST | PUT | DELETE | PATCH | HEAD | OPTIONS

  /** `HttpMethod::as_str`: the variant's own name. */
  function MethodName(m: HttpMethod): (s: string)
    ensures |s| >= 3
    ensures forall k | 0 <= k < |s| :: 'A' <= s[k] <= 'Z'
  {
    match m
    case GET => "GET"
    case POST => "POST"
    case PUT => "PUT"
    case DELETE => "DELETE"
    case PATCH => "PATCH"
    case HEAD => "HEAD"
    case OPTIONS => "OPTIONS"
  }

  /** Inverse of `MethodName`: the method whose name is `s`, if any. */
  function MethodFromName(s: string): Option<HttpMethod> {
    if s == "GET" then Some(GET)
    else if s == "POST" then Some(POST)
    else if s == "PUT" then Some(PUT)
    else if s == "DELETE" then Some(DELETE)
    else if s == "PATCH" then Some(PATCH)
    else if s == "HEAD" then Some(HEAD)
    else if s == "OPTIONS" then Some(OPTIONS)
    else None
  }

  /** Method names round-trip, so `as_str` is injective. */
  lemma MethodNameRoundTrip(m: HttpMethod)
    ensures MethodFromName(MethodName(m)) == Some(m)
  {
  }

  lemma MethodNameInjective(m: HttpMethod, n: HttpMethod)
    requires MethodName(m) == MethodName(n)
    ensures m == n
  {
    MethodNameRoundTrip(m);
    MethodNameRoundTrip(n);
  }

  // ---------------------------------------------------------------------------------------------
  // Severity
  // ---------------------------------------------------------------------------------------------

  datatype Severity = Critical | High | Medium | Low | Info

  /**
   * Position in the declaration; the derived `Ord` compares exactly this, so Critical is the
   * smallest severity and Info the largest.
   */
  function Rank(s: Severity): (r: nat)
    ensures r < 5
  {
    match s
    case Critical => 0
    case High => 1
    case Medium => 2
    case Low => 3
    case Info => 4
  }

  /** The derived `<` on `Severity`. */
  predicate SeverityLess(a: Severity, b: Severity) {
    Rank(a) < Rank(b)
  }

  /** The derived order is a strict total order, in declaration order. */
  lemma SeverityOrderTotal(a: Severity, b: Severity, c: Severity)
    ensures !SeverityLess(a, a)
    ensures a != b ==> (SeverityLess(a, b) <==> !SeverityLess(b, a))
    ensures SeverityLess(a, b) && SeverityLess(b, c) ==> SeverityLess(a, c)
    ensures SeverityLess(Critical, High) && SeverityLess(High, Medium)
    ensures SeverityLess(Medium, Low) && SeverityLess(Low, Info)
  {
  }

  /** `Severity::as_str`. */
  function SeverityName(s: Severity): (n: string)
    ensures |n| >= 3
    ensures forall k | 0 <= k < |n| :: 'A' <= n[k] <= 'Z'
  {
    match s
    case Critical => "CRITICAL"
    case High => "HIGH"
    case Medium => "MEDIUM"
    case Low => "LOW"
    case Info => "INFO"
  }

  lemma SeverityNameInjective(a: Severity, b: Severity)
    requires SeverityName(a) == SeverityName(b)
    ensures a == b
  {
    assert SeverityName(a)[0] == SeverityName(b)[0];
    if SeverityName(a)[0] == 'C' || SeverityName(a)[0] == 'H' {
      assert |SeverityName(a)| == |SeverityName(b)|;
    }
  }

  const Esc: char := '\U{1B}'

  /** `Severity::color_code`: an ANSI bold-colour escape sequence. */
  function ColorCode(s: Severity): (code: string)
    ensures |code| == 7 && code[0] == Esc && code[1..4] == "[1;" && code[6] == 'm'
  {
    match s
    case Critical => [Esc] + "[1;35m"
    case High => [Esc] + "[1;31m"
    case Medium => [Esc] + "[1;33m"
    case Low => [Esc] + "[1;36m"
    case Info => [Esc] + "[1;37m"
  }

  /** Each severity gets its own colour. */
  lemma ColorCodeInjective(a: Severity, b: Severity)
    requires ColorCode(a) == ColorCode(b)
    ensures a == b
  {
    assert ColorCode(a)[5] == ColorCode(b)[5];
  }

  // ---------------------------------------------------------------------------------------------
  // Vulnerability kinds
  // ---------------------------------------------------------------------------------------------

  datatype VulnerabilityType =
    | SQLInjection | XSS | SSRF | LFI | RFI | CommandInjection | SSTI | XXE | OpenRedirect
    | PathTraversal | CORS | CSRF | Deserialization | Authentication | Authorization
    | InformationDisclosure | Custom(name: string)

  /** `VulnerabilityType::as_str`: a fixed display name, and the carried name for `Custom`. */
  function TypeName(t: VulnerabilityType): (n: string)
    ensures t.Custom? ==> n == t.name
    ensures !t.Custom? ==> |n| > 0
  {
    match t
    case SQLInjection => "SQL Injection"
    case XSS => "Cross-Site Scripting (XSS)"
    case SSRF => "Server-Side Request Forgery (SSRF)"
    case LFI => "Local File Inclusion (LFI)"
    case RFI => "Remote File Inclusion (RFI)"
    case CommandInjection => "Command Injection"
    case SSTI => "Server-Side Template Injection (SSTI)"
    case XXE => "XML External Entity (XXE)"
    case OpenRedirect => "Open Redirect"
    case PathTraversal => "Path Traversal"
    case CORS => "CORS Misconfiguration"
    case CSRF => "Cross-Site Request Forgery (CSRF)"
    case Deserialization => "Insecure Deserialization"
    case Authentication => "Authentication Bypass"
    case Authorization => "Authorization Bypass"
    case InformationDisclosure => "Information Disclosure"
    case Custom(name) => name
  }

  /** The sixteen built-in kinds. */
  const BuiltinTypes: seq<VulnerabilityType> := [
    SQLInjection, XSS, SSRF, LFI, RFI, CommandInjection, SSTI, XXE, OpenRedirect,
    PathTraversal, CORS, CSRF, Deserialization, Authentication, Authorization,
    InformationDisclosure
  ]

  /**
   * The built-in kinds have pairwise distinct display names; a `Custom` kind whose name is one of
   * them shares its display name, so `as_str` alone does not identify a `Custom` kind.
   */
  lemma TypeNamesDistinct(i: nat, j: nat)
    requires i < j < |BuiltinTypes|
    ensures TypeName(BuiltinTypes[i]) != TypeName(BuiltinTypes[j])
  {
  }

  lemma CustomNameCollides()
    ensures TypeName(Custom("SQL Injection")) == TypeName(SQLInjection)
    ensures Custom("SQL Injection") != SQLInjection
  {
  }

  // ---------------------------------------------------------------------------------------------
  // Records
  // ---------------------------------------------------------------------------------------------

  /**
   * A finding. `aiConfidence` is the f32 confidence read as an exact real; `id` (a random UUID) and
   * `timestamp` (wall-clock time) are opaque values supplied by whoever builds the record.
   */
  datatype Vulnerability = Vulnerability(
    id: string,
    vulnType: VulnerabilityType,
    severity: Severity,
    url: string,
    httpMethod: HttpMethod,
    parameter: Option<string>,
    payload: string,
    evidence: string,
    description: string,
    remediation: string,
    poc: Option<string>,
    aiConfidence: Option<real>,
    aiAnalysis: Option<string>,
    timestamp: nat)

  datatype ScanStatus = Running | Completed | Failed | Paused

  datatype ScanResult = ScanResult(
    targetUrl: string,
    scanId: string,
    startTime: nat,
    endTime: Option<nat>,
    vulnerabilities: seq<Vulnerability>,
    endpointsDiscovered: seq<string>,
    totalRequests: nat,
    status: ScanStatus)

  datatype ScanConfig = ScanConfig(
    target: string,
    maxDepth: nat,
    maxConcurrentRequests: nat,
    timeoutSeconds: nat,
    followRedirects: bool,
    userAgent: string,
    customHeaders: map<string, string>,
    scanTypes: seq<VulnerabilityType>,
    enableAiAnalysis: bool,
    aggressiveMode: bool)

  /** `ScanConfig::default`. */
  function DefaultScanConfig(): (c: ScanConfig)
    ensures c.maxDepth == 3 && c.maxConcurrentRequests == 50 && c.timeoutSeconds == 10
    ensures c.enableAiAnalysis && !c.aggressiveMode && c.followRedirects
    ensures c.scanTypes == [SQLInjection, XSS, SSRF]
    ensures c.target == "" && c.customHeaders == map[]
  {
    ScanConfig("", 3, 50, 10, true, "ShadowProbe/0.1.0", map[], [SQLInjection, XSS, SSRF], true, false)
  }

  // ---------------------------------------------------------------------------------------------
  // Errors
  // ---------------------------------------------------------------------------------------------

  /** `ShadowProbeError`; the I/O variant carries the error's text. */
  datatype ScanError =
    | HttpError(msg: string)
    | ParseError(msg: string)
    | InvalidUrl(msg: string)
    | AIError(msg: string)
    | IoError(msg: string)
    | SerializationError(msg: string)
}
