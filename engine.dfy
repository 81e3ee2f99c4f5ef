/**
 * `ScannerEngine`: the five registered detectors run one after another on a URL; their findings
 * are concatenated in registration order and the first detector error aborts the scan.
 *
 * The SSRF detector's behaviour is not part of this model: it is an opaque parameter of the
 * environment (its name, kind and scan function).
 */
module Engine {
  import opened Wrappers
  import opened Types
  import opened Url
  import opened Client
  import opened Seqs
  import Injection
  import Sqli
  import Xss
  import Lfi
  import Ssti

  /** The detectors the engine can hold. */
  datatype Scanner = SqliScanner | XssScanner | SsrfScanner | LfiScanner | SstiScanner

  /** The SSRF detector, whose source is not modelled. */
  datatype SsrfDetector = SsrfDetector(
    name: string,
    vulnType: VulnerabilityType,
    scan: (Network, string) -> Result<seq<Vulnerability>, ScanError>)

  /** What a scan depends on: the network, the URL library and the opaque SSRF detector. */
  datatype Env = Env(net: Network, lib: UrlLibrary, ssrf: SsrfDetector)

  /** `name()` of each detector. */
  function ScannerName(env: Env, s: Scanner): string {
    match s
    case SqliScanner => Sqli.Name
    case XssScanner => Xss.Name
    case SsrfScanner => env.ssrf.name
    case LfiScanner => Lfi.Name
    case SstiScanner => Ssti.Name
  }

  /** `vuln_type()` of each detector. */
  function ScannerType(env: Env, s: Scanner): VulnerabilityType {
    match s
    case SqliScanner => SQLInjection
    case XssScanner => XSS
    case SsrfScanner => env.ssrf.vulnType
    case LfiScanner => LFI
    case SstiScanner => SSTI
  }

  /** `scan()` of each detector. */
  function RunScanner(env: Env, s: Scanner, url: string): Result<seq<Vulnerability>, ScanError> {
    match s
    case SqliScanner => Success(Injection.ScanFindings(env.net, env.lib, Sqli.Detector, url))
    case XssScanner => Success(Injection.ScanFindings(env.net, env.lib, Xss.Detector, url))
    case SsrfScanner => env.ssrf.scan(env.net, url)
    case LfiScanner => Success(Injection.ScanFindings(env.net, env.lib, Lfi.Detector, url))
    case SstiScanner => Success(Injection.ScanFindings(env.net, env.lib, Ssti.Detector, url))
  }

  /** Dispatch to one detector's `scan`. */
  method ScanWith(env: Env, s: Scanner, url: string) returns (r: Result<seq<Vulnerability>, ScanError>)
    ensures r == RunScanner(env, s, url)
  {
    match s
    case SqliScanner => r := Injection.Scan(env.net, env.lib, Sqli.Detector, url);
    case XssScanner => r := Injection.Scan(env.net, env.lib, Xss.Detector, url);
    case SsrfScanner => r := env.ssrf.scan(env.net, url);
    case LfiScanner => r := Injection.Scan(env.net, env.lib, Lfi.Detector, url);
    case SstiScanner => r := Injection.Scan(env.net, env.lib, Ssti.Detector, url);
  }

  datatype ScannerEngine = ScannerEngine(scanners: seq<Scanner>)

  /** `ScannerEngine::new`: the registered detectors, in registration order. */
  const Registered: seq<Scanner> := [SqliScanner, XssScanner, SsrfScanner, LfiScanner, SstiScanner]

  function New(): ScannerEngine {
    ScannerEngine(Registered)
  }

  /** `scanner_count`. */
  function ScannerCount(e: ScannerEngine): nat {
    |e.scanners|
  }

  /** Each detector's result, in order. */
  function Results(env: Env, scanners: seq<Scanner>, url: string): seq<Result<seq<Vulnerability>, ScanError>> {
    seq(|scanners|, i requires 0 <= i < |scanners| => RunScanner(env, scanners[i], url))
  }

  /**
   * The result of running `scanners` in order: the concatenation of their findings, or the error
   * of the first detector that fails.
   */
  function EngineRun(env: Env, scanners: seq<Scanner>, url: string): Result<seq<Vulnerability>, ScanError> {
    Collect(Results(env, scanners, url))
  }

  /** `scan_url`: each detector in turn, extending the findings; `?` returns the first error. */
  method ScanUrl(env: Env, e: ScannerEngine, url: string) returns (r: Result<seq<Vulnerability>, ScanError>)
    ensures r == EngineRun(env, e.scanners, url)
  {
    ghost var rs := Results(env, e.scanners, url);
    var all := [];
    var i := 0;
    while i < |e.scanners|
      invariant 0 <= i <= |e.scanners|
      invariant Collect(rs[..i]) == Success(all)
    {
      var vulns := ScanWith(env, e.scanners[i], url);
      assert rs[i] == vulns;
      CollectSnoc(rs, i, all);
      if vulns.Failure? {
        CollectFailureSticks(rs, i + 1);
        return Failure(vulns.error);
      }
      all := all + vulns.value;
      i := i + 1;
    }
    assert rs[..i] == rs;
    r := Success(all);
  }

  /**
   * A run succeeds exactly when every detector succeeds, and then it returns their findings
   * concatenated in order.
   */
  lemma AllSucceed(env: Env, scanners: seq<Scanner>, url: string)
    ensures EngineRun(env, scanners, url).Success? <==>
      forall i | 0 <= i < |scanners| :: RunScanner(env, scanners[i], url).Success?
    ensures EngineRun(env, scanners, url).Success? ==>
      EngineRun(env, scanners, url).value == Flatten(Values(Results(env, scanners, url)))
  {
    var rs := Results(env, scanners, url);
    CollectSuccess(rs);
    assert forall i | 0 <= i < |scanners| :: rs[i] == RunScanner(env, scanners[i], url);
  }

  /**
   * A failed run returns the error of a detector that failed after every detector before it
   * succeeded.
   */
  lemma FirstFailure(env: Env, scanners: seq<Scanner>, url: string) returns (k: nat)
    requires EngineRun(env, scanners, url).Failure?
    ensures k < |scanners| && RunScanner(env, scanners[k], url) == EngineRun(env, scanners, url)
    ensures forall i | 0 <= i < k :: RunScanner(env, scanners[i], url).Success?
  {
    var rs := Results(env, scanners, url);
    k := CollectFirstFailure(rs);
    assert forall i | 0 <= i < k :: rs[i] == RunScanner(env, scanners[i], url);
  }

  /** Only the SSRF detector can fail: the four parameter-probing detectors always succeed. */
  lemma OnlySsrfFails(env: Env, s: Scanner, url: string)
    ensures RunScanner(env, s, url).Failure? ==> s == SsrfScanner
  {
  }

  /**
   * The engine built by `new` holds five detectors, SSRF third, and a scan with it fails exactly
   * when the SSRF detector fails, with its error.
   */
  lemma NewEngineScan(env: Env, url: string)
    ensures ScannerCount(New()) == 5 && New().scanners[2] == SsrfScanner
    ensures EngineRun(env, New().scanners, url).Failure? <==> env.ssrf.scan(env.net, url).Failure?
    ensures env.ssrf.scan(env.net, url).Failure? ==> EngineRun(env, New().scanners, url) == env.ssrf.scan(env.net, url)
  {
    var rs := Results(env, Registered, url);
    assert rs[2] == env.ssrf.scan(env.net, url);
    if EngineRun(env, Registered, url).Failure? {
      var k := FirstFailure(env, Registered, url);
      OnlySsrfFails(env, Registered[k], url);
      assert k == 2;
    } else {
      AllSucceed(env, Registered, url);
    }
  }

  /** Every finding of a built-in detector carries that detector's vulnerability kind. */
  lemma FindingsTyped(env: Env, s: Scanner, url: string, v: Vulnerability)
    requires s != SsrfScanner && v in RunScanner(env, s, url).value
    ensures v.vulnType == ScannerType(env, s)
  {
    match s
    case SqliScanner => Sqli.SqliFindings(env.net, env.lib, url, v);
    case XssScanner => Xss.XssFindings(env.net, env.lib, url, v);
    case LfiScanner => Lfi.LfiFindings(env.net, env.lib, url, v);
    case SstiScanner => Ssti.SstiFindings(env.net, env.lib, url, v);
  }
}
