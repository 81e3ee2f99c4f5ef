/**
 * `SarifExporter`: the scan result as a SARIF 2.1.0 log, a JSON document with one run whose tool
 * driver lists one rule per finding and whose results list one result per finding, in order.
 *
 * JSON objects are modelled as maps from keys to values (key order carries no meaning in JSON);
 * an `f32` confidence is an exact real. Pretty-printing the document and writing the file are
 * not part of this model.
 */
module Sarif {
  import opened Wrappers
  import opened Types

  datatype Json =
    | JNull
    | JString(str: string)
    | JNumber(num: real)
    | JArray(items: seq<Json>)
    | JObject(fields: map<string, Json>)

  const Version: string := "2.1.0"
  const Schema: string := "https://raw.githubusercontent.com/oasis-tcs/sarif-spec/master/Schemata/sarif-schema-2.1.0.json"
  const DriverName: string := "ShadowProbe"
  const DriverVersion: string := "0.1.0"
  const InformationUri: string := "https://github.com/yourusername/shadowprobe"

  /** The values section 3.27.10 of SARIF 2.1.0 allows for `level`. */
  const Levels: set<string> := {"none", "note", "warning", "error"}

  /** `severity_to_sarif_level`. */
  function Level(s: Severity): string {
    match s
    case Critical => "error"
    case High => "error"
    case Medium => "warning"
    case Low => "note"
    case Info => "none"
  }

  /** A `{"text": ...}` message object. */
  function Text(s: string): Json {
    JObject(map["text" := JString(s)])
  }

  /** The rule generated for a finding. */
  function Rule(v: Vulnerability): Json {
    JObject(map[
      "id" := JString(v.id),
      "name" := JString(TypeName(v.vulnType)),
      "shortDescription" := Text(TypeName(v.vulnType)),
      "fullDescription" := Text(v.description),
      "help" := Text(v.remediation),
      "defaultConfiguration" := JObject(map["level" := JString(Level(v.severity))])])
  }

  /** `unwrap_or(&String::new())` on the parameter. */
  function ParameterText(v: Vulnerability): string {
    match v.parameter
    case None => ""
    case Some(p) => p
  }

  /** `Option<f32>` serialised: `null` or the number. */
  function Confidence(v: Vulnerability): Json {
    match v.aiConfidence
    case None => JNull
    case Some(c) => JNumber(c)
  }

  function Location(url: string): Json {
    JObject(map["physicalLocation" := JObject(map["artifactLocation" := JObject(map["uri" := JString(url)])])])
  }

  function Properties(v: Vulnerability): Json {
    JObject(map[
      "method" := JString(MethodName(v.httpMethod)),
      "parameter" := JString(ParameterText(v)),
      "payload" := JString(v.payload),
      "evidence" := JString(v.evidence),
      "ai_confidence" := Confidence(v)])
  }

  /** The result generated for a finding. */
  function ResultOf(v: Vulnerability): Json {
    JObject(map[
      "ruleId" := JString(v.id),
      "level" := JString(Level(v.severity)),
      "message" := Text(v.description),
      "locations" := JArray([Location(v.url)]),
      "properties" := Properties(v)])
  }

  function Rules(vs: seq<Vulnerability>): seq<Json> {
    seq(|vs|, i requires 0 <= i < |vs| => Rule(vs[i]))
  }

  function Results(vs: seq<Vulnerability>): seq<Json> {
    seq(|vs|, i requires 0 <= i < |vs| => ResultOf(vs[i]))
  }

  function Driver(vs: seq<Vulnerability>): Json {
    JObject(map[
      "name" := JString(DriverName),
      "version" := JString(DriverVersion),
      "informationUri" := JString(InformationUri),
      "rules" := JArray(Rules(vs))])
  }

  /** `generate_sarif`. */
  function GenerateSarif(result: ScanResult): Json {
    var vs := result.vulnerabilities;
    JObject(map[
      "version" := JString(Version),
      "$schema" := JString(Schema),
      "runs" := JArray([JObject(map["tool" := JObject(map["driver" := Driver(vs)]), "results" := JArray(Results(vs))])])])
  }

  // ---------------------------------------------------------------------------------------------
  // Reading a log
  // ---------------------------------------------------------------------------------------------

  /** The value under `key` of an object. */
  function Get(j: Json, key: string): Option<Json> {
    if j.JObject? && key in j.fields then Some(j.fields[key]) else None
  }

  /** The value reached by following `keys` through nested objects. */
  function Path(j: Json, keys: seq<string>): Option<Json>
    decreases |keys|
  {
    if keys == [] then Some(j)
    else
      match Get(j, keys[0])
      case None => None
      case Some(k) => Path(k, keys[1..])
  }

  /** The string under `keys`. */
  function StringAt(j: Json, keys: seq<string>): Option<string> {
    match Path(j, keys)
    case Some(JString(s)) => Some(s)
    case _ => None
  }

  /** The array under `keys`. */
  function ArrayAt(j: Json, keys: seq<string>): Option<seq<Json>> {
    match Path(j, keys)
    case Some(JArray(xs)) => Some(xs)
    case _ => None
  }

  /** What a SARIF consumer reads from one result. */
  datatype Reported = Reported(
    ruleId: string, level: string, message: string, uri: string,
    httpMethod: string, parameter: string, payload: string, evidence: string, confidence: Json)

  /** Reads a result: its rule, level, message, first location and properties. */
  function ReadResult(r: Json): Option<Reported> {
    var locations := ArrayAt(r, ["locations"]);
    if locations.None? || |locations.value| == 0 then None
    else
      var fields := [
        StringAt(r, ["ruleId"]), StringAt(r, ["level"]), StringAt(r, ["message", "text"]),
        StringAt(locations.value[0], ["physicalLocation", "artifactLocation", "uri"]),
        StringAt(r, ["properties", "method"]), StringAt(r, ["properties", "parameter"]),
        StringAt(r, ["properties", "payload"]), StringAt(r, ["properties", "evidence"])];
      var confidence := Path(r, ["properties", "ai_confidence"]);
      if (exists k | 0 <= k < |fields| :: fields[k].None?) || confidence.None? then None
      else Some(Reported(
        fields[0].value, fields[1].value, fields[2].value, fields[3].value,
        fields[4].value, fields[5].value, fields[6].value, fields[7].value, confidence.value))
  }

  /** What the result for `v` should report. */
  function Expected(v: Vulnerability): Reported {
    Reported(v.id, Level(v.severity), v.description, v.url, MethodName(v.httpMethod), ParameterText(v),
      v.payload, v.evidence, Confidence(v))
  }

  // ---------------------------------------------------------------------------------------------
  // Properties
  // ---------------------------------------------------------------------------------------------

  /** Each severity maps to a level SARIF 2.1.0 allows. */
  lemma LevelAllowed(s: Severity)
    ensures Level(s) in Levels
  {
  }

  /** Critical and high are errors, medium a warning, low a note, info none. */
  lemma LevelIff(s: Severity)
    ensures Level(s) == "error" <==> s == Critical || s == High
    ensures Level(s) == "warning" <==> s == Medium
    ensures Level(s) == "note" <==> s == Low
    ensures Level(s) == "none" <==> s == Info
  {
  }

  /** Position of a level from "error" (0) to "none" (3). */
  function LevelRank(l: string): nat {
    if l == "error" then 0 else if l == "warning" then 1 else if l == "note" then 2 else 3
  }

  /** A more severe finding never gets a lower level. */
  lemma LevelMonotone(a: Severity, b: Severity)
    requires Rank(a) <= Rank(b)
    ensures LevelRank(Level(a)) <= LevelRank(Level(b))
  {
  }

  lemma ResultTop(v: Vulnerability)
    ensures var r := ResultOf(v);
      ArrayAt(r, ["locations"]) == Some([Location(v.url)]) &&
      StringAt(r, ["ruleId"]) == Some(v.id) && StringAt(r, ["level"]) == Some(Level(v.severity)) &&
      StringAt(r, ["message", "text"]) == Some(v.description) &&
      Path(r, ["properties"]) == Some(Properties(v))
  {
    var r := ResultOf(v);
    assert Path(r, ["message"]) == Some(Text(v.description));
  }

  lemma LocationUri(url: string)
    ensures StringAt(Location(url), ["physicalLocation", "artifactLocation", "uri"]) == Some(url)
  {
    var loc := Location(url);
    assert Path(loc, ["physicalLocation"]) == Some(JObject(map["artifactLocation" := JObject(map["uri" := JString(url)])]));
  }

  /** Following a path through an object that holds the first key. */
  lemma PathStep(j: Json, key: string, rest: seq<string>, k: Json)
    requires Path(j, [key]) == Some(k)
    ensures Path(j, [key] + rest) == Path(k, rest)
  {
    assert ([key] + rest)[1..] == rest;
  }

  lemma ResultProperties(v: Vulnerability)
    ensures var r := ResultOf(v);
      StringAt(r, ["properties", "method"]) == Some(MethodName(v.httpMethod)) &&
      StringAt(r, ["properties", "parameter"]) == Some(ParameterText(v)) &&
      StringAt(r, ["properties", "payload"]) == Some(v.payload) &&
      StringAt(r, ["properties", "evidence"]) == Some(v.evidence) &&
      Path(r, ["properties", "ai_confidence"]) == Some(Confidence(v))
  {
    var r := ResultOf(v);
    var p := Properties(v);
    ResultTop(v);
    PathStep(r, "properties", ["method"], p);
    PathStep(r, "properties", ["parameter"], p);
    PathStep(r, "properties", ["payload"], p);
    PathStep(r, "properties", ["evidence"], p);
    PathStep(r, "properties", ["ai_confidence"], p);
    assert ["properties"] + ["method"] == ["properties", "method"];
    assert ["properties"] + ["parameter"] == ["properties", "parameter"];
    assert ["properties"] + ["payload"] == ["properties", "payload"];
    assert ["properties"] + ["evidence"] == ["properties", "evidence"];
    assert ["properties"] + ["ai_confidence"] == ["properties", "ai_confidence"];
  }

  /** The result for `v` reads back as `v`'s id, level, description, URL and properties. */
  lemma ResultRoundTrip(v: Vulnerability)
    ensures ReadResult(ResultOf(v)) == Some(Expected(v))
  {
    ResultTop(v);
    LocationUri(v.url);
    ResultProperties(v);
    ReadResultOf(ResultOf(v), Location(v.url), Expected(v));
  }

  /** A result whose every field is where the reader looks reads back as those fields. */
  lemma ReadResultOf(r: Json, loc: Json, e: Reported)
    requires ArrayAt(r, ["locations"]) == Some([loc])
    requires StringAt(r, ["ruleId"]) == Some(e.ruleId) && StringAt(r, ["level"]) == Some(e.level)
    requires StringAt(r, ["message", "text"]) == Some(e.message)
    requires StringAt(loc, ["physicalLocation", "artifactLocation", "uri"]) == Some(e.uri)
    requires StringAt(r, ["properties", "method"]) == Some(e.httpMethod)
    requires StringAt(r, ["properties", "parameter"]) == Some(e.parameter)
    requires StringAt(r, ["properties", "payload"]) == Some(e.payload)
    requires StringAt(r, ["properties", "evidence"]) == Some(e.evidence)
    requires Path(r, ["properties", "ai_confidence"]) == Some(e.confidence)
    ensures ReadResult(r) == Some(e)
  {
  }

  /** The rule for `v` carries its id as `id` and its level as default configuration. */
  lemma RuleFields(v: Vulnerability)
    ensures StringAt(Rule(v), ["id"]) == Some(v.id)
    ensures StringAt(Rule(v), ["defaultConfiguration", "level"]) == Some(Level(v.severity))
    ensures StringAt(Rule(v), ["name"]) == Some(TypeName(v.vulnType))
  {
    var r := Rule(v);
    assert Path(r, ["defaultConfiguration"]) == Some(JObject(map["level" := JString(Level(v.severity))]));
  }

  /**
   * The log is version 2.1.0 with exactly one run, whose tool driver is named "ShadowProbe" and
   * lists one rule per finding, and whose results list one result per finding, in order.
   */
  lemma LogShape(result: ScanResult)
    ensures var doc := GenerateSarif(result);
      var vs := result.vulnerabilities;
      StringAt(doc, ["version"]) == Some(Version) &&
      ArrayAt(doc, ["runs"]).Some? && |ArrayAt(doc, ["runs"]).value| == 1 &&
      var run := ArrayAt(doc, ["runs"]).value[0];
      StringAt(run, ["tool", "driver", "name"]) == Some(DriverName) &&
      ArrayAt(run, ["tool", "driver", "rules"]) == Some(Rules(vs)) &&
      ArrayAt(run, ["results"]) == Some(Results(vs)) &&
      |Rules(vs)| == |vs| && |Results(vs)| == |vs|
  {
    var vs := result.vulnerabilities;
    var doc := GenerateSarif(result);
    var d := Driver(vs);
    var tool := JObject(map["driver" := d]);
    var run := JObject(map["tool" := tool, "results" := JArray(Results(vs))]);
    assert Path(doc, ["runs"]) == Some(JArray([run]));
    assert Path(run, ["tool"]) == Some(tool);
    assert Path(tool, ["driver"]) == Some(d);
    assert Path(d, ["name"]) == Some(JString(DriverName));
    assert Path(run, ["tool", "driver", "name"]) == Some(JString(DriverName));
    assert Path(d, ["rules"]) == Some(JArray(Rules(vs)));
    assert Path(run, ["tool", "driver", "rules"]) == Some(JArray(Rules(vs)));
  }

  /**
   * The `i`-th result and the `i`-th rule both belong to the `i`-th finding: the result's ruleId
   * is the rule's id and the finding's id, both levels are the finding's mapped severity, and a
   * missing parameter is reported as "".
   */
  lemma ResultMatchesRule(vs: seq<Vulnerability>, i: nat)
    requires i < |vs|
    ensures var res := ReadResult(Results(vs)[i]);
      var rule := Rules(vs)[i];
      res.Some? &&
      Some(res.value.ruleId) == StringAt(rule, ["id"]) && res.value.ruleId == vs[i].id &&
      Some(res.value.level) == StringAt(rule, ["defaultConfiguration", "level"]) &&
      res.value.level == Level(vs[i].severity) && res.value.level in Levels &&
      (vs[i].parameter.None? ==> res.value.parameter == "") &&
      (vs[i].parameter.Some? ==> res.value.parameter == vs[i].parameter.value)
  {
    ResultRoundTrip(vs[i]);
    RuleFields(vs[i]);
    LevelAllowed(vs[i].severity);
  }
}
