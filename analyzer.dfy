/**
 * `VulnerabilityAnalyzer`: enhances findings in place with a confidence and an analysis from the
 * vulnerability model, downgrades low-confidence findings, fills in a proof of concept for
 * high-confidence ones, and filters out likely false positives.
 *
 * Confidences are `f32` values in the source; here they are exact reals, and each threshold is the
 * exact value of its `f32` literal, so every comparison decides as the source's does.
 */
module Analyzer {
  import opened Wrappers
  import opened Types

  /** `0.4_f32`: below it a finding is downgraded. */
  const DowngradeBelow: real := 0.4000000059604644775390625
  /** `0.7_f32`: from it on a missing proof of concept is generated. */
  const PocAtLeast: real := 0.699999988079071044921875
  /** `0.3_f32`: below it a finding is a likely false positive. */
  const KeepAtLeast: real := 0.300000011920928955078125

  /**
   * `VulnAnalysisModel`: when disabled it answers a fixed confidence of 0.5 and no proof of
   * concept; the enabled model's rule-based scoring is not part of this model and is given as two
   * functions (type name, evidence, body) and (type name, url, payload).
   */
  datatype Model =
    | Disabled
    | Enabled(analyze: (string, string, string) -> (real, string), poc: (string, string, string) -> Option<string>)

  /** `analyze_vulnerability`. */
  function Analyze(m: Model, vulnType: string, evidence: string, body: string): (real, string) {
    match m
    case Disabled => (0.5, "AI analysis disabled")
    case Enabled(analyze, _) => analyze(vulnType, evidence, body)
  }

  /** `generate_poc`. */
  function GeneratePoc(m: Model, vulnType: string, url: string, payload: string): Option<string> {
    match m
    case Disabled => None
    case Enabled(_, poc) => poc(vulnType, url, payload)
  }

  /** `downgrade_severity`: one step toward Info, which stays put. */
  function Downgrade(s: Severity): (r: Severity)
    ensures s == Info ==> r == Info
    ensures s != Info ==> Rank(r) == Rank(s) + 1
  {
    match s
    case Critical => High
    case High => Medium
    case Medium => Low
    case Low => Info
    case Info => Info
  }

  /** One finding as `enhance_vulnerabilities` leaves it. */
  function EnhanceOne(m: Model, v: Vulnerability): Vulnerability {
    var (confidence, analysis) := Analyze(m, TypeName(v.vulnType), v.evidence, v.evidence);
    var severity := if confidence < DowngradeBelow then Downgrade(v.severity) else v.severity;
    var poc :=
      if confidence >= PocAtLeast && v.poc.None? then GeneratePoc(m, TypeName(v.vulnType), v.url, v.payload)
      else v.poc;
    v.(aiConfidence := Some(confidence), aiAnalysis := Some(analysis), severity := severity, poc := poc)
  }

  /**
   * Enhancement records the model's confidence and analysis; it lowers the severity by exactly one
   * rank exactly when the confidence is below 0.4 and the finding is not already Info, and never
   * raises it; it never overwrites an existing proof of concept and changes a missing one only
   * at a confidence of at least 0.7; every other field is unchanged.
   */
  lemma EnhanceOneShape(m: Model, v: Vulnerability)
    ensures var (c, a) := Analyze(m, TypeName(v.vulnType), v.evidence, v.evidence);
      var r := EnhanceOne(m, v);
      r.aiConfidence == Some(c) && r.aiAnalysis == Some(a) &&
      (Rank(r.severity) == Rank(v.severity) + 1 <==> c < DowngradeBelow && v.severity != Info) &&
      (Rank(r.severity) == Rank(v.severity) || Rank(r.severity) == Rank(v.severity) + 1) &&
      (v.poc.Some? ==> r.poc == v.poc) &&
      (r.poc != v.poc ==> c >= PocAtLeast) &&
      r.id == v.id && r.vulnType == v.vulnType && r.url == v.url && r.httpMethod == v.httpMethod &&
      r.parameter == v.parameter && r.payload == v.payload && r.evidence == v.evidence &&
      r.description == v.description && r.remediation == v.remediation && r.timestamp == v.timestamp
  {
  }

  /** With the model disabled, enhancement only records confidence 0.5 and the fixed analysis. */
  lemma DisabledEnhance(v: Vulnerability)
    ensures EnhanceOne(Disabled, v) == v.(aiConfidence := Some(0.5), aiAnalysis := Some("AI analysis disabled"))
  {
  }

  /** Every finding of `vs`, enhanced, in order. */
  function Enhanced(m: Model, vs: seq<Vulnerability>): seq<Vulnerability> {
    seq(|vs|, i requires 0 <= i < |vs| => EnhanceOne(m, vs[i]))
  }

  /** `enhance_vulnerabilities`: every element of the vector in turn, in place. */
  method EnhanceVulnerabilities(m: Model, vulns: array<Vulnerability>)
    modifies vulns
    ensures vulns[..] == Enhanced(m, old(vulns[..]))
  {
    ghost var before := vulns[..];
    var i := 0;
    while i < vulns.Length
      invariant 0 <= i <= vulns.Length
      invariant forall j | 0 <= j < i :: vulns[j] == EnhanceOne(m, before[j])
      invariant forall j | i <= j < vulns.Length :: vulns[j] == before[j]
    {
      vulns[i] := EnhanceOne(m, vulns[i]);
      i := i + 1;
    }
  }

  /**
   * After enhancement the list has the same length and the same findings in the same order, each
   * with a confidence and an analysis.
   */
  lemma EnhancedShape(m: Model, vs: seq<Vulnerability>)
    ensures |Enhanced(m, vs)| == |vs|
    ensures forall i | 0 <= i < |vs| ::
      Enhanced(m, vs)[i].aiConfidence.Some? && Enhanced(m, vs)[i].aiAnalysis.Some? &&
      Enhanced(m, vs)[i].id == vs[i].id && Enhanced(m, vs)[i].url == vs[i].url &&
      Enhanced(m, vs)[i].payload == vs[i].payload && Enhanced(m, vs)[i].evidence == vs[i].evidence &&
      Enhanced(m, vs)[i].vulnType == vs[i].vulnType
  {
  }

  /** Enhancement lowers `v` one rank: the model's confidence is below 0.4 and `v` is not Info. */
  predicate LowersRank(m: Model, v: Vulnerability) {
    Analyze(m, TypeName(v.vulnType), v.evidence, v.evidence).0 < DowngradeBelow && v.severity != Info
  }

  /** The number of findings of `vs` that enhancement lowers. */
  function LoweredCount(m: Model, vs: seq<Vulnerability>): nat {
    if vs == [] then 0 else LoweredCount(m, vs[..|vs| - 1]) + (if LowersRank(m, vs[|vs| - 1]) then 1 else 0)
  }

  /** The ranks of the findings' severities added up (Critical 0 up to Info 4). */
  function RankTotal(vs: seq<Vulnerability>): nat {
    if vs == [] then 0 else RankTotal(vs[..|vs| - 1]) + Rank(vs[|vs| - 1].severity)
  }

  /**
   * Over a whole list, enhancement moves each finding at most one rank toward Info, and exactly the
   * findings it lowers move: the ranks add up to their old total plus the number lowered, which is
   * at most the length of the list.
   */
  lemma {:induction false} EnhancedRanks(m: Model, vs: seq<Vulnerability>)
    ensures |Enhanced(m, vs)| == |vs|
    ensures forall i | 0 <= i < |vs| ::
      (Rank(Enhanced(m, vs)[i].severity) == Rank(vs[i].severity) + 1 <==> LowersRank(m, vs[i])) &&
      (Rank(Enhanced(m, vs)[i].severity) == Rank(vs[i].severity) + 1 ||
       Rank(Enhanced(m, vs)[i].severity) == Rank(vs[i].severity))
    ensures RankTotal(Enhanced(m, vs)) == RankTotal(vs) + LoweredCount(m, vs)
    ensures LoweredCount(m, vs) <= |vs|
  {
    forall i | 0 <= i < |vs|
      ensures (Rank(Enhanced(m, vs)[i].severity) == Rank(vs[i].severity) + 1 <==> LowersRank(m, vs[i])) &&
        (Rank(Enhanced(m, vs)[i].severity) == Rank(vs[i].severity) + 1 ||
         Rank(Enhanced(m, vs)[i].severity) == Rank(vs[i].severity))
    {
      EnhanceOneShape(m, vs[i]);
    }
    if vs != [] {
      var init := vs[..|vs| - 1];
      var last := vs[|vs| - 1];
      EnhancedRanks(m, init);
      assert Enhanced(m, vs)[..|vs| - 1] == Enhanced(m, init);
      EnhanceOneShape(m, last);
    }
  }

  /** The filter's test: no confidence, or a confidence of at least 0.3. */
  predicate Plausible(v: Vulnerability) {
    match v.aiConfidence
    case None => true
    case Some(c) => c >= KeepAtLeast
  }

  /** `filter_false_positives`. */
  function FilterFalsePositives(vs: seq<Vulnerability>): seq<Vulnerability> {
    if vs == [] then []
    else FilterFalsePositives(vs[..|vs| - 1]) + (if Plausible(vs[|vs| - 1]) then [vs[|vs| - 1]] else [])
  }

  /** A finding is kept exactly when it is in the input and has no confidence or one of at least 0.3. */
  lemma {:induction false} FilterMember(vs: seq<Vulnerability>, v: Vulnerability)
    ensures v in FilterFalsePositives(vs) <==> v in vs && Plausible(v)
  {
    if vs != [] {
      var init := vs[..|vs| - 1];
      FilterMember(init, v);
      assert vs == init + [vs[|vs| - 1]];
    }
  }

  /** Filtering distributes over concatenation, so the kept findings stay in their order. */
  lemma {:induction false} FilterAppend(a: seq<Vulnerability>, b: seq<Vulnerability>)
    ensures FilterFalsePositives(a + b) == FilterFalsePositives(a) + FilterFalsePositives(b)
    decreases |b|
  {
    if b == [] {
      assert a + b == a;
    } else {
      assert (a + b)[..|a + b| - 1] == a + b[..|b| - 1];
      FilterAppend(a, b[..|b| - 1]);
    }
  }

  /** Nothing is dropped when every finding is plausible; filtering twice is filtering once. */
  lemma {:induction false} FilterKeepsPlausible(vs: seq<Vulnerability>)
    ensures (forall i | 0 <= i < |vs| :: Plausible(vs[i])) ==> FilterFalsePositives(vs) == vs
    ensures FilterFalsePositives(FilterFalsePositives(vs)) == FilterFalsePositives(vs)
    ensures |FilterFalsePositives(vs)| <= |vs|
  {
    if vs != [] {
      var init := vs[..|vs| - 1];
      var last := vs[|vs| - 1];
      FilterKeepsPlausible(init);
      assert vs == init + [last];
      var kept := if Plausible(last) then [last] else [];
      FilterAppend(FilterFalsePositives(init), kept);
      if Plausible(last) {
        assert [last][..0] == [];
      }
    }
  }

  /** Findings enhanced by the disabled model all pass the filter. */
  lemma DisabledKeepsAll(vs: seq<Vulnerability>)
    ensures FilterFalsePositives(Enhanced(Disabled, vs)) == Enhanced(Disabled, vs)
  {
    var e := Enhanced(Disabled, vs);
    forall i | 0 <= i < |e| ensures Plausible(e[i]) {
      DisabledEnhance(vs[i]);
    }
    FilterKeepsPlausible(e);
  }
}
