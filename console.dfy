/**
 * `ConsoleReporter`: the plain-text scan report, optionally coloured with ANSI escape sequences: a
 * banner, a summary of the scan, then either a "no vulnerabilities" line or one numbered entry per
 * finding, and a closing rule.
 *
 * The `{:.1}` formatting of a confidence as a percentage is floating-point formatting and is a
 * parameter, `percent`, mapping the confidence to the text printed before the '%'.
 */
module Console {
  import opened Wrappers
  import opened Text
  import opened Types
  import opened Seqs

  const Reset: string := [Esc] + "[0m"
  const Cyan: string := [Esc] + "[1;36m"
  const Magenta: string := [Esc] + "[1;35m"
  const Green: string := [Esc] + "[1;32m"
  const Yellow: string := [Esc] + "[1;33m"

  /** 52 heavy horizontal box-drawing characters. */
  const Rule: string := Repeat('\U{2501}', 52)
  const TopRule: string := "\n" + Rule + "\n"
  const Title: string := "  \U{1F50D} ShadowProbe - Scan Results\n"
  const MidRule: string := Rule + "\n\n"
  const NoVulnerabilities: string := "\U{2713} No vulnerabilities detected!\n\n"
  const Detected: string := "\U{26A0}\U{FE0F}  Vulnerabilities Detected:\n\n"
  const BottomRule: string := Rule + "\n"

  datatype ConsoleReporter = ConsoleReporter(colored: bool)

  /** `colorize`: the text itself, or wrapped in the colour code and the reset sequence. */
  function Colorize(colored: bool, text: string, code: string): (r: string)
    ensures !colored ==> r == text
    ensures colored ==> r == code + text + Reset
  {
    if colored then code + text + Reset else text
  }

  function Header(colored: bool): string {
    Colorize(colored, TopRule, Cyan) + Colorize(colored, Title, Magenta) + Colorize(colored, MidRule, Cyan)
  }

  /** A `name: value` line. */
  function Line(name: string, value: string): string {
    name + ": " + value + "\n"
  }

  function Summary(result: ScanResult): string {
    Line("Target", result.targetUrl) +
    Line("Scan ID", result.scanId) +
    Line("Total Vulnerabilities Found", Decimal(|result.vulnerabilities|)) +
    Line("Endpoints Discovered", Decimal(|result.endpointsDiscovered|)) +
    Line("Total Requests", Decimal(result.totalRequests)) + "\n"
  }

  /** An indented line of an entry. */
  function Field(name: string, value: string): string {
    "   " + Line(name, value)
  }

  /** The first line of the entry for list index `n`: number `n + 1`, coloured severity, kind. */
  function Headline(colored: bool, n: nat, v: Vulnerability): string {
    Decimal(n + 1) + ". " + Colorize(colored, "[" + SeverityName(v.severity) + "]", ColorCode(v.severity)) +
    " " + TypeName(v.vulnType) + "\n"
  }

  function ParameterLine(v: Vulnerability): string {
    match v.parameter
    case None => ""
    case Some(p) => Field("Parameter", p)
  }

  function ConfidenceLine(percent: real -> string, v: Vulnerability): string {
    match v.aiConfidence
    case None => ""
    case Some(c) => Field("AI Confidence", percent(c) + "%")
  }

  /** The entry for finding `v` at list index `n`. */
  function Entry(colored: bool, percent: real -> string, n: nat, v: Vulnerability): string {
    Headline(colored, n, v) + Field("URL", v.url) + Field("Method", MethodName(v.httpMethod)) +
    ParameterLine(v) + Field("Payload", v.payload) + ConfidenceLine(percent, v) + "\n"
  }

  /** `Entry` as a function of the index and the finding. */
  function EntryPrinter(colored: bool, percent: real -> string): (nat, Vulnerability) -> string {
    (n: nat, v: Vulnerability) => Entry(colored, percent, n, v)
  }

  /** The entries for `vs`, the first of them at list index `n`. */
  function Numbered(colored: bool, percent: real -> string, vs: seq<Vulnerability>, n: nat): string {
    Enumerate(EntryPrinter(colored, percent), vs, n)
  }

  function Findings(colored: bool, percent: real -> string, vs: seq<Vulnerability>): string {
    if vs == [] then Colorize(colored, NoVulnerabilities, Green)
    else Colorize(colored, Detected, Yellow) + Numbered(colored, percent, vs, 0)
  }

  /** The text `generate` returns. */
  function Report(rep: ConsoleReporter, percent: real -> string, result: ScanResult): string {
    Header(rep.colored) + Summary(result) + Findings(rep.colored, percent, result.vulnerabilities) +
    Colorize(rep.colored, BottomRule, Cyan)
  }

  lemma AppendAssoc(a: string, b: string, c: string)
    ensures a + b + c == a + (b + c)
  {
  }

  /** The entries of one more finding end with that finding's entry. */
  lemma NumberedSnoc(colored: bool, percent: real -> string, vs: seq<Vulnerability>, i: nat)
    requires i < |vs|
    ensures Numbered(colored, percent, vs[..i + 1], 0) == Numbered(colored, percent, vs[..i], 0) + Entry(colored, percent, i, vs[i])
  {
    var f := EntryPrinter(colored, percent);
    var xs := vs[..i];
    assert vs[..i + 1] == xs + [vs[i]];
    EnumerateSnoc(f, xs, vs[i], 0);
    assert |xs| == i;
    assert f(i, vs[i]) == Entry(colored, percent, i, vs[i]);
  }

  /** `generate`: the output grows piece by piece, one entry per finding; it never fails. */
  method Generate(rep: ConsoleReporter, percent: real -> string, result: ScanResult)
    returns (r: Result<string, ScanError>)
    ensures r == Success(Report(rep, percent, result))
  {
    var c := rep.colored;
    var vs := result.vulnerabilities;
    var output := Header(c);
    output := output + Summary(result);
    ghost var top := output;
    if |vs| == 0 {
      output := output + Colorize(c, NoVulnerabilities, Green);
    } else {
      output := output + Colorize(c, Detected, Yellow);
      ghost var prefix := output;
      var i := 0;
      while i < |vs|
        invariant 0 <= i <= |vs|
        invariant output == prefix + Numbered(c, percent, vs[..i], 0)
      {
        var entry := Entry(c, percent, i, vs[i]);
        NumberedSnoc(c, percent, vs, i);
        AppendAssoc(prefix, Numbered(c, percent, vs[..i], 0), entry);
        output := output + entry;
        i := i + 1;
      }
      assert vs[..i] == vs;
      AppendAssoc(top, Colorize(c, Detected, Yellow), Numbered(c, percent, vs, 0));
    }
    assert output == top + Findings(c, percent, vs);
    output := output + Colorize(c, BottomRule, Cyan);
    r := Success(output);
  }

  /**
   * Entry `i` is numbered `i + 1` and comes after the entries of the findings before it and before
   * those of the findings after it.
   */
  lemma EntryPosition(colored: bool, percent: real -> string, vs: seq<Vulnerability>, i: nat)
    requires i < |vs|
    ensures Numbered(colored, percent, vs, 0) ==
      Numbered(colored, percent, vs[..i], 0) + Entry(colored, percent, i, vs[i]) + Numbered(colored, percent, vs[i + 1..], i + 1)
    ensures StartsWith(Entry(colored, percent, i, vs[i]), Decimal(i + 1) + ". ")
  {
    EnumerateAt(EntryPrinter(colored, percent), vs, i, 0);
    EntryNumber(colored, percent, i, vs[i]);
  }

  /** A prefix of the first of six parts is a prefix of their concatenation. */
  lemma PrefixOfSix(a: string, b: string, c: string, d: string, e: string, f: string, p: string)
    requires StartsWith(a, p)
    ensures StartsWith(a + b + c + d + e + f, p)
  {
    StartsWithAppend(a, b, p);
    StartsWithAppend(a + b, c, p);
    StartsWithAppend(a + b + c, d, p);
    StartsWithAppend(a + b + c + d, e, p);
    StartsWithAppend(a + b + c + d + e, f, p);
  }

  /** An entry starts with its number. */
  lemma EntryNumber(colored: bool, percent: real -> string, n: nat, v: Vulnerability)
    ensures StartsWith(Entry(colored, percent, n, v), Decimal(n + 1) + ". ")
  {
    var p := Decimal(n + 1) + ". ";
    var sev := Colorize(colored, "[" + SeverityName(v.severity) + "]", ColorCode(v.severity));
    assert StartsWith(p, p);
    PrefixOfSix(p, sev, " ", TypeName(v.vulnType), "\n", [], p);
    assert p + sev + " " + TypeName(v.vulnType) + "\n" + [] == Headline(colored, n, v);
    var h := Headline(colored, n, v);
    PrefixOfSix(h, Field("URL", v.url), Field("Method", MethodName(v.httpMethod)), ParameterLine(v),
      Field("Payload", v.payload), ConfidenceLine(percent, v), p);
    StartsWithAppend(h + Field("URL", v.url) + Field("Method", MethodName(v.httpMethod)) + ParameterLine(v) +
      Field("Payload", v.payload) + ConfidenceLine(percent, v), "\n", p);
  }

  /** Each of five parts, followed by a sixth, is contained in their concatenation. */
  lemma FiveParts(a: string, b: string, c: string, d: string, e: string, z: string)
    ensures var s := a + b + c + d + e + z;
      Contains(s, a) && Contains(s, b) && Contains(s, c) && Contains(s, d) && Contains(s, e)
  {
    ContainsSelf(a);
    ContainsSelf(b);
    ContainsSelf(c);
    ContainsSelf(d);
    ContainsSelf(e);
    ContainsLeft(a, b, a);
    ContainsRight(a, b, b);
    ContainsLeft(a + b, c, a);
    ContainsLeft(a + b, c, b);
    ContainsRight(a + b, c, c);
    ContainsLeft(a + b + c, d, a);
    ContainsLeft(a + b + c, d, b);
    ContainsLeft(a + b + c, d, c);
    ContainsRight(a + b + c, d, d);
    ContainsLeft(a + b + c + d, e, a);
    ContainsLeft(a + b + c + d, e, b);
    ContainsLeft(a + b + c + d, e, c);
    ContainsLeft(a + b + c + d, e, d);
    ContainsRight(a + b + c + d, e, e);
    var s := a + b + c + d + e;
    ContainsLeft(s, z, a);
    ContainsLeft(s, z, b);
    ContainsLeft(s, z, c);
    ContainsLeft(s, z, d);
    ContainsLeft(s, z, e);
  }

  /** What the second of four parts contains, their concatenation contains. */
  lemma SecondOfFour(h: string, s: string, f: string, b: string, x: string)
    requires Contains(s, x)
    ensures Contains(h + s + f + b, x)
  {
    ContainsRight(h, s, x);
    ContainsLeft(h + s, f, x);
    ContainsLeft(h + s + f, b, x);
  }

  /** What the middle of three parts contains, their concatenation contains. */
  lemma SecondOfThree(h: string, s: string, b: string, x: string)
    requires Contains(s, x)
    ensures Contains(h + s + b, x)
  {
    ContainsRight(h, s, x);
    ContainsLeft(h + s, b, x);
  }

  /** The report states the target, the scan id, the number of findings and endpoints, and the requests. */
  lemma ReportSummary(rep: ConsoleReporter, percent: real -> string, result: ScanResult)
    ensures var r := Report(rep, percent, result);
      Contains(r, Line("Target", result.targetUrl)) &&
      Contains(r, Line("Scan ID", result.scanId)) &&
      Contains(r, Line("Total Vulnerabilities Found", Decimal(|result.vulnerabilities|))) &&
      Contains(r, Line("Endpoints Discovered", Decimal(|result.endpointsDiscovered|))) &&
      Contains(r, Line("Total Requests", Decimal(result.totalRequests)))
  {
    var t := Line("Target", result.targetUrl);
    var s := Line("Scan ID", result.scanId);
    var f := Line("Total Vulnerabilities Found", Decimal(|result.vulnerabilities|));
    var e := Line("Endpoints Discovered", Decimal(|result.endpointsDiscovered|));
    var q := Line("Total Requests", Decimal(result.totalRequests));
    FiveParts(t, s, f, e, q, "\n");
    var h := Header(rep.colored);
    var g := Findings(rep.colored, percent, result.vulnerabilities);
    var b := Colorize(rep.colored, BottomRule, Cyan);
    SecondOfFour(h, Summary(result), g, b, t);
    SecondOfFour(h, Summary(result), g, b, s);
    SecondOfFour(h, Summary(result), g, b, f);
    SecondOfFour(h, Summary(result), g, b, e);
    SecondOfFour(h, Summary(result), g, b, q);
  }

  /** What `a + b` starts a string with, the string contains. */
  lemma ContainsHead(a: string, b: string, rest: string)
    ensures Contains(a + (b + rest), a + b)
  {
    AppendAssoc(a, b, rest);
    ContainsSelf(a + b);
    ContainsLeft(a + b, rest, a + b);
  }

  /** The entries contain the entry of each finding. */
  lemma EntryIn(colored: bool, percent: real -> string, vs: seq<Vulnerability>, i: nat)
    requires i < |vs|
    ensures Contains(Numbered(colored, percent, vs, 0), Entry(colored, percent, i, vs[i]))
  {
    var e := Entry(colored, percent, i, vs[i]);
    EntryPosition(colored, percent, vs, i);
    ContainsSelf(e);
    ContainsInConcat(Numbered(colored, percent, vs[..i], 0), e, Numbered(colored, percent, vs[i + 1..], i + 1), e);
  }

  /** The entries contain each finding's entry directly followed by the next finding's. */
  lemma PairIn(colored: bool, percent: real -> string, vs: seq<Vulnerability>, i: nat)
    requires i + 1 < |vs|
    ensures Contains(Numbered(colored, percent, vs, 0),
      Entry(colored, percent, i, vs[i]) + Entry(colored, percent, i + 1, vs[i + 1]))
  {
    var e := Entry(colored, percent, i, vs[i]);
    var e' := Entry(colored, percent, i + 1, vs[i + 1]);
    var before := Numbered(colored, percent, vs[..i], 0);
    var after := Numbered(colored, percent, vs[i + 2..], i + 2);
    var f := EntryPrinter(colored, percent);
    var tail := vs[i + 1..];
    EntryPosition(colored, percent, vs, i);
    assert tail[0] == vs[i + 1] && tail[1..] == vs[i + 2..];
    assert Enumerate(f, tail, i + 1) == f(i + 1, tail[0]) + Enumerate(f, tail[1..], i + 2);
    assert f(i + 1, tail[0]) == e';
    AppendAssoc(before, e, e' + after);
    AppendAssoc(e, e', after);
    AppendAssoc(before, e + e', after);
    ContainsSelf(e + e');
    ContainsInConcat(before, e + e', after, e + e');
  }

  /**
   * Without findings the report is the banner, the summary, the "no vulnerabilities" line and the
   * closing rule, with no entries. With findings it shows the "detected" line directly followed by
   * the entry numbered 1, the entry of every finding, and each entry directly followed by the
   * next finding's, so the entries appear in list order.
   */
  lemma ReportFindings(rep: ConsoleReporter, percent: real -> string, result: ScanResult)
    ensures var vs := result.vulnerabilities;
      var c := rep.colored;
      var r := Report(rep, percent, result);
      (vs == [] ==> r == Header(c) + Summary(result) + Colorize(c, NoVulnerabilities, Green) + Colorize(c, BottomRule, Cyan)) &&
      (vs != [] ==> Contains(r, Colorize(c, Detected, Yellow) + Entry(c, percent, 0, vs[0]))) &&
      (forall i | 0 <= i < |vs| :: Contains(r, Entry(c, percent, i, vs[i]))) &&
      (forall i | 0 <= i < |vs| - 1 :: Contains(r, Entry(c, percent, i, vs[i]) + Entry(c, percent, i + 1, vs[i + 1])))
  {
    var vs := result.vulnerabilities;
    var c := rep.colored;
    if vs != [] {
      var d := Colorize(c, Detected, Yellow);
      var e := Entry(c, percent, 0, vs[0]);
      var rest := Numbered(c, percent, vs[1..], 1);
      var head := Header(c) + Summary(result);
      var bottom := Colorize(c, BottomRule, Cyan);
      assert Numbered(c, percent, vs, 0) == e + rest;
      ContainsHead(d, e, rest);
      SecondOfThree(head, Findings(c, percent, vs), bottom, d + e);
      forall i | 0 <= i < |vs|
        ensures Contains(Report(rep, percent, result), Entry(c, percent, i, vs[i]))
      {
        EntryIn(c, percent, vs, i);
        ContainsRight(d, Numbered(c, percent, vs, 0), Entry(c, percent, i, vs[i]));
        SecondOfThree(head, Findings(c, percent, vs), bottom, Entry(c, percent, i, vs[i]));
      }
      forall i | 0 <= i < |vs| - 1
        ensures Contains(Report(rep, percent, result), Entry(c, percent, i, vs[i]) + Entry(c, percent, i + 1, vs[i + 1]))
      {
        var pair := Entry(c, percent, i, vs[i]) + Entry(c, percent, i + 1, vs[i + 1]);
        PairIn(c, percent, vs, i);
        ContainsRight(d, Numbered(c, percent, vs, 0), pair);
        SecondOfThree(head, Findings(c, percent, vs), bottom, pair);
      }
    }
  }

  /** The text `v` shows in an entry contains no line break. */
  predicate SingleLine(percent: real -> string, v: Vulnerability) {
    '\n' !in v.url && '\n' !in v.payload && '\n' !in TypeName(v.vulnType) &&
    (v.parameter.Some? ==> '\n' !in v.parameter.value) &&
    (v.aiConfidence.Some? ==> '\n' !in percent(v.aiConfidence.value))
  }

  /** A field line whose name and value have no line break has exactly one. */
  lemma FieldLines(name: string, value: string)
    requires '\n' !in name && '\n' !in value
    ensures Count(Field(name, value), '\n') == 1
  {
    var body := "   " + name + ": " + value;
    assert Field(name, value) == body + "\n";
    assert '\n' !in body;
    CountZero(body, '\n');
    CountAppend(body, "\n", '\n');
  }

  /** Severity names and method names hold capital letters only; colour codes have no line break. */
  lemma NamesPlain(v: Vulnerability)
    ensures '\n' !in ColorCode(v.severity) && '\n' !in SeverityName(v.severity) && Esc !in SeverityName(v.severity)
    ensures '\n' !in MethodName(v.httpMethod) && Esc !in MethodName(v.httpMethod)
  {
    match v.severity
    case Critical =>
    case High =>
    case Medium =>
    case Low =>
    case Info =>
  }

  /** The headline is one line. */
  lemma HeadlineLines(colored: bool, n: nat, v: Vulnerability)
    requires '\n' !in TypeName(v.vulnType)
    ensures Count(Headline(colored, n, v), '\n') == 1
  {
    NamesPlain(v);
    var d := Decimal(n + 1);
    assert '\n' !in d;
    var body := d + ". " + Colorize(colored, "[" + SeverityName(v.severity) + "]", ColorCode(v.severity)) + " " + TypeName(v.vulnType);
    assert Headline(colored, n, v) == body + "\n";
    assert '\n' !in Reset;
    assert '\n' !in body;
    CountZero(body, '\n');
    CountAppend(body, "\n", '\n');
  }

  /** Line breaks in six parts and a final one add up. */
  lemma CountSeven(h: string, u: string, m: string, p: string, y: string, a: string, z: string, c: char)
    ensures Count(h + u + m + p + y + a + z, c) ==
      Count(h, c) + Count(u, c) + Count(m, c) + Count(p, c) + Count(y, c) + Count(a, c) + Count(z, c)
  {
    CountAppend(h, u, c);
    CountAppend(h + u, m, c);
    CountAppend(h + u + m, p, c);
    CountAppend(h + u + m + p, y, c);
    CountAppend(h + u + m + p + y, a, c);
    CountAppend(h + u + m + p + y + a, z, c);
  }

  /**
   * When the shown text has no line breaks, an entry has five lines plus a blank one, one more when
   * the finding has a parameter and one more when it has a confidence: the Parameter and AI
   * Confidence lines appear exactly when those fields are present.
   */
  lemma EntryLines(colored: bool, percent: real -> string, n: nat, v: Vulnerability)
    requires SingleLine(percent, v)
    ensures Count(Entry(colored, percent, n, v), '\n') ==
      5 + (if v.parameter.Some? then 1 else 0) + (if v.aiConfidence.Some? then 1 else 0)
  {
    HeadlineLines(colored, n, v);
    FieldLines("URL", v.url);
    NamesPlain(v);
    FieldLines("Method", MethodName(v.httpMethod));
    if v.parameter.Some? {
      FieldLines("Parameter", v.parameter.value);
    }
    FieldLines("Payload", v.payload);
    if v.aiConfidence.Some? {
      FieldLines("AI Confidence", percent(v.aiConfidence.value) + "%");
    }
    CountSeven(Headline(colored, n, v), Field("URL", v.url), Field("Method", MethodName(v.httpMethod)),
      ParameterLine(v), Field("Payload", v.payload), ConfidenceLine(percent, v), "\n", '\n');
    assert Count("\n", '\n') == 1;
  }

  /** The text `v` shows in an entry contains no escape character. */
  predicate PlainText(percent: real -> string, v: Vulnerability) {
    Esc !in v.url && Esc !in v.payload && Esc !in TypeName(v.vulnType) &&
    (v.parameter.Some? ==> Esc !in v.parameter.value) &&
    (v.aiConfidence.Some? ==> Esc !in percent(v.aiConfidence.value))
  }

  lemma DecimalPlain(n: nat)
    ensures Esc !in Decimal(n)
  {
    assert forall k | 0 <= k < |Decimal(n)| :: Decimal(n)[k] != Esc;
  }

  /** A line built from text without escape characters has none. */
  lemma LinePlain(name: string, value: string)
    requires Esc !in name && Esc !in value
    ensures Esc !in Line(name, value) && Esc !in Field(name, value)
  {
  }

  lemma HeadlinePlain(n: nat, v: Vulnerability)
    requires Esc !in TypeName(v.vulnType)
    ensures Esc !in Headline(false, n, v)
  {
    NamesPlain(v);
    DecimalPlain(n + 1);
  }

  /** An uncoloured entry of a finding whose shown text has no escape character has none. */
  lemma EntryPlain(percent: real -> string, n: nat, v: Vulnerability)
    requires PlainText(percent, v)
    ensures Esc !in Entry(false, percent, n, v)
  {
    HeadlinePlain(n, v);
    NamesPlain(v);
    LinePlain("URL", v.url);
    LinePlain("Method", MethodName(v.httpMethod));
    LinePlain("Payload", v.payload);
    if v.parameter.Some? {
      LinePlain("Parameter", v.parameter.value);
    }
    if v.aiConfidence.Some? {
      LinePlain("AI Confidence", percent(v.aiConfidence.value) + "%");
    }
  }

  lemma {:induction false} NumberedPlain(percent: real -> string, vs: seq<Vulnerability>, n: nat)
    requires forall i | 0 <= i < |vs| :: PlainText(percent, vs[i])
    ensures Esc !in Numbered(false, percent, vs, n)
    decreases |vs|
  {
    if vs != [] {
      EntryPlain(percent, n, vs[0]);
      NumberedPlain(percent, vs[1..], n + 1);
    }
  }

  lemma SummaryNamesPlain()
    ensures Esc !in "Target" && Esc !in "Scan ID" && Esc !in "Total Vulnerabilities Found"
    ensures Esc !in "Endpoints Discovered" && Esc !in "Total Requests"
  {
  }

  lemma SummaryPlain(result: ScanResult)
    requires Esc !in result.targetUrl && Esc !in result.scanId
    ensures Esc !in Summary(result)
  {
    SummaryNamesPlain();
    DecimalPlain(|result.vulnerabilities|);
    DecimalPlain(|result.endpointsDiscovered|);
    DecimalPlain(result.totalRequests);
    LinePlain("Target", result.targetUrl);
    LinePlain("Scan ID", result.scanId);
    LinePlain("Total Vulnerabilities Found", Decimal(|result.vulnerabilities|));
    LinePlain("Endpoints Discovered", Decimal(|result.endpointsDiscovered|));
    LinePlain("Total Requests", Decimal(result.totalRequests));
  }

  lemma RulePlain()
    ensures Esc !in Rule
  {
  }

  lemma HeaderPlain()
    ensures Esc !in Header(false) && Esc !in BottomRule
  {
    RulePlain();
  }

  lemma BannersPlain()
    ensures Esc !in NoVulnerabilities && Esc !in Detected
  {
  }

  /**
   * An uncoloured report contains no escape character when the target, the scan id and the text
   * shown for each finding contain none.
   */
  lemma UncolouredPlain(percent: real -> string, result: ScanResult)
    requires Esc !in result.targetUrl && Esc !in result.scanId
    requires forall i | 0 <= i < |result.vulnerabilities| :: PlainText(percent, result.vulnerabilities[i])
    ensures Esc !in Report(ConsoleReporter(false), percent, result)
  {
    NumberedPlain(percent, result.vulnerabilities, 0);
    SummaryPlain(result);
    HeaderPlain();
    BannersPlain();
  }

  /** A coloured report starts with the cyan colour code. */
  lemma ColouredStart(percent: real -> string, result: ScanResult)
    ensures StartsWith(Report(ConsoleReporter(true), percent, result), Cyan)
  {
    var top := Colorize(true, TopRule, Cyan);
    assert top == Cyan + (TopRule + Reset);
    assert top[..|Cyan|] == Cyan;
    PrefixOfSix(top, Colorize(true, Title, Magenta), Colorize(true, MidRule, Cyan), Summary(result),
      Findings(true, percent, result.vulnerabilities), Colorize(true, BottomRule, Cyan), Cyan);
  }
}
