/**
 * Scan profiles (fast, balanced, deep, stealth), lookup of a profile by name, and the global
 * configuration defaults.
 */
module Config {
  import opened Wrappers
  import opened Text
  import opened Types

  datatype ScanProfile = ScanProfile(
    name: string,
    description: string,
    maxDepth: nat,
    maxConcurrentRequests: nat,
    timeoutSeconds: nat,
    followRedirects: bool,
    userAgent: string,
    customHeaders: map<string, string>,
    enabledScanners: seq<string>,
    enableAiAnalysis: bool,
    aggressiveMode: bool,
    useEvasionTechniques: bool,
    rateLimitMs: Option<nat>)

  /** The preset names. */
  const FastName := "fast"
  const BalancedName := "balanced"
  const DeepName := "deep"
  const StealthName := "stealth"

  function Fast(): ScanProfile {
    ScanProfile(FastName, "Quick scan with minimal payloads", 2, 100, 5, true,
      "ShadowProbe/0.1.0 (Fast)", map[], ["xss", "sqli"], false, false, false, Some(100))
  }

  function Balanced(): ScanProfile {
    ScanProfile(BalancedName, "Balanced scan with moderate coverage", 3, 50, 10, true,
      "ShadowProbe/0.1.0", map[], ["sqli", "xss", "ssrf", "lfi"], true, false, false, None)
  }

  function Deep(): ScanProfile {
    ScanProfile(DeepName, "Comprehensive scan with all techniques", 5, 30, 15, true,
      "ShadowProbe/0.1.0 (Deep)", map[], ["sqli", "xss", "ssrf", "lfi", "ssti"], true, true, true, None)
  }

  function Stealth(): ScanProfile {
    ScanProfile(StealthName, "Slow and stealthy scan to evade detection", 3, 5, 20, true,
      "Mozilla/5.0 (Windows NT 10.0; Win64; x64) AppleWebKit/537.36",
      map["Accept" := "text/html,application/xhtml+xml", "Accept-Language" := "en-US,en;q=0.9"],
      ["sqli", "xss"], true, false, true, Some(2000))
  }

  /** The four presets, in declaration order. */
  function Presets(): seq<ScanProfile> {
    [Fast(), Balanced(), Deep(), Stealth()]
  }

  /** The first profile of `ps` whose name is `key`. */
  function Lookup(key: string, ps: seq<ScanProfile>): (r: Option<ScanProfile>)
    ensures r.Some? ==> r.value.name == key && r.value in ps
    ensures r.None? ==> forall p | p in ps :: p.name != key
  {
    if ps == [] then None
    else if ps[0].name == key then Some(ps[0])
    else Lookup(key, ps[1..])
  }

  /** Among profiles with distinct names, looking up a profile's name finds that profile. */
  lemma {:induction false} LookupFinds(key: string, ps: seq<ScanProfile>, p: ScanProfile)
    requires forall i, j | 0 <= i < j < |ps| :: ps[i].name != ps[j].name
    requires p in ps && p.name == key
    ensures Lookup(key, ps) == Some(p)
  {
    if ps[0] != p {
      assert p in ps[1..];
      var j :| 0 < j < |ps| && ps[j] == p;
      assert ps[0].name != ps[j].name;
      LookupFinds(key, ps[1..], p);
    }
  }

  /** The four preset names differ from one another. */
  lemma PresetNamesDistinct()
    ensures forall i, j | 0 <= i < j < |Presets()| :: Presets()[i].name != Presets()[j].name
  {
    assert FastName[1] != DeepName[1];
    assert |FastName| != |BalancedName| && |FastName| != |StealthName|;
    assert |BalancedName| != |DeepName| && |BalancedName| != |StealthName| && |DeepName| != |StealthName|;
  }

  /**
   * `ScanProfile::by_name`: the lower-cased name selects the preset of that name (the presets'
   * names are distinct, so the order of the presets does not matter); any other name gives None.
   * A returned profile always carries the lower-cased name it was looked up by.
   */
  function ByName(name: string): (r: Option<ScanProfile>)
    ensures r.Some? ==> r.value.name == Lower(name) && r.value in Presets()
    ensures r.None? ==> forall p | p in Presets() :: p.name != Lower(name)
  {
    Lookup(Lower(name), Presets())
  }

  /** Looking up a preset's own name, in any letter case, finds that preset. */
  lemma ByNameFindsPreset(p: ScanProfile, name: string)
    requires p in Presets() && Lower(name) == p.name
    ensures ByName(name) == Some(p)
  {
    PresetNamesDistinct();
    LookupFinds(Lower(name), Presets(), p);
  }

  /** Lookup ignores letter case: "STEALTH" finds the stealth preset. */
  lemma ByNameUpperCase()
    ensures ByName("STEALTH") == Some(Stealth())
  {
    LowerStealth();
    ByNameFindsPreset(Stealth(), "STEALTH");
  }

  lemma LowerStealth()
    ensures Lower("STEALTH") == StealthName
  {
    var t := Lower("STEALTH");
    forall k | 0 <= k < 7 ensures t[k] == StealthName[k] {}
  }

  /** Lookup ignores letter case: "Fast" finds the fast preset. */
  lemma ByNameMixedCase()
    ensures ByName("Fast") == Some(Fast())
  {
    LowerFast();
    ByNameFindsPreset(Fast(), "Fast");
  }

  lemma LowerFast()
    ensures Lower("Fast") == FastName
  {
    var f := Lower("Fast");
    forall k | 0 <= k < 4 ensures f[k] == FastName[k] {}
  }

  /** A name that is not a preset's finds nothing. */
  lemma ByNameUnknown()
    ensures ByName("quick").None?
  {
    var q := Lower("quick");
    assert |q| == 5 && q[0] == 'q';
    assert FastName[0] != 'q' && DeepName[0] != 'q';
    assert |BalancedName| != 5 && |StealthName| != 5;
  }

  /** `impl Default for ScanProfile`: the balanced preset, which its own name finds. */
  function DefaultProfile(): (p: ScanProfile)
    ensures p == Balanced()
    ensures ByName(p.name) == Some(p)
  {
    LowerBalanced();
    Balanced()
  }

  /** The balanced preset's name is already lower case. */
  lemma LowerBalanced()
    ensures Lower("balanced") == "balanced"
  {
    var b := Lower("balanced");
    forall k | 0 <= k < 8 ensures b[k] == "balanced"[k] {}
  }

  /** Only the fast (100 ms) and stealth (2000 ms) presets set a rate limit. */
  lemma RateLimitedPresets(p: ScanProfile)
    requires p in Presets()
    ensures p.rateLimitMs.Some? <==> p.name == "fast" || p.name == "stealth"
    ensures p.name == "fast" ==> p.rateLimitMs == Some(100)
    ensures p.name == "stealth" ==> p.rateLimitMs == Some(2000)
  {
  }

  /** Preset facts the source's own tests rely on. */
  lemma PresetFacts()
    ensures Fast().maxDepth == 2 && Fast().maxConcurrentRequests == 100
    ensures Deep().aggressiveMode && Deep().useEvasionTechniques
    ensures forall p | p in Presets() :: p.followRedirects
  {
  }

  /**
   * The balanced preset carries the same crawl settings as `ScanConfig::default`, so the default
   * profile and the default scan configuration agree.
   */
  lemma BalancedMatchesScanConfigDefault()
    ensures var c := DefaultScanConfig();
      DefaultProfile().maxDepth == c.maxDepth
      && DefaultProfile().maxConcurrentRequests == c.maxConcurrentRequests
      && DefaultProfile().timeoutSeconds == c.timeoutSeconds
      && DefaultProfile().userAgent == c.userAgent
      && DefaultProfile().enableAiAnalysis == c.enableAiAnalysis
      && DefaultProfile().aggressiveMode == c.aggressiveMode
  {
  }

  datatype GlobalConfig = GlobalConfig(
    defaultProfile: string,
    outputDirectory: string,
    enableLogging: bool,
    logLevel: string,
    apiKeys: map<string, string>,
    customWordlists: map<string, string>)

  /** `impl Default for Config`: its default profile name resolves to the default profile. */
  function DefaultConfig(): (c: GlobalConfig)
    ensures ByName(c.defaultProfile) == Some(DefaultProfile())
    ensures c.outputDirectory == "./output" && c.logLevel == "info"
    ensures c.enableLogging && c.apiKeys == map[] && c.customWordlists == map[]
  {
    LowerBalanced();
    GlobalConfig("balanced", "./output", true, "info", map[], map[])
  }
}
