/** `BranchColorConfig`: the file-based variant that reads `.branch-colors.json`
    from the project root. Reading the file and Gson's parsing are not modelled;
    `LoadConfig` receives their outcome. */
module ColorConfig {
  import opened Common
  import opened Colors
  import opened Matching

  /** The name of the configuration file in the project root. */
  const ConfigFileName: string := ".branch-colors.json"

  /** `BlinkingConfig(enabled = false, interval = 500)` by default. */
  datatype BlinkingConfig = BlinkingConfig(enabled: bool, interval: int)

  const DefaultBlinkingConfig: BlinkingConfig := BlinkingConfig(false, 500)

  /** One rule of the file; `matchKind` is the JSON field "match". The Kotlin
      constructor defaults it to "exact", but Gson builds this class without that
      constructor, so a file rule always carries the kind the file gives. */
  datatype BranchRule = BranchRule(pattern: string, matchKind: string, color: string, blinking: Option<BlinkingConfig>)

  /** `BranchRule(pattern, color = color)`: the data class defaults for the rest. */
  function NewBranchRule(pattern: string, color: string): (r: BranchRule)
    ensures r.pattern == pattern && r.color == color
    ensures r.matchKind == "exact" && r.blinking == None
  {
    BranchRule(pattern, "exact", color, None)
  }

  /** The parsed file, as the data class declares it. */
  datatype BranchColorConfigData = BranchColorConfigData(
    borderWidth: int,
    defaultColor: Option<string>,
    blinking: Option<BlinkingConfig>,
    branches: seq<BranchRule>)

  /** `BranchColorConfigData()`: width 4, no default colour, no blinking, no rules. */
  const DefaultConfigData: BranchColorConfigData := BranchColorConfigData(4, None, None, [])

  /** What reading the file produced: no file, an exception while reading or
      parsing it, or the parsed data. */
  datatype ConfigFile = Missing | Unreadable | Parsed(data: BranchColorConfigData)

  /** The resolved appearance of this variant: a colour and the blink settings. */
  datatype ConfigSettings = ConfigSettings(color: Option<Rgb>, blinking: Option<BlinkingConfig>)

  /** The loaded configuration: the values of the private-set fields. */
  datatype ConfigState = ConfigState(
    borderWidth: int,
    defaultColor: Option<Rgb>,
    defaultBlinking: Option<BlinkingConfig>,
    branches: seq<BranchRule>)

  /** The fields as a successful `loadConfig` assigns them from `data`. */
  function Loaded(data: BranchColorConfigData): (c: ConfigState)
    ensures 1 <= c.borderWidth <= 20
    ensures 1 <= data.borderWidth <= 20 ==> c.borderWidth == data.borderWidth
    ensures data.defaultColor.None? ==> c.defaultColor.None?
    ensures data.defaultColor.Some? ==> c.defaultColor == ParseColor(data.defaultColor.value)
    ensures c.defaultBlinking == data.blinking && c.branches == data.branches
  {
    ConfigState(
      CoerceIn(data.borderWidth, 1, 20),
      match data.defaultColor case Some(s) => ParseColor(s) case None => None,
      data.blinking,
      data.branches)
  }

  predicate RuleAccepts(rule: BranchRule, branch: string, engine: RegexEngine) {
    Matches(rule.matchKind, rule.pattern, branch, engine)
  }

  /** The appearance a matched rule yields: its parsed colour, and its own blink
      settings or else the default ones. */
  function RuleSettings(rule: BranchRule, c: ConfigState): ConfigSettings {
    ConfigSettings(ParseColor(rule.color), if rule.blinking.Some? then rule.blinking else c.defaultBlinking)
  }

  /** This variant's `getSettingsForBranch` as a value; there is no
      `noBorderIfUnmatched` here, the defaults are always the loaded ones. */
  function ConfigSettingsFor(branch: Option<string>, c: ConfigState, engine: RegexEngine): ConfigSettings {
    match branch
    case None => ConfigSettings(c.defaultColor, c.defaultBlinking)
    case Some(b) =>
      match FirstIndex(c.branches, r => RuleAccepts(r, b, engine))
      case Some(i) => RuleSettings(c.branches[i], c)
      case None => ConfigSettings(c.defaultColor, c.defaultBlinking)
  }

  /** No branch, or a branch no rule accepts, yields the loaded defaults. */
  lemma DefaultsWhenUnmatched(branch: Option<string>, c: ConfigState, engine: RegexEngine)
    requires branch.Some? ==> forall j :: 0 <= j < |c.branches| ==> !RuleAccepts(c.branches[j], branch.value, engine)
    ensures ConfigSettingsFor(branch, c, engine) == ConfigSettings(c.defaultColor, c.defaultBlinking)
  {
  }

  /** First match wins; the matched rule's blink settings override the default ones
      only when the rule has them. */
  lemma FirstAcceptingRuleWins(b: string, c: ConfigState, engine: RegexEngine, i: nat)
    requires i < |c.branches| && RuleAccepts(c.branches[i], b, engine)
    requires forall j :: 0 <= j < i ==> !RuleAccepts(c.branches[j], b, engine)
    ensures ConfigSettingsFor(Some(b), c, engine).color == ParseColor(c.branches[i].color)
    ensures c.branches[i].blinking.Some? ==> ConfigSettingsFor(Some(b), c, engine).blinking == c.branches[i].blinking
    ensures c.branches[i].blinking.None? ==> ConfigSettingsFor(Some(b), c, engine).blinking == c.defaultBlinking
  {
    FirstIndexIsUnique(c.branches, r => RuleAccepts(r, b, engine), i);
  }

  /** A configuration loaded from an empty JSON object draws nothing on any branch. */
  lemma EmptyFileDrawsNothing(branch: Option<string>, engine: RegexEngine)
    ensures ConfigSettingsFor(branch, Loaded(DefaultConfigData), engine) == ConfigSettings(None, None)
  {
  }

  /** An example configuration file: orange by default, a blinking "main"
      rule first, then a prefix rule and a regex rule. */
  const ExampleData: BranchColorConfigData :=
    BranchColorConfigData(4, Some("#FF6600"), Some(DefaultBlinkingConfig), [
      BranchRule("main", "exact", "#FF0000", Some(BlinkingConfig(true, 300))),
      BranchRule("release/", "prefix", "#FFA500", None),
      BranchRule("feature/.*", "regex", "#00AA00", None)])

  /** In the example, "main" resolves to red blinking every 300 ms. */
  lemma ExampleMainBlinks(engine: RegexEngine)
    ensures ConfigSettingsFor(Some("main"), Loaded(ExampleData), engine) ==
            ConfigSettings(Some(0xFF0000), Some(BlinkingConfig(true, 300)))
  {
    RedLiteral();
    FirstAcceptingRuleWins("main", Loaded(ExampleData), engine, 0);
  }

  /** In the example, "feature/login" passes the first two rules and takes the regex
      rule's colour with the file's default blink settings. */
  lemma ExampleFeatureFallsThrough(engine: RegexEngine)
    requires engine.compiles("feature/.*") && engine.fullMatch("feature/.*", "feature/login")
    ensures ConfigSettingsFor(Some("feature/login"), Loaded(ExampleData), engine) ==
            ConfigSettings(ParseColor("#00AA00"), Some(DefaultBlinkingConfig))
  {
    var c := Loaded(ExampleData);
    assert !RuleAccepts(c.branches[0], "feature/login", engine);
    assert !RuleAccepts(c.branches[1], "feature/login", engine) by {
      assert "feature/login"[0] != "release/"[0];
    }
    FirstAcceptingRuleWins("feature/login", c, engine, 2);
  }

  class BranchColorConfig {
    const engine: RegexEngine
    var borderWidth: int
    var defaultColor: Option<Rgb>
    var defaultBlinking: Option<BlinkingConfig>
    var branches: seq<BranchRule>

    function State(): ConfigState
      reads this
    {
      ConfigState(borderWidth, defaultColor, defaultBlinking, branches)
    }

    /** The width is always inside [1, 20]. */
    ghost predicate Valid()
      reads this
    {
      1 <= borderWidth <= 20
    }

    /** The field initialisers: width 4, nothing else. */
    constructor (engine: RegexEngine)
      ensures Valid() && this.engine == engine
      ensures State() == ConfigState(4, None, None, [])
    {
      this.engine := engine;
      borderWidth := 4;
      defaultColor := None;
      defaultBlinking := None;
      branches := [];
    }

    /** `loadConfig`: false and no change when the file is missing or cannot be parsed
        (the exception comes before any field is assigned); otherwise every field is
        replaced and the width is clamped. */
    method LoadConfig(file: ConfigFile) returns (ok: bool)
      requires Valid()
      modifies this
      ensures Valid()
      ensures ok <==> file.Parsed?
      ensures file.Parsed? ==> State() == Loaded(file.data)
      ensures !file.Parsed? ==> State() == old(State())
    {
      if file.Missing? {
        return false;
      }
      if file.Unreadable? {
        return false;
      }
      var data := file.data;
      borderWidth := CoerceIn(data.borderWidth, 1, 20);
      defaultColor := match data.defaultColor case Some(s) => ParseColor(s) case None => None;
      defaultBlinking := data.blinking;
      branches := data.branches;
      return true;
    }

    /** `getSettingsForBranch`: the for-loop with early return over the rules. */
    method GetSettingsForBranch(branchName: Option<string>) returns (r: ConfigSettings)
      ensures r == ConfigSettingsFor(branchName, State(), engine)
    {
      if branchName.None? {
        return ConfigSettings(defaultColor, defaultBlinking);
      }
      var b := branchName.value;
      var i := 0;
      while i < |branches|
        invariant 0 <= i <= |branches|
        invariant forall j :: 0 <= j < i ==> !RuleAccepts(branches[j], b, engine)
      {
        var rule := branches[i];
        var matches := Matches(rule.matchKind, rule.pattern, b, engine);
        if matches {
          FirstIndexIsUnique(branches, r => RuleAccepts(r, b, engine), i);
          var blinking := if rule.blinking.Some? then rule.blinking else defaultBlinking;
          return ConfigSettings(ParseColor(rule.color), blinking);
        }
        i := i + 1;
      }
      return ConfigSettings(defaultColor, defaultBlinking);
    }

    /** `getColorForBranch`: the colour part of `getSettingsForBranch`. */
    method GetColorForBranch(branchName: Option<string>) returns (c: Option<Rgb>)
      ensures c == ConfigSettingsFor(branchName, State(), engine).color
    {
      var s := GetSettingsForBranch(branchName);
      c := s.color;
    }
  }

  /** A failed reload keeps the previous configuration, so the border keeps the
      colours it had. */
  method ReloadKeepsLastGood(engine: RegexEngine, good: BranchColorConfigData, branch: Option<string>)
  {
    var config := new BranchColorConfig(engine);
    var ok := config.LoadConfig(Parsed(good));
    assert ok;
    var before := config.GetSettingsForBranch(branch);
    ok := config.LoadConfig(Unreadable);
    assert !ok;
    ok := config.LoadConfig(Missing);
    assert !ok;
    var after := config.GetSettingsForBranch(branch);
    assert after == before;
  }
}
