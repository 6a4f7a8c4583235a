/** `BranchBorderService`: resolves the current branch against the settings-based
    rules and drives the painter. */
module Service {
  import opened Common
  import opened Colors
  import opened Matching
  import opened Settings
  import opened Painter

  /** The resolved appearance: a colour (none means no border), a style and a
      blink flag. Width and interval are not part of it: they always come from
      the global settings. */
  datatype BranchSettings = BranchSettings(color: Option<Rgb>, style: BorderStyle, blinking: bool)

  predicate RuleAccepts(rule: BranchRuleState, branch: string, engine: RegexEngine) {
    Matches(rule.matchType, rule.pattern, branch, engine)
  }

  /** `getDefaultSettings`. */
  function DefaultSettings(s: SettingsState): BranchSettings {
    if s.noBorderIfUnmatched then BranchSettings(None, s.defaultBorderStyle, false)
    else BranchSettings(ParseColor(s.defaultColor), s.defaultBorderStyle, s.defaultBlinking)
  }

  /** The appearance a matched rule yields: its parsed colour (possibly none), its
      own style or else the default style, and its own blink flag. */
  function RuleSettings(rule: BranchRuleState, s: SettingsState): BranchSettings {
    BranchSettings(ParseColor(rule.color), rule.borderStyle.GetOr(s.defaultBorderStyle), rule.blinking)
  }

  /** `getSettingsForBranch` as a value: no branch gives the defaults; otherwise the
      first rule, in list order, that accepts the branch, or the defaults. */
  function SettingsForBranch(branch: Option<string>, s: SettingsState, engine: RegexEngine): BranchSettings {
    match branch
    case None => DefaultSettings(s)
    case Some(b) =>
      match FirstIndex(s.branchRules, r => RuleAccepts(r, b, engine))
      case Some(i) => RuleSettings(s.branchRules[i], s)
      case None => DefaultSettings(s)
  }

  /** The defaults: with `noBorderIfUnmatched` there is no colour and no blinking;
      otherwise the parsed default colour and the default blink flag. The style is
      always the default style. */
  lemma DefaultSettingsSpec(s: SettingsState)
    ensures DefaultSettings(s).style == s.defaultBorderStyle
    ensures s.noBorderIfUnmatched ==> DefaultSettings(s).color == None && !DefaultSettings(s).blinking
    ensures !s.noBorderIfUnmatched ==>
      DefaultSettings(s).color == ParseColor(s.defaultColor) && DefaultSettings(s).blinking == s.defaultBlinking
  {
  }

  /** A branch that could not be determined resolves to exactly the defaults. */
  lemma AbsentBranchIsDefault(s: SettingsState, engine: RegexEngine)
    ensures SettingsForBranch(None, s, engine) == DefaultSettings(s)
  {
  }

  /** First match wins: if rule `i` accepts the branch and every earlier rule rejects
      it, the result is what rule `i` yields, whatever the later rules say. */
  lemma FirstAcceptingRuleWins(b: string, s: SettingsState, engine: RegexEngine, i: nat)
    requires i < |s.branchRules| && RuleAccepts(s.branchRules[i], b, engine)
    requires forall j :: 0 <= j < i ==> !RuleAccepts(s.branchRules[j], b, engine)
    ensures SettingsForBranch(Some(b), s, engine) == RuleSettings(s.branchRules[i], s)
  {
    FirstIndexIsUnique(s.branchRules, r => RuleAccepts(r, b, engine), i);
  }

  /** Conversely, a result that differs from the defaults comes from some rule that
      accepts the branch, and every earlier rule rejects it. */
  lemma ResultComesFromFirstMatch(b: string, s: SettingsState, engine: RegexEngine)
    requires SettingsForBranch(Some(b), s, engine) != DefaultSettings(s)
    ensures exists i :: 0 <= i < |s.branchRules| && RuleAccepts(s.branchRules[i], b, engine) &&
              (forall j :: 0 <= j < i ==> !RuleAccepts(s.branchRules[j], b, engine)) &&
              SettingsForBranch(Some(b), s, engine) == RuleSettings(s.branchRules[i], s)
  {
    var k := FirstIndex(s.branchRules, r => RuleAccepts(r, b, engine));
    assert k.Some?;
    var i := k.value;
    assert RuleAccepts(s.branchRules[i], b, engine);
    assert forall j :: 0 <= j < i ==> !RuleAccepts(s.branchRules[j], b, engine);
  }

  /** When no rule accepts the branch the result is the defaults; with
      `noBorderIfUnmatched` that means no border at all. */
  lemma UnmatchedIsDefault(b: string, s: SettingsState, engine: RegexEngine)
    requires forall j :: 0 <= j < |s.branchRules| ==> !RuleAccepts(s.branchRules[j], b, engine)
    ensures SettingsForBranch(Some(b), s, engine) == DefaultSettings(s)
    ensures s.noBorderIfUnmatched ==> SettingsForBranch(Some(b), s, engine).color == None
    ensures !s.noBorderIfUnmatched ==> SettingsForBranch(Some(b), s, engine).color == ParseColor(s.defaultColor)
  {
  }

  /** A rule that cannot match (a regex that does not compile, or an unknown match
      kind) can be removed from the front of the list without changing any
      resolution: the scan simply continues with the next rule. */
  lemma {:induction false} NonMatchingRuleIsSkipped(b: string, s: SettingsState, engine: RegexEngine, bad: BranchRuleState)
    requires (bad.matchType == "regex" && !engine.compiles(bad.pattern)) ||
             (bad.matchType != "exact" && bad.matchType != "prefix" && bad.matchType != "regex")
    ensures SettingsForBranch(Some(b), s.(branchRules := [bad] + s.branchRules), engine) ==
            SettingsForBranch(Some(b), s, engine)
  {
    var p := (r: BranchRuleState) => RuleAccepts(r, b, engine);
    assert !p(bad);
    FirstIndexSkipsRejected(bad, s.branchRules, p);
    var t := [bad] + s.branchRules;
    assert forall k :: 0 <= k < |s.branchRules| ==> t[k + 1] == s.branchRules[k];
  }

  /** With the settings initialisers and no branch the border is the default
      orange `#FF6600`, solid and steady. */
  lemma DefaultSettingsShowOrange(engine: RegexEngine)
    ensures SettingsForBranch(None, DefaultSettingsState, engine) == BranchSettings(Some(0xFF6600), Solid, false)
  {
    OrangeLiteral();
  }

  class BranchBorderService {
    const settings: BranchBorderSettings
    const engine: RegexEngine
    var painter: BorderPainter?
    var currentBranch: Option<string>

    ghost predicate Valid()
      reads this, painter
    {
      painter != null ==> painter.Valid()
    }

    /** The painter is whatever `setupPainter` managed to install (none when the
        project frame or root pane is missing). */
    constructor (settings: BranchBorderSettings, engine: RegexEngine, painter: BorderPainter?)
      requires painter != null ==> painter.Valid()
      ensures Valid()
      ensures this.settings == settings && this.engine == engine && this.painter == painter
      ensures currentBranch == None
    {
      this.settings := settings;
      this.engine := engine;
      this.painter := painter;
      currentBranch := None;
    }

    /** `getSettingsForBranch`: the for-loop with early return over the rules. */
    method GetSettingsForBranch(branchName: Option<string>) returns (r: BranchSettings)
      ensures r == SettingsForBranch(branchName, settings.State(), engine)
    {
      if branchName.None? {
        return DefaultSettings(settings.State());
      }
      var b := branchName.value;
      var rules := settings.branchRules;
      var i := 0;
      while i < |rules|
        invariant 0 <= i <= |rules|
        invariant forall j :: 0 <= j < i ==> !RuleAccepts(rules[j], b, engine)
      {
        var rule := rules[i];
        var matches := Matches(rule.matchType, rule.pattern, b, engine);
        if matches {
          FirstIndexIsUnique(rules, r => RuleAccepts(r, b, engine), i);
          return RuleSettings(rule, settings.State());
        }
        i := i + 1;
      }
      return DefaultSettings(settings.State());
    }

    /** `updateBorder`: without a painter nothing happens; when disabled the painter
        gets no colour (and the default style, no blinking); otherwise the resolved
        colour, style and blink flag, with width and interval always taken from the
        global settings. Re-resolving while already blinking at the same interval
        keeps the running timer and its phase. */
    method UpdateBorder()
      requires Valid()
      modifies painter
      ensures Valid()
      ensures painter != null && !settings.enabled ==>
        painter.borderColor == None && painter.borderWidth == settings.borderWidth &&
        painter.borderStyle == Solid && !painter.blinkingEnabled
      ensures painter != null && settings.enabled ==>
        var r := SettingsForBranch(currentBranch, settings.State(), engine);
        && painter.borderColor == r.color
        && painter.borderWidth == settings.borderWidth
        && painter.borderStyle == r.style
        && painter.blinkingEnabled == (r.blinking && r.color.Some?)
        && (painter.blinkingEnabled ==> painter.blinkingInterval == settings.blinkInterval)
      ensures painter != null && painter.blinkingEnabled && old(painter.blinkingEnabled) &&
              old(painter.blinkingInterval) == settings.blinkInterval ==>
        painter.blinkTimer == old(painter.blinkTimer) && painter.isVisible == old(painter.isVisible)
    {
      var p := painter;
      if p == null {
        return;
      }
      if !settings.enabled {
        p.UpdateBorder(None, settings.borderWidth, Solid, false, 500);
        return;
      }
      var branchSettings := GetSettingsForBranch(currentBranch);
      p.UpdateBorder(branchSettings.color, settings.borderWidth, branchSettings.style,
                     branchSettings.blinking, settings.blinkInterval);
    }

    /** The callback `initialize` hands to the branch listener: remember the branch,
        then update the border. */
    method OnBranchChanged(branch: Option<string>)
      requires Valid()
      modifies this, painter
      ensures Valid() && currentBranch == branch && painter == old(painter)
      ensures painter != null && settings.enabled ==>
        var r := SettingsForBranch(branch, settings.State(), engine);
        painter.borderColor == r.color && painter.borderStyle == r.style &&
        painter.borderWidth == settings.borderWidth &&
        painter.blinkingEnabled == (r.blinking && r.color.Some?) &&
        (painter.blinkingEnabled ==> painter.blinkingInterval == settings.blinkInterval)
      ensures painter != null && !settings.enabled ==> painter.borderColor == None
    {
      currentBranch := branch;
      UpdateBorder();
    }

    /** `onSettingsChanged`: re-resolve with the current branch. */
    method OnSettingsChanged()
      requires Valid()
      modifies painter
      ensures Valid()
      ensures painter != null && settings.enabled ==>
        var r := SettingsForBranch(currentBranch, settings.State(), engine);
        painter.borderColor == r.color && painter.borderStyle == r.style &&
        painter.borderWidth == settings.borderWidth &&
        painter.blinkingEnabled == (r.blinking && r.color.Some?) &&
        (painter.blinkingEnabled ==> painter.blinkingInterval == settings.blinkInterval)
      ensures painter != null && !settings.enabled ==> painter.borderColor == None
    {
      UpdateBorder();
    }

    /** `dispose`: drop the painter reference. The painter itself is not disposed
        here, exactly as in the service. */
    method Dispose()
      modifies this
      ensures painter == null && currentBranch == old(currentBranch)
    {
      painter := null;
    }
  }

  /** The end-to-end path: a "main" rule with blinking, checked out "main", gives a
      blinking red border at the global interval; switching to an unmatched branch
      with `noBorderIfUnmatched` removes the border and stops blinking. */
  method MainBranchScenario(engine: RegexEngine)
  {
    var settings := new BranchBorderSettings();
    settings.blinkInterval := 300;
    settings.noBorderIfUnmatched := true;
    settings.branchRules := [BranchRuleState("main", "exact", "#FF0000", None, true)];
    var painter := new BorderPainter();
    var service := new BranchBorderService(settings, engine, painter);

    RedLiteral();
    FirstAcceptingRuleWins("main", settings.State(), engine, 0);
    service.OnBranchChanged(Some("main"));
    assert painter.borderColor == Some(0xFF0000) && painter.blinkingEnabled;
    assert painter.blinkingInterval == 300 && painter.borderStyle == Solid;

    UnmatchedIsDefault("develop", settings.State(), engine);
    service.OnBranchChanged(Some("develop"));
    assert painter.borderColor == None && !painter.blinkingEnabled && painter.blinkTimer == None;
  }
}
