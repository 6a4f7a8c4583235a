/** The persisted settings bean (`BranchBorderSettings`) and the rule record it
    holds (`BranchRuleState`). */
module Settings {
  import opened Common

  /** The border style: a closed two-value enum. */
  datatype BorderStyle = Solid | Dashed

  /** One user-defined rule of the settings; `borderStyle == None` means "use the
      default style". The Kotlin data class has `var` fields but is always copied
      (`it.copy()`) before it is stored elsewhere, so it is a value here. */
  datatype BranchRuleState = BranchRuleState(
    pattern: string,
    matchType: string,
    color: string,
    borderStyle: Option<BorderStyle>,
    blinking: bool)

  /** `BranchRuleState()` with every parameter left at its default. */
  const DefaultRule: BranchRuleState := BranchRuleState("", "exact", "#FF0000", None, false)

  /** The values of all fields of the bean at one moment. */
  datatype SettingsState = SettingsState(
    enabled: bool,
    borderWidth: int,
    blinkInterval: int,
    defaultColor: string,
    defaultBorderStyle: BorderStyle,
    defaultBlinking: bool,
    noBorderIfUnmatched: bool,
    branchRules: seq<BranchRuleState>)

  /** The field initialisers of `BranchBorderSettings`. */
  const DefaultSettingsState: SettingsState :=
    SettingsState(true, 4, 500, "#FF6600", Solid, false, false, [])

  /** The project-level persistent settings component. */
  class BranchBorderSettings {
    var enabled: bool
    var borderWidth: int
    var blinkInterval: int
    var defaultColor: string
    var defaultBorderStyle: BorderStyle
    var defaultBlinking: bool
    var noBorderIfUnmatched: bool
    var branchRules: seq<BranchRuleState>

    function State(): SettingsState
      reads this
    {
      SettingsState(enabled, borderWidth, blinkInterval, defaultColor,
                    defaultBorderStyle, defaultBlinking, noBorderIfUnmatched, branchRules)
    }

    constructor ()
      ensures State() == DefaultSettingsState
    {
      enabled := true;
      borderWidth := 4;
      blinkInterval := 500;
      defaultColor := "#FF6600";
      defaultBorderStyle := Solid;
      defaultBlinking := false;
      noBorderIfUnmatched := false;
      branchRules := [];
    }

    /** `getState`: the component persists itself. */
    method GetState() returns (s: BranchBorderSettings)
      ensures s == this
    {
      s := this;
    }

    /** `loadState`: `XmlSerializerUtil.copyBean(state, this)` overwrites every field
        with the incoming bean's value; the incoming bean is not changed. */
    method LoadState(state: BranchBorderSettings)
      modifies this
      ensures State() == old(state.State())
      ensures state != this ==> state.State() == old(state.State())
    {
      var s := state.State();
      enabled := s.enabled;
      borderWidth := s.borderWidth;
      blinkInterval := s.blinkInterval;
      defaultColor := s.defaultColor;
      defaultBorderStyle := s.defaultBorderStyle;
      defaultBlinking := s.defaultBlinking;
      noBorderIfUnmatched := s.noBorderIfUnmatched;
      branchRules := s.branchRules;
    }
  }
}
