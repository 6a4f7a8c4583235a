/** `BranchRuleDialog`: the add/edit dialog for one rule. Its widgets are fields
    here; `Color.decode` is a parameter, and the regular-expression engine is the
    one the resolvers use. */
module RuleDialog {
  import opened Common
  import opened Colors
  import opened Matching
  import opened Settings
  import Service

  /** The two messages `doValidate` can return. */
  datatype ValidationError = PatternEmpty | InvalidRegex

  /** Kotlin's `Char.isWhitespace()` on the JVM: `Character.isWhitespace` (the ASCII
      controls tab to carriage return, U+001C to U+001F, and the Unicode space,
      line and paragraph separators other than the no-break ones) or
      `Character.isSpaceChar` (which adds the no-break spaces U+00A0, U+2007 and
      U+202F). */
  predicate IsWhitespace(c: char) {
    || ('\t' <= c <= '\r')
    || ('\U{1C}' <= c <= '\U{1F}')
    || c == ' ' || c == '\U{A0}' || c == '\U{1680}'
    || ('\U{2000}' <= c <= '\U{200A}')
    || c == '\U{2028}' || c == '\U{2029}' || c == '\U{202F}' || c == '\U{205F}' || c == '\U{3000}'
  }

  /** `CharSequence.isBlank()`: empty, or whitespace only. */
  predicate IsBlank(s: string) {
    forall i :: 0 <= i < |s| ==> IsWhitespace(s[i])
  }

  /** `doValidate`: a blank pattern first, then a regex that does not compile. */
  function Validate(pattern: string, matchType: string, engine: RegexEngine): Option<ValidationError> {
    if IsBlank(pattern) then Some(PatternEmpty)
    else if matchType == "regex" && !engine.compiles(pattern) then Some(InvalidRegex)
    else None
  }

  /** Validation passes exactly for a non-blank pattern that, when it is a regex,
      compiles; a blank pattern is reported as empty whatever its kind. */
  lemma ValidateSpec(pattern: string, matchType: string, engine: RegexEngine)
    ensures Validate(pattern, matchType, engine) == None <==>
              !IsBlank(pattern) && (matchType == "regex" ==> engine.compiles(pattern))
    ensures IsBlank(pattern) ==> Validate(pattern, matchType, engine) == Some(PatternEmpty)
    ensures Validate(pattern, matchType, engine) == Some(InvalidRegex) <==>
              !IsBlank(pattern) && matchType == "regex" && !engine.compiles(pattern)
  {
  }

  /** The empty pattern and a whitespace-only pattern are blank; a pattern with a
      letter is not. */
  lemma BlankExamples(engine: RegexEngine)
    ensures Validate("", "exact", engine) == Some(PatternEmpty)
    ensures Validate(" \t", "prefix", engine) == Some(PatternEmpty)
    ensures Validate(" main", "exact", engine) == None
  {
    assert !IsWhitespace(" main"[1]);
  }

  /** A rule that passed validation never meets a compile failure when a resolver
      evaluates it, so it is skipped only because it does not match. */
  lemma ValidatedRegexCompiles(pattern: string, matchType: string, engine: RegexEngine, branch: string)
    requires Validate(pattern, matchType, engine) == None && matchType == "regex"
    ensures Evaluate(engine, pattern, branch) != CompileError
    ensures Matches(matchType, pattern, branch, engine) <==> engine.fullMatch(pattern, branch)
  {
  }

  /** The style combo ("Default", "Solid", "Dashed") as `getResult` reads it: index 0
      is no style of its own, 1 solid, every other index dashed. */
  function StyleOfIndex(index: int): Option<BorderStyle> {
    if index == 0 then None else if index == 1 then Some(Solid) else Some(Dashed)
  }

  /** The index `loadRule` selects for a rule's style. */
  function IndexOfStyle(style: Option<BorderStyle>): int {
    match style
    case None => 0
    case Some(Solid) => 1
    case Some(Dashed) => 2
  }

  /** The style round-trips through the combo in both directions. */
  lemma StyleIndexRoundTrip(style: Option<BorderStyle>, index: int)
    ensures StyleOfIndex(IndexOfStyle(style)) == style
    ensures 0 <= index <= 2 ==> IndexOfStyle(StyleOfIndex(index)) == index
    ensures 0 <= IndexOfStyle(style) <= 2
  {
  }

  /** `updatePreview`'s style: index 0 shows the page's default style, 1 solid,
      every other index dashed. */
  function PreviewStyle(index: int, defaultStyle: BorderStyle): BorderStyle {
    if index == 0 then defaultStyle else if index == 1 then Solid else Dashed
  }

  /** The preview shows the style the service gives the resulting rule once it
      matches, when the dialog's default style is the settings' default style. */
  lemma PreviewShowsResolvedStyle(index: int, r: BranchRuleState, s: SettingsState)
    requires r.borderStyle == StyleOfIndex(index)
    ensures PreviewStyle(index, s.defaultBorderStyle) == Service.RuleSettings(r, s).style
  {
  }

  /** The combo's three match kinds. */
  predicate IsComboMatchType(matchType: string) {
    matchType == "exact" || matchType == "prefix" || matchType == "regex"
  }

  /** The widget values of the dialog. */
  datatype DialogFields = DialogFields(
    pattern: string,
    matchType: string,
    color: Option<Rgb>,
    styleIndex: int,
    blinking: bool)

  /** The widget values after `init`. A new rule starts empty, "exact", red, with
      the default style and no blinking. An edited rule shows its own values;
      selecting a match kind the combo does not list leaves "exact" selected. */
  function LoadedFields(rule: Option<BranchRuleState>, decode: string -> Option<Rgb>): DialogFields
    requires rule.Some? ==> decode(rule.value.color).Some?
  {
    match rule
    case None => DialogFields("", "exact", Some(0xFF0000), 0, false)
    case Some(r) =>
      DialogFields(r.pattern, if IsComboMatchType(r.matchType) then r.matchType else "exact",
                   decode(r.color), IndexOfStyle(r.borderStyle), r.blinking)
  }

  /** `getResult` of the widget values: the colour as `#%06X`, red when none is
      selected. */
  function ResultOf(f: DialogFields): BranchRuleState {
    BranchRuleState(f.pattern, f.matchType, FormatColor(f.color.GetOr(0xFF0000)),
                    StyleOfIndex(f.styleIndex), f.blinking)
  }

  /** The stored colour is "#" and six upper-case hex digits, and the service's
      colour parser reads it back as the colour that was selected (red if none). */
  lemma ResultColorParsesBack(f: DialogFields)
    ensures |ResultOf(f).color| == 7 && ResultOf(f).color[0] == '#'
    ensures forall i :: 1 <= i < 7 ==> IsUpperHexDigit(ResultOf(f).color[i])
    ensures ParseColor(ResultOf(f).color) == Some(f.color.GetOr(0xFF0000))
  {
    FormatColorRoundTrip(f.color.GetOr(0xFF0000));
  }

  /** Confirming an untouched add dialog yields `BranchRuleState()` with its default
      values, apart from the pattern the user still has to fill in. */
  lemma UntouchedAddDialogGivesDefaultRule(decode: string -> Option<Rgb>)
    ensures ResultOf(LoadedFields(None, decode)) == DefaultRule
  {
    RedLiteral();
  }

  /** Confirming an untouched edit dialog gives the edited rule back, when its match
      kind is one of the combo's and its colour is the canonical spelling of the
      colour it decodes to. */
  lemma UntouchedEditDialogKeepsRule(r: BranchRuleState, decode: string -> Option<Rgb>)
    requires IsComboMatchType(r.matchType)
    requires decode(r.color).Some? && FormatColor(decode(r.color).value) == r.color
    ensures ResultOf(LoadedFields(Some(r), decode)) == r
  {
    StyleIndexRoundTrip(r.borderStyle, 0);
  }

  class BranchRuleDialog {
    const defaultStyle: BorderStyle
    const title: string

    var pattern: string
    var matchType: string
    var color: Option<Rgb>
    var styleIndex: int
    var blinking: bool

    function Fields(): DialogFields
      reads this
    {
      DialogFields(pattern, matchType, color, styleIndex, blinking)
    }

    /** `init`: the title says whether a rule is added or edited, then `loadRule`.
        `Color.decode` throws out of the construction for a colour it rejects, so
        the edited rule's colour must decode. */
    constructor (rule: Option<BranchRuleState>, defaultStyle: BorderStyle, decode: string -> Option<Rgb>)
      requires rule.Some? ==> decode(rule.value.color).Some?
      ensures this.defaultStyle == defaultStyle
      ensures title == if rule.None? then "Add Branch Rule" else "Edit Branch Rule"
      ensures Fields() == LoadedFields(rule, decode)
    {
      this.defaultStyle := defaultStyle;
      title := if rule.None? then "Add Branch Rule" else "Edit Branch Rule";
      pattern := "";
      matchType := "exact";
      color := None;
      styleIndex := 0;
      blinking := false;
      new;
      LoadRule(rule, decode);
    }

    /** `loadRule`. */
    method LoadRule(rule: Option<BranchRuleState>, decode: string -> Option<Rgb>)
      requires rule.Some? ==> decode(rule.value.color).Some?
      modifies this
      ensures rule.Some? ==>
                var r := rule.value;
                Fields() == LoadedFields(rule, decode).(matchType := if IsComboMatchType(r.matchType) then r.matchType else old(matchType))
      ensures rule.None? ==> Fields() == old(Fields()).(color := Some(0xFF0000))
    {
      if rule.Some? {
        var r := rule.value;
        pattern := r.pattern;
        if IsComboMatchType(r.matchType) {
          matchType := r.matchType;
        }
        color := decode(r.color);
        styleIndex := match r.borderStyle
          case None => 0
          case Some(Solid) => 1
          case Some(Dashed) => 2;
        blinking := r.blinking;
      } else {
        color := Some(0xFF0000);
      }
    }

    /** `updatePreview`: the colour and style the preview panel is given. */
    method UpdatePreview() returns (previewColor: Rgb, previewStyle: BorderStyle)
      ensures previewColor == color.GetOr(0xFF0000)
      ensures previewStyle == StyleOfIndex(styleIndex).GetOr(defaultStyle)
    {
      previewColor := color.GetOr(0xFF0000);
      previewStyle := if styleIndex == 0 then defaultStyle else if styleIndex == 1 then Solid else Dashed;
    }

    /** `getResult`: the rule the dialog produces; its colour reads back as the
        selected one. */
    method GetResult() returns (r: BranchRuleState)
      ensures r == ResultOf(Fields())
      ensures ParseColor(r.color) == Some(color.GetOr(0xFF0000))
    {
      var rgb := color.GetOr(0xFF0000);
      var style := if styleIndex == 0 then None else if styleIndex == 1 then Some(Solid) else Some(Dashed);
      r := BranchRuleState(pattern, matchType, FormatColor(rgb), style, blinking);
      ResultColorParsesBack(Fields());
    }

    /** `doValidate`. */
    method DoValidate(engine: RegexEngine) returns (error: Option<ValidationError>)
      ensures error == Validate(pattern, matchType, engine)
      ensures error.None? <==> !IsBlank(pattern) && (matchType == "regex" ==> engine.compiles(pattern))
    {
      var blank := true;
      var i := 0;
      while i < |pattern|
        invariant 0 <= i <= |pattern|
        invariant blank <==> forall j :: 0 <= j < i ==> IsWhitespace(pattern[j])
      {
        if !IsWhitespace(pattern[i]) {
          blank := false;
        }
        i := i + 1;
      }
      if blank {
        return Some(PatternEmpty);
      }
      if matchType == "regex" && !engine.compiles(pattern) {
        return Some(InvalidRegex);
      }
      return None;
    }
  }

  /** Editing a red "main" rule and switching it to dashed gives a rule the service
      resolves as red and dashed. */
  method EditScenario(decode: string -> Option<Rgb>, engine: RegexEngine, s: SettingsState)
    requires decode("#FF0000") == Some(0xFF0000)
  {
    var rule := BranchRuleState("main", "exact", "#FF0000", None, false);
    var dialog := new BranchRuleDialog(Some(rule), s.defaultBorderStyle, decode);
    var error := dialog.DoValidate(engine);
    assert error.None? by { assert !IsWhitespace("main"[0]); }
    dialog.styleIndex := 2;
    var previewColor, style := dialog.UpdatePreview();
    var result := dialog.GetResult();
    assert result.borderStyle == Some(Dashed) && style == Dashed;
    assert Service.RuleSettings(result, s).color == Some(0xFF0000);
    assert Service.RuleSettings(result, s).style == Dashed;
  }
}
