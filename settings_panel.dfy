/** The settings page: `BranchRulesTableModel`, the editable rule list behind the
    rules table, and `BranchBorderSettingsPanel`, whose widget values are fields
    here. The rule dialog's outcome, the table's selected row, the chosen JSON file
    and `Color.decode` are inputs of the methods that use them. */
module SettingsPanel {
  import opened Common
  import opened Colors
  import opened Matching
  import opened Settings
  import ColorConfig
  import Service

  /** `MutableList.removeAt(i)` on a value: the element at `i` is gone and the later
      ones move down by one. */
  function RemoveAt<T>(s: seq<T>, i: nat): (r: seq<T>)
    requires i < |s|
    ensures |r| == |s| - 1
    ensures forall j :: 0 <= j < i ==> r[j] == s[j]
    ensures forall j :: i <= j < |r| ==> r[j] == s[j + 1]
  {
    s[..i] + s[i + 1..]
  }

  /** `MutableList.add(i, x)` on a value: `x` lands at `i` and the elements from `i`
      on move up by one. */
  function InsertAt<T>(s: seq<T>, i: nat, x: T): (r: seq<T>)
    requires i <= |s|
    ensures |r| == |s| + 1 && r[i] == x
    ensures forall j :: 0 <= j < i ==> r[j] == s[j]
    ensures forall j :: i < j < |r| ==> r[j] == s[j - 1]
  {
    s[..i] + [x] + s[i..]
  }

  /** `moveRule(from, to)`: remove the element at `from`, then insert it at `to` of
      the shortened list. */
  function Moved<T>(s: seq<T>, from: nat, to: nat): seq<T>
    requires from < |s| && to < |s|
  {
    InsertAt(RemoveAt(s, from), to, s[from])
  }

  /** `s` with the elements at `i` and `j` exchanged. */
  function Swapped<T>(s: seq<T>, i: nat, j: nat): (r: seq<T>)
    requires i < |s| && j < |s|
    ensures |r| == |s| && r[i] == s[j] && r[j] == s[i]
    ensures forall k :: 0 <= k < |s| && k != i && k != j ==> r[k] == s[k]
  {
    s[i := s[j]][j := s[i]]
  }

  /** Moving a rule keeps every rule: the same length and the same multiset, and the
      moved rule sits at `to`. */
  lemma MovedIsPermutation<T>(s: seq<T>, from: nat, to: nat)
    requires from < |s| && to < |s|
    ensures |Moved(s, from, to)| == |s|
    ensures Moved(s, from, to)[to] == s[from]
    ensures multiset(Moved(s, from, to)) == multiset(s)
  {
    var rest := RemoveAt(s, from);
    assert s == s[..from] + [s[from]] + s[from + 1..];
    assert multiset(s) == multiset(rest) + multiset{s[from]};
    assert Moved(s, from, to) == rest[..to] + [s[from]] + rest[to..];
    assert rest == rest[..to] + rest[to..];
  }

  /** A move by one row, in either direction, exchanges two neighbours. */
  lemma MoveToNeighbourIsSwap<T>(s: seq<T>, i: nat)
    requires i + 1 < |s|
    ensures Moved(s, i, i + 1) == Swapped(s, i, i + 1)
    ensures Moved(s, i + 1, i) == Swapped(s, i, i + 1)
  {
    var down, up, w := Moved(s, i, i + 1), Moved(s, i + 1, i), Swapped(s, i, i + 1);
    assert |down| == |w| && forall k :: 0 <= k < |s| ==> down[k] == w[k];
    assert |up| == |w| && forall k :: 0 <= k < |s| ==> up[k] == w[k];
  }

  /** The in-place rule list of the rules table. The `fireTable...` notifications
      only tell the view to redraw and are not modelled. */
  class BranchRulesTableModel {
    var rules: seq<BranchRuleState>

    constructor ()
      ensures rules == []
    {
      rules := [];
    }

    method RowCount() returns (n: nat)
      ensures n == |rules|
    {
      n := |rules|;
    }

    /** `addRule`: append at the end; the earlier rules stay where they were. */
    method AddRule(rule: BranchRuleState)
      modifies this
      ensures rules == old(rules) + [rule]
    {
      rules := rules + [rule];
    }

    /** `updateRule`: replace the rule at `index` and nothing else. */
    method UpdateRule(index: nat, rule: BranchRuleState)
      requires index < |rules|
      modifies this
      ensures rules == old(rules)[index := rule]
    {
      rules := rules[index := rule];
    }

    /** `removeRule`: delete the rule at `index`. */
    method RemoveRule(index: nat)
      requires index < |rules|
      modifies this
      ensures rules == RemoveAt(old(rules), index)
    {
      rules := RemoveAt(rules, index);
    }

    /** `moveRule`: `removeAt(from)`, then `add(to, rule)`. */
    method MoveRule(from: nat, to: nat)
      requires from < |rules| && to < |rules|
      modifies this
      ensures rules == Moved(old(rules), from, to)
    {
      var rule := rules[from];
      rules := RemoveAt(rules, from);
      rules := InsertAt(rules, to, rule);
    }

    method GetRule(index: nat) returns (rule: BranchRuleState)
      requires index < |rules|
      ensures rule == rules[index]
    {
      rule := rules[index];
    }

    /** `getRules`: a copy of every rule, in table order. A rule is a value, so the
        copy is equal to the original element by element. */
    method GetRules() returns (copy: seq<BranchRuleState>)
      ensures |copy| == |rules|
      ensures forall i :: 0 <= i < |rules| ==> copy[i] == rules[i]
    {
      copy := rules;
    }

    method Clear()
      modifies this
      ensures rules == []
    {
      rules := [];
    }
  }

  /** The index of the default style combo ("Solid", "Dashed") as a style: index 0
      is solid, every other index dashed. */
  function StyleOfComboIndex(index: int): BorderStyle {
    if index == 0 then Solid else Dashed
  }

  /** The combo index `loadSettings` selects for a style. */
  function ComboIndexOfStyle(style: BorderStyle): int {
    if style == Solid then 0 else 1
  }

  /** The default style survives a load into the combo and a read back, and so does
      each of the combo's two indices. */
  lemma ComboIndexRoundTrip(style: BorderStyle, index: int)
    ensures StyleOfComboIndex(ComboIndexOfStyle(style)) == style
    ensures index == 0 || index == 1 ==> ComboIndexOfStyle(StyleOfComboIndex(index)) == index
  {
  }

  /** The colour the panel stores: `#%06X` of the selected colour's 24 bits, orange
      when no colour is selected. */
  function StoredColor(selected: Option<Rgb>): string {
    FormatColor(selected.GetOr(0xFF6600))
  }

  /** The widget values of the panel. */
  datatype PanelFields = PanelFields(
    enabled: bool,
    borderWidth: int,
    blinkInterval: int,
    defaultColor: Option<Rgb>,
    defaultStyleIndex: int,
    defaultBlinking: bool,
    noBorderIfUnmatched: bool,
    rules: seq<BranchRuleState>)

  /** The settings `applySettings` writes from the widget values, and the values
      `isModified` compares the settings with. */
  function SettingsOf(f: PanelFields): SettingsState {
    SettingsState(f.enabled, f.borderWidth, f.blinkInterval, StoredColor(f.defaultColor),
                  StyleOfComboIndex(f.defaultStyleIndex), f.defaultBlinking, f.noBorderIfUnmatched, f.rules)
  }

  /** The widget values `loadSettings` sets from the settings: a colour that does
      not decode shows as orange. */
  function FieldsOf(s: SettingsState, decode: string -> Option<Rgb>): PanelFields {
    PanelFields(s.enabled, s.borderWidth, s.blinkInterval, Some(decode(s.defaultColor).GetOr(0xFF6600)),
                ComboIndexOfStyle(s.defaultBorderStyle), s.defaultBlinking, s.noBorderIfUnmatched, s.branchRules)
  }

  /** Right after `loadSettings`, the page is unmodified exactly when the stored
      colour string is the canonical `#%06X` spelling of the colour it decodes to
      (or of orange when it does not decode). */
  lemma LoadedPanelIsUnmodified(s: SettingsState, decode: string -> Option<Rgb>)
    ensures SettingsOf(FieldsOf(s, decode)) == s <==>
            FormatColor(decode(s.defaultColor).GetOr(0xFF6600)) == s.defaultColor
  {
    ComboIndexRoundTrip(s.defaultBorderStyle, 0);
  }

  /** Applying and then loading again gives back the same widget values, as long as
      a colour is selected, the style index is one of the combo's and `decode`
      reads the stored colour back. */
  lemma AppliedSettingsLoadBack(f: PanelFields, decode: string -> Option<Rgb>)
    requires f.defaultColor.Some? && (f.defaultStyleIndex == 0 || f.defaultStyleIndex == 1)
    requires decode(StoredColor(f.defaultColor)) == Some(f.defaultColor.value)
    ensures FieldsOf(SettingsOf(f), decode) == f
  {
    ComboIndexRoundTrip(Solid, f.defaultStyleIndex);
  }

  /** The outcome of the file chooser and of reading the chosen file with Gson: no
      file chosen, an exception while reading or parsing it, or the parsed data. */
  datatype ImportChoice = NoFileChosen | ReadFailed | Chosen(data: ColorConfig.BranchColorConfigData)

  /** Nothing happened, the error dialog was shown, or the info dialog was shown. */
  datatype ImportOutcome = NotImported | ImportFailed | Imported

  /** A rule of the file as the table stores it: no style of its own, and blinking
      only when the rule's own blink settings say so. */
  function ImportedRule(rule: ColorConfig.BranchRule): BranchRuleState {
    BranchRuleState(rule.pattern, rule.matchKind, rule.color, None,
                    rule.blinking.Some? && rule.blinking.value.enabled)
  }

  function ImportedRules(rules: seq<ColorConfig.BranchRule>): (r: seq<BranchRuleState>)
    ensures |r| == |rules|
    ensures forall i :: 0 <= i < |rules| ==> r[i] == ImportedRule(rules[i])
  {
    seq(|rules|, i requires 0 <= i < |rules| => ImportedRule(rules[i]))
  }

  /** The imported table picks the same rule for every branch as the file would,
      and that rule yields the file rule's colour, the default style, and the rule's
      own blink flag (a file-level default blink setting is not carried over into
      the rules). */
  lemma ImportedRulesResolveAlike(rules: seq<ColorConfig.BranchRule>, b: string, engine: RegexEngine, s: SettingsState)
    ensures FirstIndex(ImportedRules(rules), r => Service.RuleAccepts(r, b, engine)) ==
            FirstIndex(rules, r => ColorConfig.RuleAccepts(r, b, engine))
    ensures forall i :: 0 <= i < |rules| ==>
              Service.RuleSettings(ImportedRules(rules)[i], s) ==
              Service.BranchSettings(ParseColor(rules[i].color), s.defaultBorderStyle,
                                     rules[i].blinking.Some? && rules[i].blinking.value.enabled)
  {
    FirstIndexPointwise(ImportedRules(rules), r => Service.RuleAccepts(r, b, engine),
                        rules, r => ColorConfig.RuleAccepts(r, b, engine));
  }

  class BranchBorderSettingsPanel {
    const settings: BranchBorderSettings
    const table: BranchRulesTableModel

    var enabled: bool
    var borderWidth: int
    var blinkInterval: int
    var defaultColor: Option<Rgb>
    var defaultStyleIndex: int
    var defaultBlinking: bool
    var noBorderIfUnmatched: bool

    function Fields(): PanelFields
      reads this, table
    {
      PanelFields(enabled, borderWidth, blinkInterval, defaultColor, defaultStyleIndex,
                  defaultBlinking, noBorderIfUnmatched, table.rules)
    }

    /** The `init` block: an empty table, then `loadSettings`. */
    constructor (settings: BranchBorderSettings, decode: string -> Option<Rgb>)
      ensures this.settings == settings && fresh(table)
      ensures Fields() == FieldsOf(settings.State(), decode)
    {
      this.settings := settings;
      table := new BranchRulesTableModel();
      new;
      LoadSettings(decode);
    }

    /** `addRule`: a confirmed dialog appends its result; a cancelled one changes
        nothing. */
    method AddRule(dialogResult: Option<BranchRuleState>)
      modifies table
      ensures dialogResult.Some? ==> table.rules == old(table.rules) + [dialogResult.value]
      ensures dialogResult.None? ==> table.rules == old(table.rules)
    {
      if dialogResult.Some? {
        table.AddRule(dialogResult.value);
      }
    }

    /** `editRule`: with a row selected (`selectedRow` is -1 when none is), a
        confirmed dialog replaces that row. */
    method EditRule(selectedRow: int, dialogResult: Option<BranchRuleState>)
      requires -1 <= selectedRow < |table.rules|
      modifies table
      ensures selectedRow >= 0 && dialogResult.Some? ==>
                table.rules == old(table.rules)[selectedRow := dialogResult.value]
      ensures !(selectedRow >= 0 && dialogResult.Some?) ==> table.rules == old(table.rules)
    {
      if selectedRow >= 0 && dialogResult.Some? {
        table.UpdateRule(selectedRow, dialogResult.value);
      }
    }

    method RemoveRule(selectedRow: int)
      requires -1 <= selectedRow < |table.rules|
      modifies table
      ensures selectedRow >= 0 ==> table.rules == RemoveAt(old(table.rules), selectedRow)
      ensures selectedRow < 0 ==> table.rules == old(table.rules)
    {
      if selectedRow >= 0 {
        table.RemoveRule(selectedRow);
      }
    }

    /** `moveRuleUp`: acts only below the first row; the selected rule swaps with the
        one above it and the selection follows it. */
    method MoveRuleUp(selectedRow: int) returns (selection: int)
      requires -1 <= selectedRow < |table.rules|
      modifies table
      ensures selectedRow > 0 ==>
                table.rules == Swapped(old(table.rules), selectedRow - 1, selectedRow) &&
                selection == selectedRow - 1 && table.rules[selection] == old(table.rules)[selectedRow]
      ensures selectedRow <= 0 ==> table.rules == old(table.rules) && selection == selectedRow
      ensures multiset(table.rules) == multiset(old(table.rules))
    {
      selection := selectedRow;
      if selectedRow > 0 {
        MoveToNeighbourIsSwap(table.rules, selectedRow - 1);
        MovedIsPermutation(table.rules, selectedRow, selectedRow - 1);
        table.MoveRule(selectedRow, selectedRow - 1);
        selection := selectedRow - 1;
      }
    }

    /** `moveRuleDown`: acts only above the last row; the selected rule swaps with the
        one below it and the selection follows it. */
    method MoveRuleDown(selectedRow: int) returns (selection: int)
      requires -1 <= selectedRow < |table.rules|
      modifies table
      ensures 0 <= selectedRow < |old(table.rules)| - 1 ==>
                table.rules == Swapped(old(table.rules), selectedRow, selectedRow + 1) &&
                selection == selectedRow + 1 && table.rules[selection] == old(table.rules)[selectedRow]
      ensures !(0 <= selectedRow < |old(table.rules)| - 1) ==>
                table.rules == old(table.rules) && selection == selectedRow
      ensures multiset(table.rules) == multiset(old(table.rules))
    {
      selection := selectedRow;
      var rowCount := table.RowCount();
      if selectedRow >= 0 && selectedRow < rowCount - 1 {
        MoveToNeighbourIsSwap(table.rules, selectedRow);
        MovedIsPermutation(table.rules, selectedRow, selectedRow + 1);
        table.MoveRule(selectedRow, selectedRow + 1);
        selection := selectedRow + 1;
      }
    }

    /** `getDefaultStyle`: the style a new or edited rule's preview falls back to. */
    method GetDefaultStyle() returns (style: BorderStyle)
      ensures style == StyleOfComboIndex(defaultStyleIndex)
      ensures style == Solid <==> defaultStyleIndex == 0
    {
      style := if defaultStyleIndex == 0 then Solid else Dashed;
    }

    /** `importFromJson`. The width is clamped and set first; a default colour that
        `Color.decode` rejects then ends the import with the error dialog, leaving
        the width changed and everything else as it was. Otherwise the blink
        settings are taken over when present (the interval clamped), and the table is
        replaced by the file's rules in file order. */
    method ImportFromJson(choice: ImportChoice, decode: string -> Option<Rgb>) returns (outcome: ImportOutcome)
      modifies this, table
      ensures enabled == old(enabled) && noBorderIfUnmatched == old(noBorderIfUnmatched)
      ensures defaultStyleIndex == old(defaultStyleIndex)
      ensures choice.NoFileChosen? ==> outcome == NotImported && Fields() == old(Fields())
      ensures choice.ReadFailed? ==> outcome == ImportFailed && Fields() == old(Fields())
      ensures choice.Chosen? ==> borderWidth == CoerceIn(choice.data.borderWidth, 1, 20) && 1 <= borderWidth <= 20
      ensures choice.Chosen? && choice.data.defaultColor.Some? && decode(choice.data.defaultColor.value).None? ==>
                outcome == ImportFailed && defaultColor == old(defaultColor) &&
                blinkInterval == old(blinkInterval) && defaultBlinking == old(defaultBlinking) &&
                table.rules == old(table.rules)
      ensures outcome == Imported <==>
                choice.Chosen? &&
                (choice.data.defaultColor.Some? ==> decode(choice.data.defaultColor.value).Some?)
      ensures outcome == Imported ==>
                var data := choice.data;
                && table.rules == ImportedRules(data.branches)
                && (data.defaultColor.Some? ==> defaultColor == decode(data.defaultColor.value))
                && (data.defaultColor.None? ==> defaultColor == old(defaultColor))
                && (data.blinking.Some? ==> defaultBlinking == data.blinking.value.enabled &&
                                            blinkInterval == CoerceIn(data.blinking.value.interval, 100, 5000))
                && (data.blinking.None? ==> defaultBlinking == old(defaultBlinking) &&
                                            blinkInterval == old(blinkInterval))
    {
      if choice.NoFileChosen? {
        return NotImported;
      }
      if choice.ReadFailed? {
        return ImportFailed;
      }
      var data := choice.data;

      borderWidth := CoerceIn(data.borderWidth, 1, 20);
      if data.defaultColor.Some? {
        var decoded := decode(data.defaultColor.value);
        if decoded.None? {
          return ImportFailed;
        }
        defaultColor := decoded;
      }
      if data.blinking.Some? {
        defaultBlinking := data.blinking.value.enabled;
        blinkInterval := CoerceIn(data.blinking.value.interval, 100, 5000);
      }

      table.Clear();
      var i := 0;
      while i < |data.branches|
        modifies table
        invariant 0 <= i <= |data.branches|
        invariant |table.rules| == i
        invariant forall j :: 0 <= j < i ==> table.rules[j] == ImportedRule(data.branches[j])
      {
        table.AddRule(ImportedRule(data.branches[i]));
        i := i + 1;
      }
      return Imported;
    }

    /** `loadSettings`: every widget takes the stored value; a stored colour that
        does not decode shows as orange; the table gets a copy of every rule. */
    method LoadSettings(decode: string -> Option<Rgb>)
      modifies this, table
      ensures Fields() == FieldsOf(settings.State(), decode)
    {
      enabled := settings.enabled;
      borderWidth := settings.borderWidth;
      blinkInterval := settings.blinkInterval;
      var decoded := decode(settings.defaultColor);
      defaultColor := if decoded.Some? then decoded else Some(0xFF6600);
      defaultStyleIndex := if settings.defaultBorderStyle == Solid then 0 else 1;
      defaultBlinking := settings.defaultBlinking;
      noBorderIfUnmatched := settings.noBorderIfUnmatched;

      table.Clear();
      var i := 0;
      while i < |settings.branchRules|
        modifies table
        invariant 0 <= i <= |settings.branchRules|
        invariant table.rules == settings.branchRules[..i]
      {
        table.AddRule(settings.branchRules[i]);
        i := i + 1;
      }
    }

    /** `applySettings`: the settings take every widget value; the page is then not
        modified. */
    method ApplySettings()
      modifies settings
      ensures settings.State() == SettingsOf(Fields())
    {
      settings.enabled := enabled;
      settings.borderWidth := borderWidth;
      settings.blinkInterval := blinkInterval;
      settings.defaultColor := FormatColor(defaultColor.GetOr(0xFF6600));
      settings.defaultBorderStyle := if defaultStyleIndex == 0 then Solid else Dashed;
      settings.defaultBlinking := defaultBlinking;
      settings.noBorderIfUnmatched := noBorderIfUnmatched;
      var copy := table.GetRules();
      settings.branchRules := copy;
    }

    /** `isModified`: true exactly when applying now would change the settings. The
        rules are compared by length, then element by element in order. */
    method IsModified() returns (modified: bool)
      ensures modified <==> SettingsOf(Fields()) != settings.State()
    {
      if enabled != settings.enabled { return true; }
      if borderWidth != settings.borderWidth { return true; }
      if blinkInterval != settings.blinkInterval { return true; }
      var currentColor := FormatColor(defaultColor.GetOr(0xFF6600));
      if currentColor != settings.defaultColor { return true; }
      var currentStyle := if defaultStyleIndex == 0 then Solid else Dashed;
      if currentStyle != settings.defaultBorderStyle { return true; }
      if defaultBlinking != settings.defaultBlinking { return true; }
      if noBorderIfUnmatched != settings.noBorderIfUnmatched { return true; }

      var currentRules := table.GetRules();
      if |currentRules| != |settings.branchRules| { return true; }
      var i := 0;
      while i < |currentRules|
        invariant 0 <= i <= |currentRules|
        invariant forall j :: 0 <= j < i ==> currentRules[j] == settings.branchRules[j]
      {
        if currentRules[i] != settings.branchRules[i] {
          assert table.rules[i] != settings.branchRules[i];
          return true;
        }
        i := i + 1;
      }
      assert table.rules == settings.branchRules;
      return false;
    }
  }

  /** Apply, then ask: the page reports no modification; a rule moved afterwards
      makes it modified again unless the two rows were equal. */
  method ApplyThenMove(settings: BranchBorderSettings, decode: string -> Option<Rgb>, a: BranchRuleState, b: BranchRuleState)
    requires a != b
    modifies settings
  {
    var panel := new BranchBorderSettingsPanel(settings, decode);
    panel.table.Clear();
    panel.AddRule(Some(a));
    panel.AddRule(Some(b));
    panel.ApplySettings();
    var modified := panel.IsModified();
    assert !modified;
    var selection := panel.MoveRuleDown(0);
    assert selection == 1 && panel.table.rules == [b, a];
    modified := panel.IsModified();
    assert modified by { assert panel.Fields().rules != settings.branchRules; }
    selection := panel.MoveRuleDown(1);
    assert selection == 1 && panel.table.rules == [b, a];
  }
}
