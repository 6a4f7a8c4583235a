# Branch border — a Dafny model

A model of the core of the "branch border" IDE plugin. The plugin draws a coloured
frame around the project window. The colour, style and blinking depend on the
checked-out git branch, chosen by an ordered list of user rules. What the model covers:

- **Two settings sources and their resolvers.** The persisted settings
  (`BranchBorderSettings`) are resolved by `BranchBorderService`. The optional file
  `.branch-colors.json` is resolved by `BranchColorConfig`. Both are a first-match-wins
  scan over "exact", "prefix" and "regex" rules.
- **Colours.** `parseColor` reads a colour string, and `"#%06X"` formats a colour
  for storage.
- **The painter.** `BorderPainter` holds the current border and runs the blink
  state machine.
- **The settings page.** This is the editable rule table (`BranchRulesTableModel`),
  its JSON import and its "modified" check.
- **The rule dialog.** It validates a rule and maps styles to and from its combo box.
- **The git listener.** `GitBranchListener` reports branch changes without repeats.
- **The file watcher.** `ConfigFileWatcher` calls back at most once per batch of
  file events.

Files, one module each:

| file | module | models |
|---|---|---|
| `common.dfy` | `Common` | Kotlin nullables, `coerceIn`, and the first-match scan both resolvers share |
| `colors.dfy` | `Colors` | `parseColor` and the `#%06X` formatting, with their round trip |
| `matching.dfy` | `Matching` | the three match kinds, with the regular-expression engine as a parameter |
| `settings.dfy` | `Settings` | `BorderStyle`, `BranchRuleState`, and the persisted bean |
| `service.dfy` | `Service` | the settings-based resolver and `BranchBorderService` |
| `painter.dfy` | `Painter` | `BorderPainter` |
| `color_config.dfy` | `ColorConfig` | the file-based configuration `BranchColorConfig` |
| `settings_panel.dfy` | `SettingsPanel` | `BranchRulesTableModel` and `BranchBorderSettingsPanel` |
| `rule_dialog.dfy` | `RuleDialog` | `BranchRuleDialog` |
| `git_listener.dfy` | `GitListener` | `GitBranchListener` |
| `file_watcher.dfy` | `FileWatcher` | `ConfigFileWatcher` |

## Modelling choices

- **Stateful objects are classes.** Their `var` fields match the source's, with
  `modifies` frames. Values the source only copies (`BranchRuleState`, the JSON data
  classes) are datatypes.
- **Regular expressions.** The engine is a `RegexEngine` value with two functions:
  "does this pattern compile" and "does the compiled pattern match the whole input".
  `Evaluate` turns these into three outcomes: full match, no match, compile error.
- **Colours.** A colour is a 24-bit integer, `Rgb`.
  - `ParseColor` follows Kotlin's `removePrefix("#")` and then
    `String.toInt(16)`, which on the JVM is `Integer.parseInt(s, 16)`. That accepts an
    optional sign, at least one hex digit and the signed 32-bit range.
  - The result then goes through `Color(int)`, which keeps the low 24 bits (two's
    complement for negative values).
  - `Color.decode`, which the settings page and the rule dialog use, is a
    different parser (it also accepts `0x` and octal). It is a `decode` parameter of
    the methods that call it.
- **The blink timer.** The Swing timer is a handle `BlinkTimer(id, delay)`, with a
  fresh id for every timer the painter creates. `BorderPainter.Tick(t)` is one firing
  of timer `t`. A stopped timer fires no more, so a tick from any handle but the live
  one changes nothing.
- **The repaint callback.** It is a flag saying whether one is set, plus a count of
  its invocations.
- **Other callbacks are logs or counters.** The branch listener records the list of
  branches it reported. The file watcher counts its callbacks.
- **I/O results are inputs.** These are:
  - the file chooser and Gson (`ImportChoice`, `ConfigFile`);
  - the repositories (`seq<GitRepository>`);
  - the project base path;
  - the rule dialog's outcome;
  - the table's selected row.

Where the plugin's documented behaviour and its code differ, the model follows
the code:

- A rule in the persisted settings has no blink interval of its own. The interval
  (like the width) always comes from the global settings.
- The blink flag of a matched settings rule is the rule's own flag; it does not
  fall back to the default.
- The JSON import on the settings page is not atomic. The clamped width is set
  before the default colour is decoded, so an import whose colour `Color.decode`
  rejects ends with the error dialog and the width already changed.

## Model

| member | source | states |
|---|---|---|
| Common.CoerceIn | src/main/kotlin/com/vladimirbiro/branchborder/BranchColorConfig.kt:52 | the result lies in [lo, hi], equals the input inside the range and the nearer bound outside it |
| Common.FirstIndex | src/main/kotlin/com/vladimirbiro/branchborder/BranchBorderService.kt:100-124 | the found index is in range and accepted with every earlier element rejected; no index exactly when every element is rejected |
| Common.FirstIndexIsUnique | src/main/kotlin/com/vladimirbiro/branchborder/BranchBorderService.kt:100-121 | an accepted element whose predecessors are all rejected is the one the scan returns |
| Colors.ParseColor | src/main/kotlin/com/vladimirbiro/branchborder/BranchBorderService.kt:139-147 | a colour needs at least one character after the optional "#"; ParseColorReadsHex, ParseColorReadsSigned and ParseColorRejects give its value or its rejection for every input |
| Colors.ParseHexInt | src/main/kotlin/com/vladimirbiro/branchborder/BranchBorderService.kt:142 | digits read as their hex value and a leading "-" or "+" as the signed value, each only when it fits the signed 32-bit range; any other character, a lone sign or an empty string is rejected |
| Colors.RemovePrefix | src/main/kotlin/com/vladimirbiro/branchborder/BranchBorderService.kt:141 | with the prefix present the input is prefix plus result; otherwise the input is unchanged |
| Colors.HexValue | src/main/kotlin/com/vladimirbiro/branchborder/BranchBorderService.kt:142 | the value of a run of hex digits; HexValueOfDigits states that it inverts HexDigits |
| Colors.HexDigits | src/main/kotlin/com/vladimirbiro/branchborder/settings/BranchRuleDialog.kt:118 | exactly n upper-case hex digits; HexValueOfDigits states that they read back as the value modulo 16^n |
| Colors.FormatColor | src/main/kotlin/com/vladimirbiro/branchborder/settings/BranchRuleDialog.kt:118 | the text is "#" followed by exactly six upper-case hex digits |
| Colors.HexValueOfDigits | src/main/kotlin/com/vladimirbiro/branchborder/settings/BranchRuleDialog.kt:118 | reading back n printed hex digits gives the value modulo 16^n |
| Colors.FormatColorRoundTrip | src/main/kotlin/com/vladimirbiro/branchborder/settings/BranchRuleDialog.kt:118 | `parseColor` of the formatted colour is the same 24-bit colour |
| Colors.ParseColorReadsHex | src/main/kotlin/com/vladimirbiro/branchborder/BranchBorderService.kt:139-147 | any non-empty run of hex digits, with or without "#", reads as its value reduced to 24 bits when that value fits a signed 32-bit `Int` |
| Colors.ParseColorReadsSigned | src/main/kotlin/com/vladimirbiro/branchborder/BranchBorderService.kt:139-147 | a "-" or "+" followed by hex digits, with or without "#", reads as the signed value in two's complement reduced to 24 bits when it fits a signed 32-bit `Int` |
| Colors.ParseColorRejects | src/main/kotlin/com/vladimirbiro/branchborder/BranchBorderService.kt:139-147 | empty text, a lone "#", a lone "-" or "+" with or without "#", a non-hex character after the optional "#" (a sign counts only in front), and an unsigned or signed value beyond the signed 32-bit range give no colour instead of an exception |
| Colors.ParseColorDropsTopByte | src/main/kotlin/com/vladimirbiro/branchborder/BranchBorderService.kt:142 | eight digits keep only the low 24 bits |
| Colors.ParseColorNegative | src/main/kotlin/com/vladimirbiro/branchborder/BranchBorderService.kt:142 | a negative number is taken in two's complement ("-1" is white) |
| Colors.ParseColorOverflow | src/main/kotlin/com/vladimirbiro/branchborder/BranchBorderService.kt:140-146 | a value beyond the signed 32-bit range ("#FFFFFFFF") gives no colour |
| Colors.ParseColorLowerCase | src/main/kotlin/com/vladimirbiro/branchborder/BranchBorderService.kt:142 | lower-case digits read like upper-case ones |
| Colors.OrangeLiteral | src/main/kotlin/com/vladimirbiro/branchborder/settings/BranchBorderSettings.kt:30 | the default colour "#FF6600" is the canonical spelling of 0xFF6600 and parses to it |
| Colors.RedLiteral | src/main/kotlin/com/vladimirbiro/branchborder/settings/BranchBorderSettings.kt:14 | the rule default "#FF0000" is the canonical spelling of 0xFF0000 and parses to it |
| Matching.Evaluate | src/main/kotlin/com/vladimirbiro/branchborder/BranchBorderService.kt:104-111 | a compile error exactly when the pattern does not compile; a full match exactly when it compiles and matches |
| Matching.Matches | src/main/kotlin/com/vladimirbiro/branchborder/BranchBorderService.kt:101-113 | the `when (rule.matchType)` of both resolvers; MatchKinds and BrokenRegexNeverMatches state what each kind accepts |
| Matching.MatchKinds | src/main/kotlin/com/vladimirbiro/branchborder/BranchBorderService.kt:101-113 | "exact" is equality, "prefix" is `startsWith`, "regex" is a compiled full match, any other kind never matches |
| Matching.BrokenRegexNeverMatches | src/main/kotlin/com/vladimirbiro/branchborder/BranchBorderService.kt:104-111 | a regex that does not compile matches no branch |
| Matching.MatchExamples | src/main/kotlin/com/vladimirbiro/branchborder/BranchBorderService.kt:101-103 | "main" matches "main" exactly but not "main2"; "release/1.0" starts with "release/" but "rel" does not |
| Settings.BranchBorderSettings.constructor | src/main/kotlin/com/vladimirbiro/branchborder/settings/BranchBorderSettings.kt:26-35 | enabled, width 4, interval 500, "#FF6600", solid, no blinking, border when unmatched, no rules |
| Settings.BranchBorderSettings.GetState | src/main/kotlin/com/vladimirbiro/branchborder/settings/BranchBorderSettings.kt:37 | the component is its own state |
| Settings.BranchBorderSettings.LoadState | src/main/kotlin/com/vladimirbiro/branchborder/settings/BranchBorderSettings.kt:39-41 | every field takes the incoming bean's value; the incoming bean is unchanged |
| Service.RuleAccepts | src/main/kotlin/com/vladimirbiro/branchborder/BranchBorderService.kt:101-112 | whether a settings rule accepts a branch; MatchKinds states each kind |
| Service.DefaultSettings | src/main/kotlin/com/vladimirbiro/branchborder/BranchBorderService.kt:127-137 | `getDefaultSettings`; DefaultSettingsSpec states its colour, style and blink flag in both cases |
| Service.RuleSettings | src/main/kotlin/com/vladimirbiro/branchborder/BranchBorderService.kt:115-120 | what a matched rule gives; FirstAcceptingRuleWins states it as the rule's parsed colour, its style or the default, and its own blink flag |
| Service.SettingsForBranch | src/main/kotlin/com/vladimirbiro/branchborder/BranchBorderService.kt:95-125 | `getSettingsForBranch` as a value; AbsentBranchIsDefault, FirstAcceptingRuleWins, ResultComesFromFirstMatch, UnmatchedIsDefault and NonMatchingRuleIsSkipped characterise it |
| Service.DefaultSettingsSpec | src/main/kotlin/com/vladimirbiro/branchborder/BranchBorderService.kt:127-137 | with `noBorderIfUnmatched` no colour and no blinking, otherwise the parsed default colour and default blink flag; always the default style |
| Service.AbsentBranchIsDefault | src/main/kotlin/com/vladimirbiro/branchborder/BranchBorderService.kt:95-98 | no branch resolves to exactly the defaults |
| Service.FirstAcceptingRuleWins | src/main/kotlin/com/vladimirbiro/branchborder/BranchBorderService.kt:100-121 | the first accepting rule decides: its parsed colour, its style or the default one, its own blink flag |
| Service.ResultComesFromFirstMatch | src/main/kotlin/com/vladimirbiro/branchborder/BranchBorderService.kt:100-121 | a result other than the defaults comes from a rule that accepts the branch while every earlier rule rejects it |
| Service.UnmatchedIsDefault | src/main/kotlin/com/vladimirbiro/branchborder/BranchBorderService.kt:122-124 | when no rule accepts, the defaults; no border with `noBorderIfUnmatched`, else the parsed default colour |
| Service.NonMatchingRuleIsSkipped | src/main/kotlin/com/vladimirbiro/branchborder/BranchBorderService.kt:104-112 | a non-compiling regex rule or an unknown kind in front of the list changes no resolution |
| Service.DefaultSettingsShowOrange | src/main/kotlin/com/vladimirbiro/branchborder/BranchBorderService.kt:127-137 | the initial settings give a steady solid orange border |
| Service.BranchBorderService.constructor | src/main/kotlin/com/vladimirbiro/branchborder/BranchBorderService.kt:20-25 | no current branch yet; the settings, the engine and the painter (none when `setupPainter` could not install one) are the ones given |
| Service.BranchBorderService.GetSettingsForBranch | src/main/kotlin/com/vladimirbiro/branchborder/BranchBorderService.kt:95-125 | the loop returns the resolver's value for the current settings |
| Service.BranchBorderService.UpdateBorder | src/main/kotlin/com/vladimirbiro/branchborder/BranchBorderService.kt:65-87 | disabled: no colour at the global width; enabled: the resolved colour, style and blinking at the global width and interval; the timer survives a re-resolve at the same interval |
| Service.BranchBorderService.OnBranchChanged | src/main/kotlin/com/vladimirbiro/branchborder/BranchBorderService.kt:33-36 | the branch is remembered and the painter shows its resolution |
| Service.BranchBorderService.OnSettingsChanged | src/main/kotlin/com/vladimirbiro/branchborder/BranchBorderService.kt:149-152 | the painter shows the resolution of the current branch under the new settings |
| Service.BranchBorderService.Dispose | src/main/kotlin/com/vladimirbiro/branchborder/BranchBorderService.kt:154-158 | the painter reference is dropped, so later updates do nothing |
| Painter.BorderPainter.constructor | src/main/kotlin/com/vladimirbiro/branchborder/BorderPainter.kt:14-22 | no colour, width 4, solid, not blinking at 500 ms, visible, no timer, no callback |
| Painter.BorderPainter.NeedsRepaint | src/main/kotlin/com/vladimirbiro/branchborder/BorderPainter.kt:24 | true exactly when there is a colour |
| Painter.BorderPainter.ExecutePaint | src/main/kotlin/com/vladimirbiro/branchborder/BorderPainter.kt:26-40 | a border is drawn exactly when there is a colour and not in the hidden half of a blink, with the current colour, width and style |
| Painter.BorderPainter.SetRepaintCallback | src/main/kotlin/com/vladimirbiro/branchborder/BorderPainter.kt:78-80 | a callback is set and nothing else changes |
| Painter.BorderPainter.UpdateBorder | src/main/kotlin/com/vladimirbiro/branchborder/BorderPainter.kt:82-102 | width, colour and style are the arguments; blinking exactly when asked and coloured; same interval keeps timer and phase, a new interval gets a fresh timer, otherwise no timer and visible |
| Painter.BorderPainter.StartBlinking | src/main/kotlin/com/vladimirbiro/branchborder/BorderPainter.kt:104-116 | a new timer at the interval replaces any old one; blinking, visible |
| Painter.BorderPainter.StopBlinking | src/main/kotlin/com/vladimirbiro/branchborder/BorderPainter.kt:118-123 | no timer, not blinking, visible; the border is untouched, so a second call changes nothing |
| Painter.BorderPainter.Tick | src/main/kotlin/com/vladimirbiro/branchborder/BorderPainter.kt:111-114 | the live timer flips visibility and invokes the callback once if set; any other handle changes nothing |
| Painter.BorderPainter.Dispose | src/main/kotlin/com/vladimirbiro/branchborder/BorderPainter.kt:125-128 | blinking stops and the callback is cleared, so no later tick requests a repaint |
| ColorConfig.NewBranchRule | src/main/kotlin/com/vladimirbiro/branchborder/BranchColorConfig.kt:15-20 | a rule built from pattern and colour is "exact" with no blink settings |
| ColorConfig.Loaded | src/main/kotlin/com/vladimirbiro/branchborder/BranchColorConfig.kt:52-55 | the width is clamped into [1, 20]; the default colour is parsed when present; blink settings and rules are taken as they are |
| ColorConfig.RuleAccepts | src/main/kotlin/com/vladimirbiro/branchborder/BranchColorConfig.kt:80-92 | whether a file rule accepts a branch; MatchKinds states each kind |
| ColorConfig.RuleSettings | src/main/kotlin/com/vladimirbiro/branchborder/BranchColorConfig.kt:94-96 | what a matched file rule gives; FirstAcceptingRuleWins states it as the rule's parsed colour and its own blink settings or else the defaults |
| ColorConfig.ConfigSettingsFor | src/main/kotlin/com/vladimirbiro/branchborder/BranchColorConfig.kt:74-101 | `getSettingsForBranch` as a value; DefaultsWhenUnmatched and FirstAcceptingRuleWins characterise it |
| ColorConfig.DefaultsWhenUnmatched | src/main/kotlin/com/vladimirbiro/branchborder/BranchColorConfig.kt:74-101 | no branch, or no accepting rule, gives the loaded default colour and blink settings |
| ColorConfig.FirstAcceptingRuleWins | src/main/kotlin/com/vladimirbiro/branchborder/BranchColorConfig.kt:79-97 | the first accepting rule gives its parsed colour, and its own blink settings or else the default ones |
| ColorConfig.EmptyFileDrawsNothing | src/main/kotlin/com/vladimirbiro/branchborder/BranchColorConfig.kt:22-28 | a file with only defaults gives no colour and no blinking on every branch |
| ColorConfig.ExampleMainBlinks | src/main/kotlin/com/vladimirbiro/branchborder/BranchColorConfig.kt:94-96 | a matched rule's own blink settings override the default ones |
| ColorConfig.ExampleFeatureFallsThrough | src/main/kotlin/com/vladimirbiro/branchborder/BranchColorConfig.kt:79-98 | a branch rejected by an exact and a prefix rule takes a later regex rule, with the default blink settings |
| ColorConfig.BranchColorConfig.constructor | src/main/kotlin/com/vladimirbiro/branchborder/BranchColorConfig.kt:35-41 | width 4, no default colour, no blink settings, no rules |
| ColorConfig.BranchColorConfig.LoadConfig | src/main/kotlin/com/vladimirbiro/branchborder/BranchColorConfig.kt:45-63 | true exactly for a parsed file, then the loaded fields; a missing or unparsable file keeps the previous configuration; the width stays in [1, 20] |
| ColorConfig.BranchColorConfig.GetSettingsForBranch | src/main/kotlin/com/vladimirbiro/branchborder/BranchColorConfig.kt:74-101 | the loop returns the file resolver's value for the loaded configuration |
| ColorConfig.BranchColorConfig.GetColorForBranch | src/main/kotlin/com/vladimirbiro/branchborder/BranchColorConfig.kt:103-105 | the colour part of the resolution |
| SettingsPanel.RemoveAt | src/main/kotlin/com/vladimirbiro/branchborder/settings/BranchBorderSettingsPanel.kt:302 | one shorter; earlier elements stay, later ones move down by one |
| SettingsPanel.InsertAt | src/main/kotlin/com/vladimirbiro/branchborder/settings/BranchBorderSettingsPanel.kt:308 | one longer, the element at the index; earlier elements stay, later ones move up by one |
| SettingsPanel.Moved | src/main/kotlin/com/vladimirbiro/branchborder/settings/BranchBorderSettingsPanel.kt:306-310 | `moveRule` on a value; MovedIsPermutation and MoveToNeighbourIsSwap state that it keeps every rule and that a one-row move is a swap |
| SettingsPanel.MovedIsPermutation | src/main/kotlin/com/vladimirbiro/branchborder/settings/BranchBorderSettingsPanel.kt:306-310 | a move keeps the length and the multiset of rules and puts the moved rule at the target |
| SettingsPanel.MoveToNeighbourIsSwap | src/main/kotlin/com/vladimirbiro/branchborder/settings/BranchBorderSettingsPanel.kt:146-160 | a move by one row, up or down, exchanges the two neighbours |
| SettingsPanel.BranchRulesTableModel.constructor | src/main/kotlin/com/vladimirbiro/branchborder/settings/BranchBorderSettingsPanel.kt:266 | the table starts empty |
| SettingsPanel.BranchRulesTableModel.RowCount | src/main/kotlin/com/vladimirbiro/branchborder/settings/BranchBorderSettingsPanel.kt:268 | the number of rules |
| SettingsPanel.BranchRulesTableModel.AddRule | src/main/kotlin/com/vladimirbiro/branchborder/settings/BranchBorderSettingsPanel.kt:291-294 | the rule is appended, the earlier ones unchanged |
| SettingsPanel.BranchRulesTableModel.UpdateRule | src/main/kotlin/com/vladimirbiro/branchborder/settings/BranchBorderSettingsPanel.kt:296-299 | only the rule at the index is replaced |
| SettingsPanel.BranchRulesTableModel.RemoveRule | src/main/kotlin/com/vladimirbiro/branchborder/settings/BranchBorderSettingsPanel.kt:301-304 | the rule at the index is removed and later ones shift down |
| SettingsPanel.BranchRulesTableModel.MoveRule | src/main/kotlin/com/vladimirbiro/branchborder/settings/BranchBorderSettingsPanel.kt:306-310 | remove at `from`, insert at `to` |
| SettingsPanel.BranchRulesTableModel.GetRule | src/main/kotlin/com/vladimirbiro/branchborder/settings/BranchBorderSettingsPanel.kt:312 | the rule at the index |
| SettingsPanel.BranchRulesTableModel.GetRules | src/main/kotlin/com/vladimirbiro/branchborder/settings/BranchBorderSettingsPanel.kt:314 | a copy equal element by element, in table order |
| SettingsPanel.BranchRulesTableModel.Clear | src/main/kotlin/com/vladimirbiro/branchborder/settings/BranchBorderSettingsPanel.kt:316-322 | the table is empty |
| SettingsPanel.StyleOfComboIndex | src/main/kotlin/com/vladimirbiro/branchborder/settings/BranchBorderSettingsPanel.kt:230 | the default style `applySettings`, `isModified` and `getDefaultStyle` read from the combo; ComboIndexRoundTrip states it inverts ComboIndexOfStyle |
| SettingsPanel.ComboIndexOfStyle | src/main/kotlin/com/vladimirbiro/branchborder/settings/BranchBorderSettingsPanel.kt:216 | the combo index `loadSettings` selects; ComboIndexRoundTrip states it inverts StyleOfComboIndex |
| SettingsPanel.StoredColor | src/main/kotlin/com/vladimirbiro/branchborder/settings/BranchBorderSettingsPanel.kt:229 | the colour string `applySettings` stores and `isModified` compares; LoadedPanelIsUnmodified and AppliedSettingsLoadBack use it |
| SettingsPanel.ComboIndexRoundTrip | src/main/kotlin/com/vladimirbiro/branchborder/settings/BranchBorderSettingsPanel.kt:216 | the default style survives the combo in both directions |
| SettingsPanel.SettingsOf | src/main/kotlin/com/vladimirbiro/branchborder/settings/BranchBorderSettingsPanel.kt:224-236 | the state `applySettings` writes; LoadedPanelIsUnmodified and AppliedSettingsLoadBack relate it to FieldsOf |
| SettingsPanel.FieldsOf | src/main/kotlin/com/vladimirbiro/branchborder/settings/BranchBorderSettingsPanel.kt:206-222 | the widget values `loadSettings` shows, orange for an undecodable colour; LoadedPanelIsUnmodified and AppliedSettingsLoadBack relate it to SettingsOf |
| SettingsPanel.LoadedPanelIsUnmodified | src/main/kotlin/com/vladimirbiro/branchborder/settings/BranchBorderSettingsPanel.kt:238-260 | right after loading, the page is unmodified exactly when the stored colour is the canonical spelling of the colour it decodes to |
| SettingsPanel.AppliedSettingsLoadBack | src/main/kotlin/com/vladimirbiro/branchborder/settings/BranchBorderSettingsPanel.kt:224-236 | applying and loading again gives the same widget values, given a selected colour, a combo index and a decoder that reads the stored colour back |
| SettingsPanel.ImportedRule | src/main/kotlin/com/vladimirbiro/branchborder/settings/BranchBorderSettingsPanel.kt:189-195 | one file rule as a table rule; ImportedRulesResolveAlike states that it accepts the same branches and gives the same colour |
| SettingsPanel.ImportedRules | src/main/kotlin/com/vladimirbiro/branchborder/settings/BranchBorderSettingsPanel.kt:187-197 | one table rule per file rule, in file order |
| SettingsPanel.ImportedRulesResolveAlike | src/main/kotlin/com/vladimirbiro/branchborder/settings/BranchBorderSettingsPanel.kt:187-197 | the imported table picks the same rule as the file for every branch; that rule gives the file's colour, the default style, and blinking only if the rule's own settings enable it |
| SettingsPanel.BranchBorderSettingsPanel.constructor | src/main/kotlin/com/vladimirbiro/branchborder/settings/BranchBorderSettingsPanel.kt:41-44 | the page starts with the loaded settings |
| SettingsPanel.BranchBorderSettingsPanel.AddRule | src/main/kotlin/com/vladimirbiro/branchborder/settings/BranchBorderSettingsPanel.kt:121-126 | a confirmed dialog appends its rule; a cancelled one changes nothing |
| SettingsPanel.BranchBorderSettingsPanel.EditRule | src/main/kotlin/com/vladimirbiro/branchborder/settings/BranchBorderSettingsPanel.kt:128-137 | with a selected row and a confirmed dialog that row is replaced; otherwise nothing changes |
| SettingsPanel.BranchBorderSettingsPanel.RemoveRule | src/main/kotlin/com/vladimirbiro/branchborder/settings/BranchBorderSettingsPanel.kt:139-144 | with a selected row that row is removed; otherwise nothing changes |
| SettingsPanel.BranchBorderSettingsPanel.MoveRuleUp | src/main/kotlin/com/vladimirbiro/branchborder/settings/BranchBorderSettingsPanel.kt:146-152 | only below the first row: swap with the row above, selection follows; the multiset of rules is kept |
| SettingsPanel.BranchBorderSettingsPanel.MoveRuleDown | src/main/kotlin/com/vladimirbiro/branchborder/settings/BranchBorderSettingsPanel.kt:154-160 | only above the last row: swap with the row below, selection follows; the multiset of rules is kept |
| SettingsPanel.BranchBorderSettingsPanel.GetDefaultStyle | src/main/kotlin/com/vladimirbiro/branchborder/settings/BranchBorderSettingsPanel.kt:162-164 | solid exactly for combo index 0 |
| SettingsPanel.BranchBorderSettingsPanel.ImportFromJson | src/main/kotlin/com/vladimirbiro/branchborder/settings/BranchBorderSettingsPanel.kt:166-204 | no file or a read failure changes nothing; width clamped to [1, 20] first; a rejected colour fails after that; otherwise colour and blink settings when present (interval clamped to [100, 5000]) and the file's rules replace the table |
| SettingsPanel.BranchBorderSettingsPanel.LoadSettings | src/main/kotlin/com/vladimirbiro/branchborder/settings/BranchBorderSettingsPanel.kt:206-222 | every widget shows the stored value, an undecodable colour shows orange, the table holds the stored rules |
| SettingsPanel.BranchBorderSettingsPanel.ApplySettings | src/main/kotlin/com/vladimirbiro/branchborder/settings/BranchBorderSettingsPanel.kt:224-236 | the settings take every widget value, the colour as `#%06X` (orange when none) |
| SettingsPanel.BranchBorderSettingsPanel.IsModified | src/main/kotlin/com/vladimirbiro/branchborder/settings/BranchBorderSettingsPanel.kt:238-260 | true exactly when applying would change the settings: rules are equal only with equal length and equal elements in order |
| RuleDialog.IsBlank | src/main/kotlin/com/vladimirbiro/branchborder/settings/BranchRuleDialog.kt:129 | `isBlank`; BlankExamples states that empty and whitespace-only text is blank and text with a letter is not |
| RuleDialog.Validate | src/main/kotlin/com/vladimirbiro/branchborder/settings/BranchRuleDialog.kt:128-140 | `doValidate` as a value; ValidateSpec states when it passes and which error it reports |
| RuleDialog.ValidateSpec | src/main/kotlin/com/vladimirbiro/branchborder/settings/BranchRuleDialog.kt:128-140 | passes exactly for a non-blank pattern that compiles if it is a regex; a blank pattern is always the empty-pattern error |
| RuleDialog.BlankExamples | src/main/kotlin/com/vladimirbiro/branchborder/settings/BranchRuleDialog.kt:129-131 | empty and whitespace-only patterns fail; a pattern with a letter passes |
| RuleDialog.ValidatedRegexCompiles | src/main/kotlin/com/vladimirbiro/branchborder/settings/BranchRuleDialog.kt:132-138 | a validated regex never meets a compile error in the resolvers |
| RuleDialog.StyleOfIndex | src/main/kotlin/com/vladimirbiro/branchborder/settings/BranchRuleDialog.kt:119-123 | `getResult`'s style for a combo index; StyleIndexRoundTrip states it inverts IndexOfStyle |
| RuleDialog.IndexOfStyle | src/main/kotlin/com/vladimirbiro/branchborder/settings/BranchRuleDialog.kt:38-42 | `loadRule`'s combo index for a style; StyleIndexRoundTrip states it inverts StyleOfIndex |
| RuleDialog.StyleIndexRoundTrip | src/main/kotlin/com/vladimirbiro/branchborder/settings/BranchRuleDialog.kt:119-123 | `loadRule`'s style index and `getResult`'s mapping are inverse in both directions |
| RuleDialog.PreviewStyle | src/main/kotlin/com/vladimirbiro/branchborder/settings/BranchRuleDialog.kt:106-110 | `updatePreview`'s style; PreviewShowsResolvedStyle states it is the style the service gives the resulting rule |
| RuleDialog.IsComboMatchType | src/main/kotlin/com/vladimirbiro/branchborder/settings/BranchRuleDialog.kt:19 | the three kinds the match combo lists; UntouchedEditDialogKeepsRule uses it |
| RuleDialog.LoadedFields | src/main/kotlin/com/vladimirbiro/branchborder/settings/BranchRuleDialog.kt:33-47 | the widget values after `loadRule`; UntouchedAddDialogGivesDefaultRule and UntouchedEditDialogKeepsRule state what confirming them gives |
| RuleDialog.ResultOf | src/main/kotlin/com/vladimirbiro/branchborder/settings/BranchRuleDialog.kt:114-126 | `getResult` of the widget values; ResultColorParsesBack states its colour reads back as the selected one |
| RuleDialog.PreviewShowsResolvedStyle | src/main/kotlin/com/vladimirbiro/branchborder/settings/BranchRuleDialog.kt:106-110 | the preview shows the style the service gives the resulting rule |
| RuleDialog.ResultColorParsesBack | src/main/kotlin/com/vladimirbiro/branchborder/settings/BranchRuleDialog.kt:118 | the result colour is "#" and six upper-case hex digits and parses back to the selected colour, red when none |
| RuleDialog.UntouchedAddDialogGivesDefaultRule | src/main/kotlin/com/vladimirbiro/branchborder/settings/BranchRuleDialog.kt:44-46 | an untouched add dialog yields the `BranchRuleState` defaults |
| RuleDialog.UntouchedEditDialogKeepsRule | src/main/kotlin/com/vladimirbiro/branchborder/settings/BranchRuleDialog.kt:33-47 | an untouched edit dialog gives the rule back when its kind is listed and its colour canonical |
| RuleDialog.BranchRuleDialog.constructor | src/main/kotlin/com/vladimirbiro/branchborder/settings/BranchRuleDialog.kt:26-31 | the title says add or edit, and the widgets hold the loaded rule |
| RuleDialog.BranchRuleDialog.LoadRule | src/main/kotlin/com/vladimirbiro/branchborder/settings/BranchRuleDialog.kt:33-47 | an edited rule's values are shown, an unlisted match kind keeps the selection; a new rule gets red |
| RuleDialog.BranchRuleDialog.UpdatePreview | src/main/kotlin/com/vladimirbiro/branchborder/settings/BranchRuleDialog.kt:104-112 | the preview gets the selected colour (red when none) and the chosen or default style |
| RuleDialog.BranchRuleDialog.GetResult | src/main/kotlin/com/vladimirbiro/branchborder/settings/BranchRuleDialog.kt:114-126 | the rule of the widget values, whose colour parses back to the selected one |
| RuleDialog.BranchRuleDialog.DoValidate | src/main/kotlin/com/vladimirbiro/branchborder/settings/BranchRuleDialog.kt:128-140 | the blank scan and the regex check give the validation result |
| GitListener.Changes | src/main/kotlin/com/vladimirbiro/branchborder/GitBranchListener.kt:29-36 | the callbacks a series of observations produces; ChangesNeverRepeat, ChangesAppend and UnchangedBranchIsSilent characterise it |
| GitListener.ChangesNeverRepeat | src/main/kotlin/com/vladimirbiro/branchborder/GitBranchListener.kt:29-36 | reported branches never repeat the one before, and the last reported is the last seen |
| GitListener.ChangesAppend | src/main/kotlin/com/vladimirbiro/branchborder/GitBranchListener.kt:29-36 | two stretches of events report what one stretch does |
| GitListener.UnchangedBranchIsSilent | src/main/kotlin/com/vladimirbiro/branchborder/GitBranchListener.kt:31 | repeated events with an unchanged branch report nothing |
| GitListener.GitBranchListener.constructor | src/main/kotlin/com/vladimirbiro/branchborder/GitBranchListener.kt:16 | no last branch, nothing reported |
| GitListener.CurrentBranch | src/main/kotlin/com/vladimirbiro/branchborder/GitBranchListener.kt:38-49 | the branch of the first repository, none without one; GetCurrentBranch is proved equal to it |
| GitListener.GitBranchListener.GetCurrentBranch | src/main/kotlin/com/vladimirbiro/branchborder/GitBranchListener.kt:38-49 | none without repositories, otherwise the first repository's branch |
| GitListener.GitBranchListener.Start | src/main/kotlin/com/vladimirbiro/branchborder/GitBranchListener.kt:19-27 | the current branch becomes the last one and is reported exactly once |
| GitListener.GitBranchListener.RepositoryChanged | src/main/kotlin/com/vladimirbiro/branchborder/GitBranchListener.kt:29-36 | a report only when the branch differs from the last one, which it then becomes; no two consecutive reports are equal |
| FileWatcher.IsConfigFile | src/main/kotlin/com/vladimirbiro/branchborder/ConfigFileWatcher.kt:34 | the name and parent-path test; Qualifies and FiresSpec use it |
| FileWatcher.Qualifies | src/main/kotlin/com/vladimirbiro/branchborder/ConfigFileWatcher.kt:31-38 | an event with a file, on the config file in the project root, of kind content change, create or delete; FiresSpec and IgnoredEventsChangeNothing use it |
| FileWatcher.Fires | src/main/kotlin/com/vladimirbiro/branchborder/ConfigFileWatcher.kt:27-46 | whether a batch calls back; FiresSpec states it as "a base path and some qualifying event" |
| FileWatcher.FiresSpec | src/main/kotlin/com/vladimirbiro/branchborder/ConfigFileWatcher.kt:27-46 | a batch fires exactly when there is a base path and an event changes, creates or deletes the config file in the project root |
| FileWatcher.IgnoredEventsChangeNothing | src/main/kotlin/com/vladimirbiro/branchborder/ConfigFileWatcher.kt:31-43 | an event without a file, a move, a copy or a property change, inserted anywhere in a batch, never changes whether it fires |
| FileWatcher.ConfigFileWatcher.constructor | src/main/kotlin/com/vladimirbiro/branchborder/ConfigFileWatcher.kt:13-17 | the watched name, no callbacks yet |
| FileWatcher.ConfigFileWatcher.After | src/main/kotlin/com/vladimirbiro/branchborder/ConfigFileWatcher.kt:27-46 | one callback exactly when the batch fires, never more than one |

## Left out

- **Pixel painting.** `paintSolidBorder`, `paintDashedBorder`,
  `BorderPreviewPanel.paintComponent`, `ColorIcon` and the table cell renderers are
  left out. They are Graphics2D drawing with float strokes and font metrics. The
  model stops at the decision of what to draw (`ExecutePaint`, `UpdatePreview`).
- **UI layout.** The panel and dialog layout, spinners, combos, `FileChooser` and
  `Messages` are left out. Widget values are fields. A dialog's outcome, the
  selected row and a file choice are inputs. The spinners' bounds are not enforced
  by `setValue`, so the width and interval fields are plain integers.
- **Table display.** `BranchRulesTableModel.getColumnCount`, `getColumnName`,
  `getValueAt` and `getColumnClass` are left out; they only feed the table view. The
  `fireTable...` notifications are left out for the same reason.
- **Gson and file reading.** Gson, `VirtualFile` reading and
  `BranchColorConfig.findConfigFile` are left out. Their result is either an
  exception or a well-typed value (`ConfigFile`, `ImportChoice`). JSON that Gson
  maps to `null` in a non-null Kotlin field is not modelled. Examples are
  `"branches": null` and a rule without "match", "pattern" or "color". `BranchRule`
  has no no-argument constructor, so Gson skips its Kotlin defaults, and an absent
  "match" is `null`, not "exact". `getSettingsForBranch` never matches such a rule,
  because the `when` falls to `else`. The settings page's import fails on it after
  the table has been cleared. `BranchColorConfigData` and `BlinkingConfig` default
  every parameter, so Gson does apply their defaults.
- **`Color.decode`.** It is a parameter, not a definition.
- **The regular-expression engine.** It is a parameter, not a definition.
- **Platform wiring.**
  - `setupPainter` and the glass-pane installation are left out; the service
    receives the painter, or none, at construction.
  - `rootPane.repaint()` is left out.
  - Left out too: message-bus subscriptions (`ConfigFileWatcher.start`), the empty
    `dispose` methods of the listener and the watcher, service lookup
    (`getInstance`) and logging.
  - `initialize` is modelled only through its callback, `OnBranchChanged`.
  - `BranchBorderConfigurable` and `BranchBorderStartupActivity` only delegate and
    are not part of this model.
- **Timing and threads.** Real timer scheduling, the Swing timer thread, the event
  dispatch thread and concurrency are left out. A tick is an explicit method call.
- **Unicode digits in `parseColor`.** `Integer.parseInt` also accepts non-ASCII
  Unicode digits, such as full-width ones. `Colors.ParseColor` accepts only ASCII hex
  digits.
- Settings.BranchBorderSettings.LoadState: `copyBean` copies the rule list by
  reference, so the two beans share one list afterwards. The model copies the list as
  a value and does not capture that aliasing.
- Service.BranchBorderService.Dispose: the service's `dispose` only drops its
  painter reference (BranchBorderService.kt:154-158). `setupPainter` registers the
  painter with no disposer; `installPainter` ties only the glass-pane registration to
  the service. So nothing in the source calls `BorderPainter.dispose`, and a running
  blink timer keeps running. The model states exactly that: the painter's state,
  timer included, is left as it was.
- RuleDialog.BranchRuleDialog.constructor requires the edited rule's colour to
  decode. The source lets `Color.decode`'s exception escape from the dialog's
  construction, and that failure path is not modelled.
- RuleDialog.BranchRuleDialog.LoadRule carries the same requirement, for the same
  reason: it is the `loadRule` call inside that construction.
- SettingsPanel.BranchRulesTableModel.UpdateRule, RemoveRule, MoveRule and GetRule
  require valid indices. The source throws `IndexOutOfBoundsException` otherwise,
  and its callers pass only valid rows.
- SettingsPanel.BranchBorderSettingsPanel.EditRule, RemoveRule, MoveRuleUp and
  MoveRuleDown require the selected row to be -1 or an existing row, as a `JTable`
  reports it.
