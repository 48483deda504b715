/**
 * The dashboard (package internal/tui): the tab state machine and the in-place
 * edits of the rule list that the key handler of `Update` performs: delete,
 * move up and down, add and edit through a form, and the completion or abort
 * of that form. The list component, the form and the rendering are libraries;
 * the model keeps the list's items and cursor and the form's final values.
 */
module Dashboard {
  import opened Text
  import opened Domain
  import ConfigCommand

  const TabRules := 0
  const TabHistory := 1
  const TabSync := 2
  const TabEdit := 3

  /** The key bindings `Update` distinguishes. */
  datatype Key = Quit | Tab | ShiftTab | Delete | MoveUp | MoveDown | Add | Edit | Enter | OtherKey

  /** The values the edit form holds when it completes. */
  datatype FormValues = FormValues(
    name: string, command: string, extensions: string, regex: string, terminal: bool, background: bool)

  /** The fields of the dashboard model that `Update` reads or writes. */
  datatype State = State(
    rules: seq<Rule>,          // Cfg.Rules
    items: seq<Rule>,          // the rules list's items
    cursor: int,               // RulesList.Index()
    active: int,               // Active
    rulesFiltering: bool,      // the rules list is filtering
    historyFiltering: bool,    // the history list is filtering
    showDetail: bool,
    detailRule: Rule,
    formOpen: bool,            // EditForm != nil
    selectedRuleIndex: int,    // the rule being edited, -1 for a new one
    editExtensions: string,    // EditExtensionsStr
    newRule: Rule)             // NewRule

  /** RuleItem.Title: the name, or the command for an unnamed rule. */
  function Title(rule: Rule): (t: string)
    ensures rule.name != "" ==> t == rule.name
    ensures rule.name == "" ==> t == rule.command
  {
    if rule.name != "" then rule.name else rule.command
  }

  /** The extension, regex and script markers of RuleItem.Description. */
  function Markers(rule: Rule): string {
    (if |rule.extensions| > 0 then "[" + Join(rule.extensions, ", ") + "] " else "")
    + (if rule.regex != "" then "Regex: " + rule.regex + " " else "")
    + (if rule.script != "" then "JS " else "")
  }

  /** RuleItem.Description: the markers present, then an arrow to the command; just the command when none is. */
  function Description(rule: Rule): (desc: string)
    ensures |rule.extensions| == 0 && rule.regex == "" && rule.script == "" ==> desc == rule.command
    ensures |rule.extensions| > 0 || rule.regex != "" || rule.script != "" ==>
      HasSuffix(desc, "-> " + rule.command) && |desc| > |"-> " + rule.command|
    ensures |rule.extensions| > 0 ==> HasPrefix(desc, "[" + Join(rule.extensions, ", ") + "] ")
    ensures |rule.extensions| == 0 && rule.regex != "" ==> HasPrefix(desc, "Regex: " + rule.regex + " ")
  {
    var markers := Markers(rule);
    if markers == "" then rule.command
    else
      var desc := markers + "-> " + rule.command;
      assert desc[|desc| - |"-> " + rule.command|..] == "-> " + rule.command;
      desc
  }

  /** lo.Map(strings.Split(s, ","), strings.TrimSpace), or nothing for an empty string. */
  function ParseExtensions(s: string): (exts: seq<string>)
    ensures s == "" <==> exts == []
  {
    if s == "" then []
    else
      var pieces := ConfigCommand.Fields(s, ',');
      seq(|pieces|, k requires 0 <= k < |pieces| => GoTrimSpace(pieces[k]))
  }

  /** The model NewModel builds for a configuration. */
  function Initial(rules: seq<Rule>): State {
    State(rules, rules, 0, TabRules, false, false, false, BlankRule, false, 0, "", BlankRule)
  }

  /** Whether the global keys are live: not editing and neither list filtering. */
  predicate GlobalKeysLive(s: State) {
    s.active != TabEdit && !s.rulesFiltering && !s.historyFiltering
  }

  /** Whether the rule-list keys are live. */
  predicate RuleKeysLive(s: State) {
    s.active == TabRules && !s.rulesFiltering
  }

  function Removed(rules: seq<Rule>, i: nat): seq<Rule>
    requires i < |rules|
  {
    rules[..i] + rules[i + 1..]
  }

  /** The rules with positions `i` and `j` exchanged. */
  function Swapped(rules: seq<Rule>, i: nat, j: nat): seq<Rule>
    requires i < |rules| && j < |rules|
  {
    rules[i := rules[j]][j := rules[i]]
  }

  /** Delete: the rule under the cursor leaves the configuration and the list. */
  function DeleteStep(s: State): State {
    var c := s.cursor;
    if |s.rules| > 0 && 0 <= c < |s.rules| && c < |s.items| then
      s.(rules := Removed(s.rules, c), items := Removed(s.items, c))
    else s
  }

  /** MoveUp: the rule under the cursor changes place with the one above, and the cursor follows it. */
  function MoveUpStep(s: State): State {
    var c := s.cursor;
    if 0 < c < |s.rules| && c < |s.items| then
      var rules := Swapped(s.rules, c, c - 1);
      s.(rules := rules, items := s.items[c := rules[c]][c - 1 := rules[c - 1]], cursor := c - 1)
    else s
  }

  /** MoveDown: the rule under the cursor changes place with the one below, and the cursor follows it. */
  function MoveDownStep(s: State): State {
    var c := s.cursor;
    if 0 <= c && c + 1 < |s.rules| && c + 1 < |s.items| then
      var rules := Swapped(s.rules, c, c + 1);
      s.(rules := rules, items := s.items[c := rules[c]][c + 1 := rules[c + 1]], cursor := c + 1)
    else s
  }

  /** Add: a blank new rule in an open form. */
  function AddStep(s: State): State {
    s.(selectedRuleIndex := -1, newRule := BlankRule, editExtensions := "", formOpen := true, active := TabEdit)
  }

  /** Edit: the form opens on the rule under the cursor, its extensions joined with ", ". */
  function EditStep(s: State): State {
    var c := s.cursor;
    if |s.rules| > 0 && 0 <= c < |s.rules| then
      s.(selectedRuleIndex := c, editExtensions := Join(s.rules[c].extensions, ", "), formOpen := true, active := TabEdit)
    else s
  }

  /** Enter: the details of the rule under the cursor. */
  function EnterStep(s: State): State {
    var c := s.cursor;
    if |s.rules| > 0 && 0 <= c < |s.rules| then s.(detailRule := s.rules[c], showDetail := true) else s
  }

  /** The context keys of the Rules tab. */
  function RuleKey(s: State, k: Key): State {
    match k
    case Delete => DeleteStep(s)
    case MoveUp => MoveUpStep(s)
    case MoveDown => MoveDownStep(s)
    case Add => AddStep(s)
    case Edit => EditStep(s)
    case Enter => EnterStep(s)
    case _ => s
  }

  /** The key handling of Update: the new state and whether the program quits. */
  function KeyStep(s: State, k: Key): (r: (State, bool))
    ensures r.1 <==> !s.showDetail && GlobalKeysLive(s) && k == Quit
    ensures s.showDetail || s.active != TabRules || s.rulesFiltering ==> r.0.rules == s.rules && r.0.items == s.items
    ensures !s.showDetail && s.active == TabEdit ==> r.0 == s
  {
    if s.showDetail then
      if k == Quit || k == Enter || k == Tab then (s.(showDetail := false), false) else (s, false)
    else if GlobalKeysLive(s) && k == Quit then (s, true)
    else if GlobalKeysLive(s) && k == Tab then (s.(active := (s.active + 1) % 3), false)
    else if GlobalKeysLive(s) && k == ShiftTab then (s.(active := if s.active == 0 then TabSync else s.active - 1), false)
    else if RuleKeysLive(s) then (RuleKey(s, k), false)
    else (s, false)
  }

  /** Completion and abort both close the form and return to the Rules tab. */
  function Close(s: State): State {
    s.(active := TabRules, formOpen := false, editExtensions := "")
  }

  /** The rule the form leaves behind: the form's fields over `rule`, with the extensions parsed. */
  function FromForm(rule: Rule, v: FormValues, extensions: seq<string>): Rule {
    rule.(name := v.name, command := v.command, regex := v.regex, terminal := v.terminal,
          background := v.background, extensions := extensions)
  }

  /** The completion of the edit form: a new rule is appended, an edited one replaced in place. */
  function Finish(s: State, v: FormValues): (r: State)
    requires s.selectedRuleIndex == -1 || 0 <= s.selectedRuleIndex < |s.rules|
    ensures r.active == TabRules && !r.formOpen && r.editExtensions == ""
    ensures s.selectedRuleIndex == -1 ==>
      && |r.rules| == |s.rules| + 1
      && r.rules[|s.rules|].name == v.name && r.rules[|s.rules|].command == v.command
    ensures s.selectedRuleIndex != -1 ==>
      && |r.rules| == |s.rules|
      && r.rules[s.selectedRuleIndex].name == v.name && r.rules[s.selectedRuleIndex].command == v.command
  {
    if s.selectedRuleIndex == -1 then
      var extensions := if v.extensions != "" then ParseExtensions(v.extensions) else s.newRule.extensions;
      var rule := FromForm(s.newRule, v, extensions);
      Close(s.(rules := s.rules + [rule], items := s.items + [rule], newRule := rule))
    else
      var i := s.selectedRuleIndex;
      var rule := FromForm(s.rules[i], v, ParseExtensions(v.extensions));
      Close(s.(rules := s.rules[i := rule], items := if i < |s.items| then s.items[i := rule] else s.items))
  }

  /**
   * What the dashboard keeps true: the list shows exactly the configured
   * rules, the edit tab is active exactly while the form is open, and the rule
   * being edited exists.
   */
  predicate Valid(s: State) {
    && s.items == s.rules
    && 0 <= s.active <= TabEdit
    && (s.formOpen <==> s.active == TabEdit)
    && (s.formOpen ==> s.selectedRuleIndex == -1 || 0 <= s.selectedRuleIndex < |s.rules|)
  }

  /** The dashboard model; `Update` works on a copy in Go, but the rules are shared through Cfg. */
  class Model {
    var rules: seq<Rule>
    var items: seq<Rule>
    var cursor: int
    var active: int
    var rulesFiltering: bool
    var historyFiltering: bool
    var showDetail: bool
    var detailRule: Rule
    var formOpen: bool
    var selectedRuleIndex: int
    var editExtensions: string
    var newRule: Rule

    function Snapshot(): State
      reads this
    {
      State(rules, items, cursor, active, rulesFiltering, historyFiltering, showDetail, detailRule,
            formOpen, selectedRuleIndex, editExtensions, newRule)
    }

    /** NewModel. */
    constructor(rules: seq<Rule>)
      ensures Snapshot() == Initial(rules) && Valid(Snapshot())
    {
      this.rules := rules;
      items := rules;
      cursor := 0;
      active := TabRules;
      rulesFiltering := false;
      historyFiltering := false;
      showDetail := false;
      detailRule := BlankRule;
      formOpen := false;
      selectedRuleIndex := 0;
      editExtensions := "";
      newRule := BlankRule;
    }

    /** Update for a key press, before the message is passed on to the active component. */
    method HandleKey(k: Key) returns (quit: bool)
      modifies this
      ensures (Snapshot(), quit) == KeyStep(old(Snapshot()), k)
    {
      if showDetail {
        if k == Quit || k == Enter || k == Tab {
          showDetail := false;
        }
        return false;
      }
      if active != TabEdit && !rulesFiltering && !historyFiltering {
        if k == Quit {
          return true;
        } else if k == Tab {
          active := (active + 1) % 3;
          return false;
        } else if k == ShiftTab {
          if active == 0 {
            active := TabSync;
          } else {
            active := active - 1;
          }
          return false;
        }
      }
      if active == TabRules && !rulesFiltering {
        HandleRuleKey(k);
      }
      return false;
    }

    /** The context keys of the Rules tab. */
    method HandleRuleKey(k: Key)
      modifies this
      ensures Snapshot() == RuleKey(old(Snapshot()), k)
    {
      var index := cursor;
      match k
      case Delete =>
        if |rules| > 0 && 0 <= index < |rules| && index < |items| {
          rules := rules[..index] + rules[index + 1..];
          items := items[..index] + items[index + 1..];
        }
      case MoveUp =>
        MoveSelectedUp();
      case MoveDown =>
        MoveSelectedDown();
      case Add =>
        selectedRuleIndex := -1;
        newRule := BlankRule;
        editExtensions := "";
        formOpen := true;
        active := TabEdit;
      case Edit =>
        if |rules| > 0 && 0 <= index < |rules| {
          selectedRuleIndex := index;
          editExtensions := Join(rules[index].extensions, ", ");
          formOpen := true;
          active := TabEdit;
        }
      case Enter =>
        if |rules| > 0 && 0 <= index < |rules| {
          detailRule := rules[index];
          showDetail := true;
        }
      case _ =>
    }

    /** MoveUp in the Rules tab: the configuration and the list exchange the same two rules. */
    method MoveSelectedUp()
      modifies this
      ensures Snapshot() == MoveUpStep(old(Snapshot()))
    {
      var index := cursor;
      if 0 < index < |rules| && index < |items| {
        rules := rules[index := rules[index - 1]][index - 1 := rules[index]];
        items := items[index := rules[index]];
        items := items[index - 1 := rules[index - 1]];
        cursor := index - 1;
      }
    }

    /** MoveDown in the Rules tab. */
    method MoveSelectedDown()
      modifies this
      ensures Snapshot() == MoveDownStep(old(Snapshot()))
    {
      var index := cursor;
      if 0 <= index && index + 1 < |rules| && index + 1 < |items| {
        rules := rules[index := rules[index + 1]][index + 1 := rules[index]];
        items := items[index := rules[index]];
        items := items[index + 1 := rules[index + 1]];
        cursor := index + 1;
      }
    }

    /** Update when the edit form reports completion, with the values it holds. */
    method FinishEdit(v: FormValues)
      requires Valid(Snapshot()) && formOpen
      modifies this
      ensures Snapshot() == Finish(old(Snapshot()), v)
    {
      if selectedRuleIndex == -1 {
        AppendNewRule(v);
      } else {
        ReplaceEditedRule(v);
      }
      active := TabRules;
      formOpen := false;
      editExtensions := "";
    }

    /** Completion for a new rule: the form's values go into NewRule, which is appended to the rules and the list. */
    method AppendNewRule(v: FormValues)
      requires selectedRuleIndex == -1
      modifies this
      ensures Close(Snapshot()) == Finish(old(Snapshot()), v)
    {
      ghost var before := Snapshot();
      editExtensions := v.extensions;
      var extensions := newRule.extensions;
      if editExtensions != "" {
        extensions := ParseExtensions(editExtensions);
      }
      newRule := FromForm(newRule, v, extensions);
      FinishAdds(before, v, newRule);
      rules := rules + [newRule];
      items := items + [newRule];
    }

    /** Completion for an edited rule: the form's values replace it in the rules and the list. */
    method ReplaceEditedRule(v: FormValues)
      requires 0 <= selectedRuleIndex < |rules| && selectedRuleIndex < |items|
      modifies this
      ensures Close(Snapshot()) == Finish(old(Snapshot()), v)
    {
      ghost var before := Snapshot();
      editExtensions := v.extensions;
      var rule := FromForm(rules[selectedRuleIndex], v, ParseExtensions(editExtensions));
      FinishReplaces(before, v, rule);
      rules := rules[selectedRuleIndex := rule];
      items := items[selectedRuleIndex := rule];
    }

    /** Update when the edit form reports that it was aborted. */
    method AbortEdit()
      requires formOpen
      modifies this
      ensures Snapshot() == Close(old(Snapshot()))
    {
      active := TabRules;
      formOpen := false;
      editExtensions := "";
    }
  }

  /** Completing the form for a new rule appends `rule`, the form's values over the new rule. */
  lemma FinishAdds(s: State, v: FormValues, rule: Rule)
    requires s.selectedRuleIndex == -1
    requires rule == FromForm(s.newRule, v, if v.extensions != "" then ParseExtensions(v.extensions) else s.newRule.extensions)
    ensures Finish(s, v) == Close(s.(rules := s.rules + [rule], items := s.items + [rule], newRule := rule))
  {
  }

  /** Completing the form for an existing rule puts `rule`, the form's values over it, in its place. */
  lemma FinishReplaces(s: State, v: FormValues, rule: Rule)
    requires 0 <= s.selectedRuleIndex < |s.rules| && s.selectedRuleIndex < |s.items|
    requires rule == FromForm(s.rules[s.selectedRuleIndex], v, ParseExtensions(v.extensions))
    ensures Finish(s, v) == Close(s.(rules := s.rules[s.selectedRuleIndex := rule], items := s.items[s.selectedRuleIndex := rule]))
  {
  }

  // ---------------------------------------------------------------------
  // Properties

  /** In the Rules tab, a key that is not a global one goes to the rule-list handler. */
  lemma ContextKey(s: State, k: Key)
    requires !s.showDetail && RuleKeysLive(s) && k != Quit && k != Tab && k != ShiftTab
    ensures KeyStep(s, k) == (RuleKey(s, k), false)
  {
  }

  /** Every key press, completion and abort keeps the dashboard valid. */
  lemma KeyStepKeepsValid(s: State, k: Key)
    requires Valid(s)
    ensures Valid(KeyStep(s, k).0)
  {
  }

  lemma FinishKeepsValid(s: State, v: FormValues)
    requires Valid(s) && s.formOpen
    ensures Valid(Finish(s, v))
  {
  }

  lemma AbortKeepsValid(s: State)
    requires Valid(s)
    ensures Valid(Close(s))
  {
  }

  /** Tab cycles Rules, History, Sync and back; Shift-Tab undoes it. */
  lemma TabCycles(s: State)
    requires Valid(s) && !s.showDetail && GlobalKeysLive(s)
    ensures var t := KeyStep(s, Tab).0;
      && t.active == (if s.active == TabSync then TabRules else s.active + 1)
      && t.rules == s.rules
      && KeyStep(t, ShiftTab).0 == s
      && KeyStep(KeyStep(t, Tab).0, Tab).0 == s
  {
  }

  /** While the edit form is open no key changes the model: the keys belong to the form. */
  lemma EditingSwallowsKeys(s: State, k: Key)
    requires s.active == TabEdit && !s.showDetail
    ensures KeyStep(s, k) == (s, false)
  {
  }

  /** While a list is filtering, the global keys neither quit nor switch tabs. */
  lemma FilteringKeepsTab(s: State, k: Key)
    requires s.rulesFiltering || s.historyFiltering
    requires k == Quit || k == Tab || k == ShiftTab
    ensures !KeyStep(s, k).1 && KeyStep(s, k).0.active == s.active
  {
  }

  /** Delete removes exactly the selected rule when the cursor is on one; the others keep their order. */
  lemma DeleteRemovesSelected(s: State)
    requires Valid(s) && !s.showDetail && RuleKeysLive(s)
    ensures var t := KeyStep(s, Delete).0;
      && (0 <= s.cursor < |s.rules| ==>
            && |t.rules| == |s.rules| - 1
            && (forall j :: 0 <= j < s.cursor ==> t.rules[j] == s.rules[j])
            && (forall j :: s.cursor <= j < |t.rules| ==> t.rules[j] == s.rules[j + 1]))
      && (!(0 <= s.cursor < |s.rules|) ==> t == s)
  {
  }

  /**
   * MoveUp exchanges the selected rule with the one above it when there is one;
   * the selection follows the rule and no rule is lost or duplicated.
   */
  lemma MoveUpSwaps(s: State)
    requires Valid(s) && !s.showDetail && RuleKeysLive(s)
    ensures var t := KeyStep(s, MoveUp).0;
      && multiset(t.rules) == multiset(s.rules)
      && |t.rules| == |s.rules|
      && (0 < s.cursor < |s.rules| ==>
            && t.cursor == s.cursor - 1
            && t.rules[t.cursor] == s.rules[s.cursor]
            && t.rules[s.cursor] == s.rules[s.cursor - 1]
            && (forall j :: 0 <= j < |s.rules| && j != s.cursor && j != s.cursor - 1 ==> t.rules[j] == s.rules[j]))
      && (!(0 < s.cursor < |s.rules|) ==> t == s)
  {
    var c := s.cursor;
    ContextKey(s, MoveUp);
    var t := MoveUpStep(s);
    if 0 < c < |s.rules| {
      assert t.rules == Swapped(s.rules, c, c - 1) && t.cursor == c - 1;
      SwapFacts(s.rules, c, c - 1);
    }
  }

  /** MoveDown exchanges the selected rule with the one below it, symmetrically. */
  lemma MoveDownSwaps(s: State)
    requires Valid(s) && !s.showDetail && RuleKeysLive(s)
    requires 0 <= s.cursor && s.cursor + 1 < |s.rules|
    ensures var t := KeyStep(s, MoveDown).0;
      && multiset(t.rules) == multiset(s.rules)
      && |t.rules| == |s.rules|
      && t.cursor == s.cursor + 1
      && t.rules[t.cursor] == s.rules[s.cursor]
      && t.rules[s.cursor] == s.rules[s.cursor + 1]
      && (forall j :: 0 <= j < |s.rules| && j != s.cursor && j != s.cursor + 1 ==> t.rules[j] == s.rules[j])
  {
    ContextKey(s, MoveDown);
    MovedDown(s);
    SwapFacts(s.rules, s.cursor, s.cursor + 1);
  }

  /** The state MoveDown leaves: the two rules exchanged, the cursor one lower. */
  lemma MovedDown(s: State)
    requires 0 <= s.cursor && s.cursor + 1 < |s.rules| && s.cursor + 1 < |s.items|
    ensures var t := MoveDownStep(s);
      && t.cursor == s.cursor + 1
      && t.rules == Swapped(s.rules, s.cursor, s.cursor + 1)
  {
  }

  /** MoveDown on the last rule (or with no rule selected) changes nothing. */
  lemma MoveDownAtBottom(s: State)
    requires Valid(s) && !s.showDetail && RuleKeysLive(s)
    requires !(0 <= s.cursor && s.cursor + 1 < |s.rules|)
    ensures KeyStep(s, MoveDown).0 == s
  {
    ContextKey(s, MoveDown);
  }

  /** Exchanging two positions moves those two rules, leaves the others, and loses or duplicates none. */
  lemma SwapFacts(rules: seq<Rule>, i: nat, j: nat)
    requires i < |rules| && j < |rules|
    ensures var t := Swapped(rules, i, j);
      && |t| == |rules| && t[i] == rules[j] && t[j] == rules[i]
      && (forall k :: 0 <= k < |rules| && k != i && k != j ==> t[k] == rules[k])
      && multiset(t) == multiset(rules)
  {
    if i != j {
      var t := rules[i := rules[j]];
      assert multiset(t) == multiset(rules) - multiset{rules[i]} + multiset{rules[j]};
      assert multiset(t[j := rules[i]]) == multiset(t) - multiset{t[j]} + multiset{rules[i]};
    }
  }

  /** Moving a rule up and then down again restores the list and the selection. */
  lemma MoveUpThenDown(s: State)
    requires Valid(s) && !s.showDetail && RuleKeysLive(s) && 0 < s.cursor < |s.rules|
    ensures KeyStep(KeyStep(s, MoveUp).0, MoveDown).0 == s
  {
    var t := KeyStep(s, MoveUp).0;
    var u := KeyStep(t, MoveDown).0;
    assert u.rules == s.rules;
  }

  /** Adding a rule and completing the form appends the form's rule at the end and returns to the Rules tab. */
  lemma AddThenFinishAppends(s: State, v: FormValues)
    requires Valid(s) && !s.showDetail && RuleKeysLive(s)
    ensures var t := KeyStep(s, Add).0;
      && t.active == TabEdit && t.formOpen
      && var u := Finish(t, v);
      && u.rules == s.rules + [FromForm(BlankRule, v, ParseExtensions(v.extensions))]
      && u.items == u.rules
      && u.active == TabRules && !u.formOpen && u.editExtensions == ""
  {
  }

  /** Completing an edit replaces only the edited rule. */
  lemma EditThenFinishReplaces(s: State, v: FormValues)
    requires Valid(s) && !s.showDetail && RuleKeysLive(s) && 0 <= s.cursor < |s.rules|
    ensures var u := Finish(KeyStep(s, Edit).0, v);
      && |u.rules| == |s.rules|
      && u.rules[s.cursor] == FromForm(s.rules[s.cursor], v, ParseExtensions(v.extensions))
      && (forall j :: 0 <= j < |s.rules| && j != s.cursor ==> u.rules[j] == s.rules[j])
      && u.active == TabRules && !u.formOpen && u.editExtensions == ""
  {
  }

  /** Aborting the form returns to the Rules tab with the rules as they were. */
  lemma AbortKeepsRules(s: State)
    ensures Close(s).rules == s.rules && Close(s).active == TabRules && !Close(s).formOpen && Close(s).editExtensions == ""
  {
  }

  /** A non-empty extension string gives one trimmed extension per comma-separated piece. */
  lemma ParseExtensionsShape(s: string)
    requires s != ""
    ensures |ParseExtensions(s)| == ConfigCommand.Occurrences(s, ',') + 1
    ensures forall k :: 0 <= k < |ParseExtensions(s)| ==>
      ParseExtensions(s)[k] == GoTrimSpace(ConfigCommand.Fields(s, ',')[k])
  {
    ConfigCommand.FieldsCount(s, ',');
  }

  /** An extension the form can show and read back unchanged. */
  predicate CleanExtension(e: string) {
    ',' !in e && GoTrimSpace(e) == e
  }

  /**
   * Editing a rule without touching the pre-filled extensions keeps them: the
   * form shows them joined with ", " and completion splits and trims them back.
   */
  lemma EditedExtensionsRoundTrip(exts: seq<string>)
    requires forall k :: 0 <= k < |exts| ==> CleanExtension(exts[k])
    requires exts != [""]
    ensures ParseExtensions(Join(exts, ", ")) == exts
  {
    if |exts| > 0 {
      var s := Join(exts, ", ");
      JoinNonEmpty(exts);
      SplitJoined("", exts);
      assert "" + s == s;
      TrimPieces(exts, ConfigCommand.Fields(s, ','));
    }
  }

  lemma JoinNonEmpty(exts: seq<string>)
    requires |exts| > 0 && exts != [""]
    ensures Join(exts, ", ") != ""
  {
    if |exts| > 1 {
      JoinLength(exts, ", ");
    } else {
      assert exts == [exts[0]];
    }
  }

  /** Trimming the pieces of a ", "-join gives back clean elements. */
  lemma TrimPieces(exts: seq<string>, pieces: seq<string>)
    requires |pieces| == |exts| > 0 && pieces[0] == exts[0]
    requires forall k :: 1 <= k < |exts| ==> pieces[k] == " " + exts[k]
    requires forall k :: 0 <= k < |exts| ==> CleanExtension(exts[k])
    ensures seq(|pieces|, k requires 0 <= k < |pieces| => GoTrimSpace(pieces[k])) == exts
  {
    var trimmed := seq(|pieces|, k requires 0 <= k < |pieces| => GoTrimSpace(pieces[k]));
    forall k | 0 <= k < |exts|
      ensures trimmed[k] == exts[k]
    {
      if k > 0 {
        TrimLeadingBlank(exts[k]);
      }
    }
    assert trimmed == exts;
  }

  /** The pieces of `p` followed by a ", "-join of `xs`: the elements, each after the first behind a space. */
  predicate JoinedPieces(p: string, xs: seq<string>, pieces: seq<string>) {
    && |pieces| == |xs| > 0
    && pieces[0] == p + xs[0]
    && forall k :: 1 <= k < |xs| ==> pieces[k] == " " + xs[k]
  }

  /** Splitting `p` followed by a ", "-join on ',' gives the elements, each after the first behind a space. */
  lemma {:induction false} SplitJoined(p: string, xs: seq<string>)
    requires |xs| > 0 && ',' !in p
    requires forall k :: 0 <= k < |xs| ==> ',' !in xs[k]
    ensures JoinedPieces(p, xs, ConfigCommand.Fields(p + Join(xs, ", "), ','))
    decreases |xs|
  {
    if |xs| == 1 {
      ConfigCommand.FieldsOfPlain(p + xs[0], ',');
    } else {
      SplitJoined(" ", xs[1..]);
      SplitJoinedStep(p, xs);
    }
  }

  /** The step of SplitJoined: the first element is split off whole, in front of the rest's pieces. */
  lemma SplitJoinedStep(p: string, xs: seq<string>)
    requires |xs| > 1 && ',' !in p && ',' !in xs[0]
    requires JoinedPieces(" ", xs[1..], ConfigCommand.Fields(" " + Join(xs[1..], ", "), ','))
    ensures JoinedPieces(p, xs, ConfigCommand.Fields(p + Join(xs, ", "), ','))
  {
    var rest := Join(xs[1..], ", ");
    assert p + Join(xs, ", ") == (p + xs[0]) + [','] + (" " + rest);
    ConfigCommand.FieldsOfPrefix(p + xs[0], ',', " " + rest);
    var tail := ConfigCommand.Fields(" " + rest, ',');
    var pieces := ConfigCommand.Fields(p + Join(xs, ", "), ',');
    assert pieces == [p + xs[0]] + tail;
    forall k | 1 <= k < |xs|
      ensures pieces[k] == " " + xs[k]
    {
      assert pieces[k] == tail[k - 1] && xs[1..][k - 1] == xs[k];
    }
  }

  /** strings.TrimSpace ignores one leading space. */
  lemma TrimLeadingBlank(e: string)
    ensures GoTrimSpace(" " + e) == GoTrimSpace(e)
  {
    assert (" " + e)[1..] == e;
  }

  // ---------------------------------------------------------------------
  // The form binding as written

  /**
   * What filling in the form writes, as `Update` binds it. `Update` has a value
   * receiver, so the Add form is bound to the fields of a copy of the model that
   * is discarded, and nothing typed into it reaches the model. The Edit form is
   * bound to the name, command, regex, terminal and background of the
   * configured rule itself, which `Cfg` shares, and to the discarded copy's
   * extensions text.
   */
  function TypedAsWritten(s: State, v: FormValues): (t: State)
    requires s.selectedRuleIndex == -1 || 0 <= s.selectedRuleIndex < |s.rules|
    ensures t.items == s.items && |t.rules| == |s.rules| && t.editExtensions == s.editExtensions
    ensures s.selectedRuleIndex == -1 ==> t == s
    ensures s.selectedRuleIndex != -1 ==>
      && t.rules[s.selectedRuleIndex] == FromForm(s.rules[s.selectedRuleIndex], v, s.rules[s.selectedRuleIndex].extensions)
      && forall j :: 0 <= j < |s.rules| && j != s.selectedRuleIndex ==> t.rules[j] == s.rules[j]
  {
    if s.selectedRuleIndex == -1 then s
    else
      var i := s.selectedRuleIndex;
      s.(rules := s.rules[i := FromForm(s.rules[i], v, s.rules[i].extensions)])
  }

  /** The completion as written: it reads the model's own NewRule and extensions text, which the form did not write. */
  function CompleteAsWritten(s: State): (r: State)
    requires s.selectedRuleIndex == -1 || 0 <= s.selectedRuleIndex < |s.rules|
    ensures r.active == TabRules && !r.formOpen && r.editExtensions == ""
    ensures s.selectedRuleIndex == -1 ==> r.rules == s.rules + [r.newRule]
    ensures s.selectedRuleIndex != -1 ==> |r.rules| == |s.rules|
  {
    if s.selectedRuleIndex == -1 then
      var rule := if s.editExtensions != "" then s.newRule.(extensions := ParseExtensions(s.editExtensions)) else s.newRule;
      Close(s.(rules := s.rules + [rule], items := s.items + [rule], newRule := rule))
    else
      var i := s.selectedRuleIndex;
      var rule := s.rules[i].(extensions := ParseExtensions(s.editExtensions));
      Close(s.(rules := s.rules[i := rule], items := if i < |s.items| then s.items[i := rule] else s.items))
  }

  /** Filling in the form with `v` and submitting it, as written. */
  function FinishAsWritten(s: State, v: FormValues): State
    requires s.selectedRuleIndex == -1 || 0 <= s.selectedRuleIndex < |s.rules|
  {
    CompleteAsWritten(TypedAsWritten(s, v))
  }

  /** Filling in the form with `v` and aborting it, as written. */
  function AbortAsWritten(s: State, v: FormValues): State
    requires s.selectedRuleIndex == -1 || 0 <= s.selectedRuleIndex < |s.rules|
  {
    Close(TypedAsWritten(s, v))
  }

  /** As written, Add followed by submitting appends the zero rule, whatever was typed. */
  lemma AddAsWrittenAppendsBlank(s: State, v: FormValues)
    requires Valid(s) && !s.showDetail && RuleKeysLive(s)
    ensures var u := FinishAsWritten(KeyStep(s, Add).0, v);
      && u.rules == s.rules + [BlankRule]
      && u.items == u.rules
  {
    var t := KeyStep(s, Add).0;
    assert t == AddStep(s);
    assert TypedAsWritten(t, v) == t;
  }

  /** Typing a name, a command and an extension into a new rule: as written they are lost, as intended they are kept. */
  lemma AddAsWrittenLosesForm()
    ensures var s := Initial([]);
      var v := FormValues("x", "vim", "md", "", false, false);
      var t := KeyStep(s, Add).0;
      && FinishAsWritten(t, v).rules == [BlankRule]
      && Finish(t, v).rules[0].name == "x"
      && Finish(t, v).rules[0].extensions != []
      && FinishAsWritten(t, v).rules != Finish(t, v).rules
  {
    var s := Initial([]);
    var v := FormValues("x", "vim", "md", "", false, false);
    AddAsWrittenAppendsBlank(s, v);
    var t := KeyStep(s, Add).0;
    assert t.selectedRuleIndex == -1 && t.rules == [];
    var intended := Finish(t, v).rules;
    assert intended == [FromForm(BlankRule, v, ParseExtensions("md"))];
    assert intended[0].name != BlankRule.name;
  }

  /**
   * As written, an edit that is submitted keeps the typed name, command,
   * regex, terminal and background, but takes its extensions from the text
   * the form was opened with, whatever was typed.
   */
  lemma EditAsWrittenKeepsExtensions(s: State, v: FormValues)
    requires Valid(s) && !s.showDetail && RuleKeysLive(s) && 0 <= s.cursor < |s.rules|
    ensures var u := FinishAsWritten(KeyStep(s, Edit).0, v);
      && u.rules[s.cursor] == FromForm(s.rules[s.cursor], v, ParseExtensions(Join(s.rules[s.cursor].extensions, ", ")))
      && u.items == u.rules
  {
    var t := KeyStep(s, Edit).0;
    assert t == EditStep(s);
  }

  /**
   * As written, aborting an edit after changing the name leaves the new name
   * in the configured rule while the list still shows the old rule, so the
   * list and the rules no longer agree.
   */
  lemma EditAbortAsWrittenDesyncs(s: State, v: FormValues)
    requires Valid(s) && !s.showDetail && RuleKeysLive(s) && 0 <= s.cursor < |s.rules|
    requires v.name != s.rules[s.cursor].name
    ensures var u := AbortAsWritten(KeyStep(s, Edit).0, v);
      && u.rules[s.cursor].name == v.name
      && u.items[s.cursor] == s.rules[s.cursor]
      && !Valid(u)
  {
    var t := KeyStep(s, Edit).0;
    assert t == EditStep(s);
    var u := AbortAsWritten(t, v);
    assert u.rules[s.cursor] != u.items[s.cursor];
  }
}
