/**
 * The decision logic of the modular theme switcher's menu: expanding a
 * section, the snippet display name, the scheme entries of a theme, the
 * snippet toggle and scope checkbox handlers, the value shown and stored by a
 * snippet variable input, and highlighting the active theme and scheme.
 * Elements are modelled by their attribute maps; checkboxes by their checked
 * flag and the scope they stand for.
 */
module SwitcherUI {
  import opened Wrappers
  import opened JsStrings
  import opened SwitcherKeys
  import SwitcherCore

  /** `b.toString()`. */
  function BoolText(b: bool): string {
    if b then "true" else "false"
  }

  /** `getAttribute(name)` on an attribute map: the value, or `null`. */
  function AttrOf(attrs: map<string, string>, name: string): JsStr {
    if name in attrs then Str(attrs[name]) else Null
  }

  /** A DOM element, seen through its attributes. */
  class Element {
    var attrs: map<string, string>

    constructor (attrs0: map<string, string>)
      ensures attrs == attrs0
    {
      attrs := attrs0;
    }

    function Attr(name: string): JsStr
      reads this
    {
      AttrOf(attrs, name)
    }

    /** The element's `data-expanded` attribute is `"true"`. */
    predicate Expanded()
      reads this
    {
      Attr("data-expanded") == Str("true")
    }
  }

  // ---------------------------------------------------------------------------
  // toggleSection
  // ---------------------------------------------------------------------------

  /**
   * `toggleSection(header, content)`: the header's expanded flag flips, and
   * afterwards the header's `data-expanded` and `aria-expanded` and the
   * content's `data-expanded` all hold the new state; nothing else changes.
   */
  method ToggleSection(header: Element, content: Element)
    requires header != content
    modifies header, content
    ensures var now := BoolText(!old(header.Expanded()));
      && header.attrs == old(header.attrs)["data-expanded" := now]["aria-expanded" := now]
      && content.attrs == old(content.attrs)["data-expanded" := now]
    ensures header.Expanded() <==> !old(header.Expanded())
    ensures header.Attr("data-expanded") == header.Attr("aria-expanded") == content.Attr("data-expanded")
  {
    var isExpanded := header.Attr("data-expanded") == Str("true");
    var newState := BoolText(!isExpanded);
    header.attrs := header.attrs["data-expanded" := newState];
    header.attrs := header.attrs["aria-expanded" := newState];
    content.attrs := content.attrs["data-expanded" := newState];
  }

  // ---------------------------------------------------------------------------
  // Names and labels
  // ---------------------------------------------------------------------------

  /** `word.charAt(0).toUpperCase() + word.slice(1)`. */
  function Capitalize(w: string): (r: string)
    ensures |r| == |w|
    ensures w != [] ==> r[0] == Upper(w[0]) && r[1..] == w[1..]
  {
    if w == [] then [] else [Upper(w[0])] + w[1..]
  }

  function CapitalizeAll(ws: seq<string>): (r: seq<string>)
    ensures |r| == |ws|
    ensures forall i :: 0 <= i < |ws| ==> r[i] == Capitalize(ws[i])
  {
    if ws == [] then [] else [Capitalize(ws[0])] + CapitalizeAll(ws[1..])
  }

  /** The character `.replace(/[-_]/g, ' ')` leaves in place of `c`. */
  function Spaced(c: char): char {
    if c == '-' || c == '_' then ' ' else c
  }

  function SpacedStr(s: string): (r: string)
    ensures |r| == |s|
    ensures forall i :: 0 <= i < |s| ==> r[i] == Spaced(s[i])
  {
    if s == [] then [] else [Spaced(s[0])] + SpacedStr(s[1..])
  }

  /** A character after which the display name starts a new word. */
  predicate WordBreak(c: char) {
    c == '-' || c == '_' || c == ' '
  }

  /**
   * The name shown for a snippet: dashes and underscores become spaces, the
   * result is split at spaces, each word's first character is upper-cased and
   * the words are joined with spaces again.
   */
  function DisplayName(name: string): string {
    Join(CapitalizeAll(SplitOn(SpacedStr(name), ' ')), " ")
  }

  /** The label and tooltip of a snippet's name: the display name, and the name itself. */
  datatype NameLabel = NameLabel(text: string, title: string)

  function SnippetNameLabel(name: string): (r: NameLabel)
    ensures r.title == name
    ensures r.text == DisplayName(name)
  {
    NameLabel(DisplayName(name), name)
  }

  /**
   * A reference title-casing, character by character: a character is
   * upper-cased when it starts the string (and `atStart` holds) or follows a
   * space.
   */
  function TitleCase(s: string, atStart: bool): (r: string)
    ensures |r| == |s|
  {
    if s == [] then []
    else [if atStart then Upper(s[0]) else s[0]] + TitleCase(s[1..], s[0] == ' ')
  }

  lemma {:induction false} TitleCaseChars(s: string, atStart: bool)
    ensures forall i :: 0 <= i < |s| ==>
      TitleCase(s, atStart)[i] == (if (i == 0 && atStart) || (i > 0 && s[i - 1] == ' ') then Upper(s[i]) else s[i])
  {
    if s != [] {
      TitleCaseChars(s[1..], s[0] == ' ');
      var r := TitleCase(s, atStart);
      assert r[1..] == TitleCase(s[1..], s[0] == ' ');
      forall i | 1 <= i < |s|
        ensures r[i] == (if s[i - 1] == ' ' then Upper(s[i]) else s[i])
      {
        assert r[i] == r[1..][i - 1];
        assert s[1..][i - 1] == s[i];
        if i > 1 { assert s[1..][i - 2] == s[i - 1]; }
      }
    }
  }

  /** The split parts with only the first one capitalised when `atStart` holds. */
  function CapFirstIf(atStart: bool, parts: seq<string>): seq<string>
    requires parts != []
  {
    [if atStart then Capitalize(parts[0]) else parts[0]] + CapitalizeAll(parts[1..])
  }

  lemma {:induction false} JoinCons(p: string, q: string, rest: seq<string>, sep: string)
    ensures Join([p + q] + rest, sep) == p + Join([q] + rest, sep)
  {
    if rest != [] {
      assert ([p + q] + rest)[1..] == rest;
      assert ([q] + rest)[1..] == rest;
    }
  }

  lemma {:induction false} JoinCapitalized(s: string, atStart: bool)
    ensures Join(CapFirstIf(atStart, SplitOn(s, ' ')), " ") == TitleCase(s, atStart)
  {
    if s != [] {
      var rest := SplitOn(s[1..], ' ');
      var c := if atStart then Upper(s[0]) else s[0];
      if s[0] == ' ' {
        JoinCapitalized(s[1..], true);
        assert SplitOn(s, ' ') == [""] + rest;
        assert CapFirstIf(atStart, SplitOn(s, ' ')) == [""] + CapitalizeAll(rest);
        assert CapitalizeAll(rest) == CapFirstIf(true, rest);
        assert Join([""] + CapitalizeAll(rest), " ") == "" + " " + Join(CapitalizeAll(rest), " ");
      } else {
        JoinCapitalized(s[1..], false);
        var parts := [[s[0]] + rest[0]] + rest[1..];
        assert SplitOn(s, ' ') == parts;
        assert CapFirstIf(atStart, parts) == [[c] + rest[0]] + CapitalizeAll(rest[1..]);
        JoinCons([c], rest[0], CapitalizeAll(rest[1..]), " ");
        assert CapFirstIf(false, rest) == [rest[0]] + CapitalizeAll(rest[1..]);
      }
    }
  }

  /**
   * The display name has the name's length; each character is the name's
   * character with `-` and `_` turned into a space, upper-cased exactly when
   * it is the first character or follows a `-`, `_` or space; and no `-` or
   * `_` is left.
   */
  lemma {:induction false} DisplayNameChars(name: string)
    ensures |DisplayName(name)| == |name|
    ensures forall i :: 0 <= i < |name| ==>
      DisplayName(name)[i] == (if i == 0 || WordBreak(name[i - 1]) then Upper(Spaced(name[i])) else Spaced(name[i]))
    ensures forall i :: 0 <= i < |name| ==> DisplayName(name)[i] != '-' && DisplayName(name)[i] != '_'
  {
    var s := SpacedStr(name);
    var parts := SplitOn(s, ' ');
    assert CapitalizeAll(parts) == CapFirstIf(true, parts);
    JoinCapitalized(s, true);
    TitleCaseChars(s, true);
    assert DisplayName(name) == TitleCase(s, true);
    forall i | 0 <= i < |name|
      ensures DisplayName(name)[i] != '-' && DisplayName(name)[i] != '_'
    {
      var c := Spaced(name[i]);
      assert s[i] == c && c != '-' && c != '_';
      var t := TitleCase(s, true);
      assert t[i] == (if i == 0 || (i > 0 && s[i - 1] == ' ') then Upper(s[i]) else s[i]);
      assert DisplayName(name)[i] == t[i];
      if IsAsciiLower(c) { assert IsAsciiUpper(Upper(c)); }
    }
  }

  /** A snippet display name example: `ab-c_d` shows as `Ab C D`. */
  lemma {:induction false} DisplayNameExample(n: string)
    requires n == "ab-c_d"
    ensures DisplayName(n) == "Ab C D"
  {
    DisplayNameChars(n);
    var d := DisplayName(n);
    assert n[0] == 'a' && n[1] == 'b' && n[2] == '-' && n[3] == 'c' && n[4] == '_' && n[5] == 'd';
    assert d[0] == Upper('a') && d[1] == 'b' && d[2] == ' ' && d[3] == Upper('c') && d[4] == ' ' && d[5] == Upper('d');
  }

  // ---------------------------------------------------------------------------
  // The scheme entries of a theme
  // ---------------------------------------------------------------------------

  /**
   * An entry of the theme menu as `createThemeOption` builds it: its label,
   * its `data-theme`, and its `data-scheme`, set only for a truthy scheme.
   */
  datatype ThemeOption = ThemeOption(text: string, theme: string, scheme: Option<string>)

  function CreateThemeOption(text: string, themeName: string, schemeName: JsStr): (r: ThemeOption)
    ensures r.text == text && r.theme == themeName
    ensures r.scheme.Some? <==> schemeName.Truthy()
    ensures r.scheme.Some? ==> r.scheme.value == schemeName.s
  {
    ThemeOption(text, themeName, if schemeName.Truthy() then Some(schemeName.s) else None)
  }

  /** The menu's first entry, which removes the theme. */
  function DefaultOption(): (r: ThemeOption)
    ensures r.text == "Default" && r.theme == "no-theme" && r.scheme.None?
  {
    CreateThemeOption("Default", "no-theme", Null)
  }

  /** A theme's own entry: label, theme and scheme are all the theme's name. */
  function MainOption(theme: Theme): (r: ThemeOption)
    ensures r.text == theme.name && r.theme == theme.name
    ensures r.scheme == (if theme.name == "" then None else Some(theme.name))
  {
    CreateThemeOption(theme.name, theme.name, Str(theme.name))
  }

  /** The scheme entries of a theme from `schemes`, in order, skipping the theme's own name. */
  function SchemeList(name: string, schemes: seq<string>): seq<ThemeOption> {
    if schemes == [] then []
    else if schemes[0] == name then SchemeList(name, schemes[1..])
    else [CreateThemeOption(Capitalize(schemes[0]), name, Str(schemes[0]))] + SchemeList(name, schemes[1..])
  }

  /**
   * Every scheme entry belongs to the theme, names a listed scheme other
   * than the theme's own, and is labelled with that scheme capitalised; and
   * every listed non-empty scheme other than the theme's own has an entry.
   */
  lemma {:induction false} SchemeListSpec(name: string, schemes: seq<string>)
    ensures forall o :: o in SchemeList(name, schemes) ==>
      o.theme == name &&
      (o.scheme.Some? ==> o.scheme.value in schemes && o.scheme.value != name && o.text == Capitalize(o.scheme.value))
    ensures forall s :: s in schemes && s != name && s != "" ==>
      CreateThemeOption(Capitalize(s), name, Str(s)) in SchemeList(name, schemes)
  {
    if schemes != [] {
      SchemeListSpec(name, schemes[1..]);
    }
  }

  /** `theme.schemes.forEach(...)`: the entries appended for a theme's schemes. */
  method SchemeItems(theme: Theme) returns (items: seq<ThemeOption>)
    ensures items == SchemeList(theme.name, theme.schemes)
  {
    items := [];
    var i := 0;
    while i < |theme.schemes|
      invariant 0 <= i <= |theme.schemes|
      invariant items + SchemeList(theme.name, theme.schemes[i..]) == SchemeList(theme.name, theme.schemes)
    {
      var schemeName := theme.schemes[i];
      assert theme.schemes[i..][1..] == theme.schemes[i + 1..];
      if schemeName != theme.name {
        items := items + [CreateThemeOption(Capitalize(schemeName), theme.name, Str(schemeName))];
      }
      i := i + 1;
    }
  }

  // ---------------------------------------------------------------------------
  // Snippet toggles and scope checkboxes
  // ---------------------------------------------------------------------------

  /** A scope checkbox of a snippet's scope panel: its state and its `data-scope`. */
  class ScopeCheckbox {
    var checked: bool
    const scope: string

    constructor (checked0: bool, scope0: string)
      ensures checked == checked0 && scope == scope0
    {
      checked := checked0;
      scope := scope0;
    }
  }

  /** `Array.from(checkboxes).map(cb => cb.dataset.scope)`. */
  function ScopesOf(boxes: seq<ScopeCheckbox>): (r: seq<string>)
    ensures |r| == |boxes|
    ensures forall i :: 0 <= i < |boxes| ==> r[i] == boxes[i].scope
  {
    if boxes == [] then [] else [boxes[0].scope] + ScopesOf(boxes[1..])
  }

  /** `Array.from(checkboxes).some(cb => cb.checked)`. */
  predicate AnyChecked(boxes: seq<ScopeCheckbox>)
    reads boxes
  {
    exists i :: 0 <= i < |boxes| && boxes[i].checked
  }

  /** `Array.from(checkboxes).filter(cb => cb.checked).map(cb => cb.dataset.scope)`. */
  function CheckedScopes(boxes: seq<ScopeCheckbox>): seq<string>
    reads boxes
  {
    if boxes == [] then [] else (if boxes[0].checked then [boxes[0].scope] else []) + CheckedScopes(boxes[1..])
  }

  /**
   * The checked scopes are empty exactly when no box is checked, and a
   * scope is among them exactly when a checked box carries it.
   */
  lemma {:induction false} CheckedScopesSpec(boxes: seq<ScopeCheckbox>)
    ensures CheckedScopes(boxes) == [] <==> !AnyChecked(boxes)
    ensures forall s :: s in CheckedScopes(boxes) <==> exists i :: 0 <= i < |boxes| && boxes[i].checked && boxes[i].scope == s
  {
    if boxes != [] {
      CheckedScopesSpec(boxes[1..]);
      var head := if boxes[0].checked then [boxes[0].scope] else [];
      assert CheckedScopes(boxes) == head + CheckedScopes(boxes[1..]);
      assert forall i :: 1 <= i < |boxes| ==> boxes[1..][i - 1] == boxes[i];
      assert AnyChecked(boxes[1..]) ==> AnyChecked(boxes);
      forall s | s in CheckedScopes(boxes)
        ensures exists i :: 0 <= i < |boxes| && boxes[i].checked && boxes[i].scope == s
      {
        if s !in head {
          var j :| 0 <= j < |boxes[1..]| && boxes[1..][j].checked && boxes[1..][j].scope == s;
          assert boxes[j + 1] == boxes[1..][j];
        }
      }
    }
  }

  /** The scopes carried by the boxes are pairwise distinct, as `Object.keys` names are. */
  predicate DistinctScopes(boxes: seq<ScopeCheckbox>) {
    forall i, j :: 0 <= i < j < |boxes| ==> boxes[i].scope != boxes[j].scope
  }

  /**
   * A checkbox of a freshly built scope panel is checked when the snippet
   * is enabled and its stored scopes contain the box's scope.
   */
  predicate PanelChecked(st: SwitcherCore.StateManager, name: string, scope: string)
    reads st, st.storage
  {
    SwitcherCore.GetEnabled(st, name) && scope in SwitcherCore.GetScopes(st, name)
  }

  /**
   * `setEnabled(name, enabled)` then `setScopes(name, selected)`: under a
   * theme and scheme both are stored and read back as given.
   */
  method StoreSelection(st: SwitcherCore.StateManager, name: string, enabled: bool, selected: seq<string>)
    requires SwitcherCore.Ready(st)
    modifies st.storage
    ensures SwitcherCore.Ready(st)
    ensures !st.Scoped() ==> st.storage.config == old(st.storage.config)
    ensures st.Scoped() ==> SwitcherCore.GetEnabled(st, name) == enabled && SwitcherCore.GetScopes(st, name) == selected
  {
    SwitcherCore.SetEnabled(st, name, enabled);
    SwitcherCore.SetScopes(st, name, selected);
  }

  /** `checkboxes.forEach(cb => cb.checked = v)`. */
  method SetAllChecked(boxes: seq<ScopeCheckbox>, v: bool)
    modifies boxes
    ensures forall i :: 0 <= i < |boxes| ==> boxes[i].checked == v
  {
    for i := 0 to |boxes|
      invariant forall j :: 0 <= j < i ==> boxes[j].checked == v
    {
      boxes[i].checked := v;
    }
  }

  /**
   * Clicking the toggle of a snippet with several scopes: the new state is on
   * exactly when no box was checked; every box takes the new state; the
   * selected scopes are all the boxes' scopes when on and none when off;
   * they and the state are stored, so a panel rebuilt from the store shows
   * every box as it is now; the toggle's `data-active` shows the new state.
   */
  method ToggleAllScopes(st: SwitcherCore.StateManager, name: string, boxes: seq<ScopeCheckbox>, toggle: Element)
      returns (newState: bool, selected: seq<string>)
    requires SwitcherCore.Ready(st)
    modifies boxes, toggle, st.storage
    ensures SwitcherCore.Ready(st)
    ensures newState <==> forall i :: 0 <= i < |boxes| ==> !old(boxes[i].checked)
    ensures forall i :: 0 <= i < |boxes| ==> boxes[i].checked == newState
    ensures selected == if newState then ScopesOf(boxes) else []
    ensures toggle.attrs == old(toggle.attrs)["data-active" := BoolText(newState)]
    ensures st.Scoped() ==> SwitcherCore.GetEnabled(st, name) == newState && SwitcherCore.GetScopes(st, name) == selected
    ensures st.Scoped() ==> forall i :: 0 <= i < |boxes| ==> PanelChecked(st, name, boxes[i].scope) == boxes[i].checked
  {
    var anyChecked := AnyChecked(boxes);
    newState := !anyChecked;
    SetAllChecked(boxes, newState);
    selected := if newState then ScopesOf(boxes) else [];
    StoreSelection(st, name, newState, selected);
    toggle.attrs := toggle.attrs["data-active" := BoolText(newState)];
  }

  /**
   * Changing one scope checkbox: the snippet is enabled exactly when at least
   * one box is checked, and the checked boxes' scopes, in order, are stored;
   * when the scopes are distinct a panel rebuilt from the store shows every
   * box as it is; the toggle, when there is one, shows the new state.
   */
  method ScopeCheckboxChanged(st: SwitcherCore.StateManager, name: string, boxes: seq<ScopeCheckbox>, toggle: Element?)
      returns (newEnabled: bool, selected: seq<string>)
    requires SwitcherCore.Ready(st)
    modifies st.storage, toggle
    ensures SwitcherCore.Ready(st)
    ensures selected == CheckedScopes(boxes)
    ensures newEnabled <==> AnyChecked(boxes)
    ensures toggle != null ==> toggle.attrs == old(toggle.attrs)["data-active" := BoolText(newEnabled)]
    ensures st.Scoped() ==> SwitcherCore.GetEnabled(st, name) == newEnabled && SwitcherCore.GetScopes(st, name) == selected
    ensures st.Scoped() && DistinctScopes(boxes) ==>
      forall i :: 0 <= i < |boxes| ==> PanelChecked(st, name, boxes[i].scope) == boxes[i].checked
  {
    selected := CheckedScopes(boxes);
    newEnabled := |selected| > 0;
    CheckedScopesSpec(boxes);
    StoreSelection(st, name, newEnabled, selected);
    if toggle != null {
      toggle.attrs := toggle.attrs["data-active" := BoolText(newEnabled)];
    }
    if st.Scoped() && DistinctScopes(boxes) {
      RebuiltPanel(boxes, SwitcherCore.GetEnabled(st, name), SwitcherCore.GetScopes(st, name));
    }
  }

  /**
   * When the stored flag is "some box is checked" and the stored scopes are
   * the checked boxes' scopes, a panel rebuilt from them checks exactly the
   * boxes that are checked, provided the scopes are distinct.
   */
  lemma {:induction false} RebuiltPanel(boxes: seq<ScopeCheckbox>, enabled: bool, scopes: seq<string>)
    requires DistinctScopes(boxes)
    requires enabled == AnyChecked(boxes) && scopes == CheckedScopes(boxes)
    ensures forall i :: 0 <= i < |boxes| ==> (enabled && boxes[i].scope in scopes) == boxes[i].checked
  {
    CheckedScopesSpec(boxes);
    forall i | 0 <= i < |boxes|
      ensures (enabled && boxes[i].scope in scopes) == boxes[i].checked
    {
      if boxes[i].scope in scopes {
        var j :| 0 <= j < |boxes| && boxes[j].checked && boxes[j].scope == boxes[i].scope;
        assert j == i;
      }
    }
  }

  /** The `Object.keys` of a snippet's scope map. */
  function ScopeNames(scopes: seq<(string, string)>): (r: seq<string>)
    ensures |r| == |scopes|
    ensures forall i :: 0 <= i < |scopes| ==> r[i] == scopes[i].0
  {
    if scopes == [] then [] else [scopes[0].0] + ScopeNames(scopes[1..])
  }

  /** `Object.keys(snippet.scopes)[0] || 'all'`. */
  function DefaultScope(scopes: seq<(string, string)>): (r: string)
    ensures scopes != [] && scopes[0].0 != "" ==> r == scopes[0].0
    ensures scopes == [] || scopes[0].0 == "" ==> r == "all"
  {
    if scopes != [] && scopes[0].0 != "" then scopes[0].0 else "all"
  }

  /**
   * Changing the checkbox of a snippet with a single scope. With a scope
   * panel, every box takes the checkbox's state and the selection is all the
   * boxes' scopes or none; without one, it is the snippet's first scope key
   * (or `all`) or none. The state and selection are stored.
   */
  method CheckboxChanged(st: SwitcherCore.StateManager, snippet: SwitcherCore.Snippet, checked: bool, panel: Option<seq<ScopeCheckbox>>)
      returns (selected: seq<string>)
    requires SwitcherCore.Ready(st)
    modifies st.storage, if panel.Some? then panel.value else []
    ensures SwitcherCore.Ready(st)
    ensures panel.Some? ==> forall i :: 0 <= i < |panel.value| ==> panel.value[i].checked == checked
    ensures panel.Some? ==> selected == if checked then ScopesOf(panel.value) else []
    ensures panel.None? ==> selected == if checked then [DefaultScope(snippet.scopes)] else []
    ensures st.Scoped() ==> SwitcherCore.GetEnabled(st, snippet.name) == checked && SwitcherCore.GetScopes(st, snippet.name) == selected
    ensures st.Scoped() && panel.Some? ==>
      forall i :: 0 <= i < |panel.value| ==> PanelChecked(st, snippet.name, panel.value[i].scope) == panel.value[i].checked
  {
    match panel {
      case Some(boxes) =>
        SetAllChecked(boxes, checked);
        selected := if checked then ScopesOf(boxes) else [];
      case None =>
        var defaultScope := DefaultScope(snippet.scopes);
        selected := if checked then [defaultScope] else [];
    }
    StoreSelection(st, snippet.name, checked, selected);
  }

  // ---------------------------------------------------------------------------
  // Snippet variable inputs
  // ---------------------------------------------------------------------------

  /** `meta.type || 'number'`: the type of a text or number input. */
  function InputType(meta: VarMeta): string {
    if Present(meta.varType) then meta.varType.value else "number"
  }

  /** `meta.unit || ''`. */
  function UnitOf(meta: VarMeta): string {
    if Present(meta.unit) then meta.unit.value else ""
  }

  /**
   * The value an input shows: a truthy saved value with the first
   * occurrence of the unit removed, else the default, else empty.
   */
  function InputValue(saved: Option<string>, meta: VarMeta): (r: string)
    ensures Present(saved) ==> r == ReplaceFirst(saved.value, UnitOf(meta), "")
    ensures !Present(saved) ==> r == meta.default.GetOr("")
  {
    if Present(saved) then ReplaceFirst(saved.value, UnitOf(meta), "")
    else meta.default.GetOr("")
  }

  /**
   * The value a variable input shows under the current theme and scheme, or
   * `None` when there is none and a placeholder is built instead.
   */
  function VarInputValue(st: SwitcherCore.StateManager, snippetName: string, varName: string, meta: VarMeta): (r: Option<string>)
    reads st, st.storage
    ensures r.None? <==> !st.Scoped()
    ensures r.Some? ==> (r.value ==
      InputValue(st.storage.Get(GetKey("snippetVar", [st.currentTheme.s, st.currentScheme.s, snippetName, varName])), meta))
  {
    if !st.Scoped() then None
    else Some(InputValue(st.storage.Get(GetKey("snippetVar", [st.currentTheme.s, st.currentScheme.s, snippetName, varName])), meta))
  }

  /**
   * The value stored on change, as written: the unit is appended only when
   * the type is given as exactly `number`.
   */
  function StoredValueAsWritten(value: string, meta: VarMeta): (r: string)
    ensures meta.varType == Some("number") && Present(meta.unit) ==> r == value + meta.unit.value
    ensures !(meta.varType == Some("number") && Present(meta.unit)) ==> r == value
  {
    if meta.varType == Some("number") && Present(meta.unit) then value + meta.unit.value else value
  }

  /**
   * The value stored on change, corrected: the unit is appended whenever
   * the input is a number input, including the default input type.
   */
  function StoredValue(value: string, meta: VarMeta): (r: string)
    ensures InputType(meta) == "number" ==> r == value + UnitOf(meta)
    ensures InputType(meta) != "number" ==> r == value
  {
    if InputType(meta) == "number" && Present(meta.unit) then value + meta.unit.value else value
  }

  /** Removing the first occurrence of `u` from `v + u` gives `v` when no character of `v` starts `u`. */
  lemma {:induction false} StripAppended(v: string, u: string)
    requires u != []
    requires forall k :: 0 <= k < |v| ==> v[k] != u[0]
    ensures ReplaceFirst(v + u, u, "") == v
  {
    var s := v + u;
    assert OccursAt(s, u, |v|);
    forall j | 0 <= j < |v|
      ensures !OccursAt(s, u, j)
    {
      if j + |u| <= |s| {
        assert s[j..j + |u|][0] == s[j] == v[j];
      }
    }
    assert IndexOf(s, u) == Some(|v|);
    assert s[..|v|] == v;
  }

  /**
   * For a number input, the corrected store is undone by what the input
   * shows: a non-empty entered value whose characters never start the unit
   * is shown again as entered.
   */
  lemma {:induction false} StoredValueShown(value: string, meta: VarMeta)
    requires InputType(meta) == "number"
    requires value != []
    requires forall k :: 0 <= k < |value| ==> UnitOf(meta) == [] || value[k] != UnitOf(meta)[0]
    ensures InputValue(Some(StoredValue(value, meta)), meta) == value
  {
    var u := UnitOf(meta);
    if u == [] {
      assert IndexOf(value, "") == Some(0);
      assert value[..0] + "" + value[0..] == value;
    } else {
      StripAppended(value, u);
    }
  }

  /**
   * As written, a variable without a declared type is edited in a number
   * input whose unit is stripped when shown but not appended when stored:
   * `12px` is shown as `12` and stored back as `12`.
   */
  lemma {:induction false} UntypedUnitLost()
    ensures var meta := VarMeta(None, Some("px"), None);
      && InputType(meta) == "number"
      && InputValue(Some("12px"), meta) == "12"
      && StoredValueAsWritten("12", meta) == "12"
      && StoredValue("12", meta) == "12px"
  {
    var meta := VarMeta(None, Some("px"), None);
    StripAppended("12", "px");
    assert "12" + "px" == "12px";
  }

  // ---------------------------------------------------------------------------
  // Highlighting the active theme and scheme
  // ---------------------------------------------------------------------------

  /** The `data-active` an element gets: whether its attribute `attr` equals `value`. */
  function ActiveMark(attrs: map<string, string>, attr: string, value: JsStr): string {
    BoolText(AttrOf(attrs, attr) == value)
  }

  /**
   * Every element's `data-active` becomes `"true"` exactly when its attribute
   * `attr` equals `value` (an absent attribute is `null`), and `"false"`
   * otherwise; nothing else changes.
   */
  method MarkActive(els: seq<Element>, attr: string, value: JsStr)
    requires attr != "data-active"
    modifies els
    ensures forall e :: e in els ==> e.attrs == old(e.attrs)["data-active" := ActiveMark(old(e.attrs), attr, value)]
  {
    for i := 0 to |els|
      invariant forall e :: e in els[..i] ==> e.attrs == old(e.attrs)["data-active" := ActiveMark(old(e.attrs), attr, value)]
      invariant forall e :: e in els && e !in els[..i] ==> e.attrs == old(e.attrs)
    {
      var e := els[i];
      var isActive := e.Attr(attr) == value;
      e.attrs := e.attrs["data-active" := BoolText(isActive)];
      assert els[..i + 1] == els[..i] + [e];
    }
    assert els[..|els|] == els;
  }

  /** `highlightActiveTheme`: the main entries whose `data-theme` is the theme are active. */
  method HighlightActiveTheme(mains: seq<Element>, themeName: JsStr)
    modifies mains
    ensures forall e :: e in mains ==> e.attrs == old(e.attrs)["data-active" := ActiveMark(old(e.attrs), "data-theme", themeName)]
  {
    MarkActive(mains, "data-theme", themeName);
  }

  /**
   * `highlightActiveScheme`: the scheme entries whose `data-scheme` is the
   * scheme are active; and when a theme and a different scheme are current,
   * the current theme's scheme list (if found) is expanded.
   */
  method HighlightActiveScheme(st: SwitcherCore.StateManager, entries: seq<Element>, schemeName: JsStr, family: Element?)
    requires family == null || family !in entries
    modifies entries, family
    ensures forall e :: e in entries ==> e.attrs == old(e.attrs)["data-active" := ActiveMark(old(e.attrs), "data-scheme", schemeName)]
    ensures family != null ==> (family.attrs ==
      if st.currentTheme.Truthy() && st.currentScheme.Truthy() && st.currentScheme != st.currentTheme
      then old(family.attrs)["data-expanded" := "true"] else old(family.attrs))
  {
    MarkActive(entries, "data-scheme", schemeName);
    if st.currentTheme.Truthy() && st.currentScheme.Truthy() && st.currentScheme != st.currentTheme && family != null {
      family.attrs := family.attrs["data-expanded" := "true"];
    }
  }

  /**
   * Highlighting a scheme marks a scheme entry built by `createThemeOption`
   * active exactly when its scheme is that scheme; an entry without a scheme
   * is active only for `null`.
   */
  lemma {:induction false} EntryActive(o: ThemeOption, schemeName: JsStr)
    ensures var attrs := OptionAttrs(o);
      ActiveMark(attrs, "data-scheme", schemeName) == "true" <==>
      (if o.scheme.Some? then schemeName == Str(o.scheme.value) else schemeName == Null)
  {
  }

  /** The attributes `createThemeOption` sets. */
  function OptionAttrs(o: ThemeOption): (r: map<string, string>)
    ensures "data-theme" in r && r["data-theme"] == o.theme
    ensures "data-scheme" in r <==> o.scheme.Some?
    ensures o.scheme.Some? ==> r["data-scheme"] == o.scheme.value
  {
    if o.scheme.Some? then map["data-theme" := o.theme, "data-scheme" := o.scheme.value]
    else map["data-theme" := o.theme]
  }
}
