/**
 * The single-file theme switcher (`plugins/Switcher/Switcher.js`): its
 * state over `localStorage`, the theme-and-scheme-scoped variable and
 * snippet flags, the value priority of `resolveValue`, `normalizeSnippet`,
 * the scheme selection of `apply`, and how a `storage` event is sorted
 * into what the page does about it. The scope rewrite of snippet CSS is in
 * module SnippetScopes.
 */
module Switcher {
  import opened Wrappers
  import opened JsStrings
  import opened SwitcherKeys
  import opened SwitcherJson
  import SwitcherCore

  /** A `storage` event the page dispatches to itself after changing a key. */
  datatype StorageEvent = StorageEvent(key: string, oldValue: Option<string>, newValue: string)

  /** A normalised snippet: a file name's scopes default to `{ all: "body" }`; `vars` is null when absent. */
  datatype SnippetRecord = SnippetRecord(name: string, file: string, scopes: seq<(string, string)>,
                                         vars: Option<seq<(string, VarMeta)>>)

  /**
   * `normalizeSnippet`: a file name is named after its first `.css` removed;
   * an object takes its name, else that of its file, and its file, else its
   * name (printed `undefined` when missing) with `.css`. An object with
   * neither a truthy name nor any file, and any value that is neither,
   * throw a TypeError.
   */
  function NormalizeSnippet(raw: RawSnippet): (r: Result<SnippetRecord>)
    ensures raw.RawOther? ==> r.Err?
    ensures raw.RawObject? ==> (r.Err? <==> !Present(raw.name) && raw.file.None?)
    ensures raw.RawString? ==> r.Ok? && r.value.file == raw.text && r.value.scopes == DefaultScopes && r.value.vars.None?
    ensures r.Ok? && raw.RawObject? ==>
      && r.value.scopes == raw.scopes.GetOr(DefaultScopes) && r.value.vars == raw.vars
      && (Present(raw.name) ==> r.value.name == raw.name.value)
      && (Present(raw.file) ==> r.value.file == raw.file.value)
  {
    match raw
    case RawString(s) => Ok(SnippetRecord(ReplaceFirst(s, ".css", ""), s, DefaultScopes, None))
    case RawObject(name, file, vars, scopes) =>
      if !Present(name) && file.None? then Err("TypeError")
      else
        var n := if Present(name) then name.value else ReplaceFirst(file.value, ".css", "");
        var f := if Present(file) then file.value else name.GetOr("undefined") + ".css";
        Ok(SnippetRecord(n, f, scopes.GetOr(DefaultScopes), vars))
    case RawOther => Err("TypeError")
  }

  /**
   * A listed entry a JavaScript test treats as true: all of them but the
   * empty file name (an entry that cannot be normalised is never found).
   */
  predicate RawTruthy(raw: RawSnippet) {
    !(raw.RawString? && raw.text == "")
  }

  /** A file name without dots but for its `.css` suffix is named after its stem. */
  lemma {:induction false} FileNameStem(stem: string)
    requires forall k :: 0 <= k < |stem| ==> stem[k] != '.'
    ensures NormalizeSnippet(RawString(stem + ".css")).value.name == stem
  {
    var s := stem + ".css";
    assert OccursAt(s, ".css", |stem|);
    var i := IndexOf(s, ".css").value;
    assert s[i] == ".css"[0];
    assert i == |stem|;
    assert s[..i] == stem;
  }

  /**
   * The two versions name snippets differently: `a.cssb` is `ab` here (the
   * first `.css` anywhere is removed) and stays `a.cssb` in the dev version
   * (only a trailing `.css` is); an object with neither name nor file throws
   * here and is `unnamed` there.
   */
  lemma {:induction false} NamingDiffersFromDev(s: string)
    requires s == "a.cssb"
    ensures NormalizeSnippet(RawString(s)).value.name == "ab"
    ensures SwitcherCore.NormalizeSnippet(RawString(s)).value.name == s
    ensures NormalizeSnippet(RawObject(None, None, None, None)).Err?
    ensures SwitcherCore.NormalizeSnippet(RawObject(None, None, None, None)).value.name == "unnamed"
  {
    InnerCssRemoved(s);
    InnerCssKept(s);
    SwitcherCore.UnnamedExample();
  }

  lemma {:induction false} InnerCssRemoved(s: string)
    requires s == "a.cssb"
    ensures NormalizeSnippet(RawString(s)).value.name == "ab"
  {
    assert !OccursAt(s, ".css", 0) by {
      assert s[0..4][0] == 'a';
    }
    assert OccursAt(s, ".css", 1);
    assert s[..1] + s[5..] == "ab";
  }

  lemma {:induction false} InnerCssKept(s: string)
    requires s == "a.cssb"
    ensures SwitcherCore.NormalizeSnippet(RawString(s)).value.name == s
  {
    assert LowerStr(s[2..]) != ".css" by {
      assert LowerStr(s[2..])[0] == Lower('c');
    }
    assert Trim(s) == s by {
      assert LeadingSpaces(s) == 0;
      assert TrailingSpaces(s) == 0;
    }
  }

  /** The first scheme of a theme, or undefined for a theme without schemes. */
  function First(schemes: seq<string>): JsStr {
    if schemes == [] then Undefined else Str(schemes[0])
  }

  /**
   * The scheme selection of `apply`: without a requested scheme, the saved
   * one if the theme lists it, else the first; a scheme the theme does not
   * list is replaced by the first.
   */
  method ChooseScheme(theme: Theme, requested: JsStr, saved: Option<string>) returns (scheme: JsStr)
    ensures scheme.Str? ==> scheme.s in theme.schemes
    ensures scheme.Undefined? <==> theme.schemes == []
    ensures requested.Truthy() && requested.s in theme.schemes ==> scheme == requested
    ensures requested.Truthy() && requested.s !in theme.schemes ==> scheme == First(theme.schemes)
    ensures !requested.Truthy() && saved.Some? && saved.value in theme.schemes ==> scheme == Str(saved.value)
    ensures !requested.Truthy() && !(saved.Some? && saved.value in theme.schemes) ==> scheme == First(theme.schemes)
    ensures saved.None? ==> scheme == SwitcherCore.SchemeFor(theme, requested)
  {
    scheme := requested;
    if !scheme.Truthy() {
      scheme := if saved.Some? && saved.value in theme.schemes then Str(saved.value) else First(theme.schemes);
    }
    if !(scheme.Str? && scheme.s in theme.schemes) {
      scheme := First(theme.schemes);
    }
  }

  /** What a `storage` event makes the page do. */
  datatype SyncAction =
    | ThemeChanged(newTheme: string)
    | SchemeChanged(theme: JsStr, scheme: string)
    | VarChanged(varName: string, newValue: Option<string>)
    | SnippetChanged(snippet: SnippetRecord, enabled: bool, scopes: seq<string>)
    | SnippetVarChanged(snippetName: string, name: string, value: string, apply: bool)
    | NoAction
    | Throws

  /** The state of the switcher that the modelled operations read and write. */
  class SwitcherState {
    /** `localStorage`. */
    var store: map<string, string>
    var themes: seq<Theme>
    /** `colorSchemes[theme][scheme][varName]`. */
    var colorSchemes: map<string, map<string, map<string, string>>>
    var snippets: seq<RawSnippet>
    var currentTheme: JsStr
    var currentScheme: JsStr
    /** The storage events dispatched so far, oldest first. */
    var dispatched: seq<StorageEvent>

    constructor(stored: map<string, string>, themes: seq<Theme>,
                colorSchemes: map<string, map<string, map<string, string>>>, snippets: seq<RawSnippet>)
      ensures this.store == stored && this.themes == themes
      ensures this.colorSchemes == colorSchemes && this.snippets == snippets
      ensures currentTheme == Null && currentScheme == Null && dispatched == []
    {
      this.store := stored;
      this.themes := themes;
      this.colorSchemes := colorSchemes;
      this.snippets := snippets;
      currentTheme := Null;
      currentScheme := Null;
      dispatched := [];
    }

    /** `localStorage.getItem(key)`. */
    function Get(key: string): Option<string>
      reads this
    {
      if key in store then Some(store[key]) else None
    }

    /** Both a theme and a scheme are set, so scoped keys can be built. */
    predicate Scoped()
      reads this
    {
      currentTheme.Truthy() && currentScheme.Truthy()
    }

    function VarKey(varName: string): string
      reads this
      requires Scoped()
    {
      GetKey("cssVar", [currentTheme.s, currentScheme.s, varName])
    }

    /** `getThemeVar`: the user's value for the current theme and scheme; null when either is unset. */
    function GetThemeVar(varName: string): (r: Option<string>)
      reads this
      ensures !Scoped() ==> r.None?
      ensures Scoped() ==> r == Get(VarKey(varName))
    {
      if Scoped() then Get(VarKey(varName)) else None
    }

    /** Different variable names have different keys under the same theme and scheme. */
    lemma {:induction false} VarKeysDistinct(a: string, b: string)
      requires Scoped() && a != b
      ensures VarKey(a) != VarKey(b)
    {
      if VarKey(a) == VarKey(b) {
        ScopedKeyInjective("cssVar", currentTheme.s, currentScheme.s, a, b);
      }
    }

    /** `setThemeVar`: stores the value under the scoped key; without a theme and scheme, nothing changes. */
    method SetThemeVar(varName: string, value: string)
      modifies this`store
      ensures !Scoped() ==> store == old(store)
      ensures Scoped() ==> store == old(store)[VarKey(varName) := value]
      ensures Scoped() ==> GetThemeVar(varName) == Some(value)
      ensures forall v :: v != varName ==> GetThemeVar(v) == old(GetThemeVar(v))
    {
      if !Scoped() { return; }
      forall v | v != varName
        ensures VarKey(v) != VarKey(varName)
      {
        VarKeysDistinct(v, varName);
      }
      store := store[VarKey(varName) := value];
    }

    /** `removeThemeVar`: deletes the scoped key; without a theme and scheme, nothing changes. */
    method RemoveThemeVar(varName: string)
      modifies this`store
      ensures !Scoped() ==> store == old(store)
      ensures Scoped() ==> store == old(store) - {VarKey(varName)}
      ensures GetThemeVar(varName).None?
      ensures forall v :: v != varName ==> GetThemeVar(v) == old(GetThemeVar(v))
    {
      if !Scoped() { return; }
      forall v | v != varName
        ensures VarKey(v) != VarKey(varName)
      {
        VarKeysDistinct(v, varName);
      }
      store := store - {VarKey(varName)};
    }

    /** The current color scheme's value for a variable, if it has one. */
    function SchemeValue(varName: string): Option<string>
      reads this
    {
      if Scoped() && currentTheme.s in colorSchemes && currentScheme.s in colorSchemes[currentTheme.s]
         && varName in colorSchemes[currentTheme.s][currentScheme.s]
      then Some(colorSchemes[currentTheme.s][currentScheme.s][varName])
      else None
    }

    /**
     * `resolveValue`: the user's saved value if non-empty, else the scheme's
     * value if non-empty, else the stylesheet's computed value (which is
     * `""` when there is none).
     */
    function ResolveValue(varName: string, computed: string): (r: string)
      reads this
      ensures Present(GetThemeVar(varName)) ==> r == GetThemeVar(varName).value
      ensures !Present(GetThemeVar(varName)) && Present(SchemeValue(varName)) ==> r == SchemeValue(varName).value
      ensures !Present(GetThemeVar(varName)) && !Present(SchemeValue(varName)) ==> r == computed
    {
      var saved := GetThemeVar(varName);
      if Present(saved) then saved.value
      else
        var schemeValue := SchemeValue(varName);
        if Present(schemeValue) then schemeValue.value
        else computed
    }

    /** The resolved value is empty only when all three sources are. */
    lemma {:induction false} ResolveEmpty(varName: string, computed: string)
      ensures ResolveValue(varName, computed) == "" <==>
        !Present(GetThemeVar(varName)) && !Present(SchemeValue(varName)) && computed == ""
    {
    }

    /** `getEnabled`: the stored flag is `"1"`; false without a theme and scheme. */
    function GetEnabled(name: string): (r: bool)
      reads this
      ensures r <==> Scoped() && Get(EnabledKey(currentTheme.s, currentScheme.s, name)) == Some("1")
    {
      Scoped() && Get(EnabledKey(currentTheme.s, currentScheme.s, name)) == Some("1")
    }

    /**
     * `getScopes`: the stored list parsed as JSON, which throws on text that
     * does not parse; `["all"]` without a theme and scheme or a non-empty
     * stored value.
     */
    function GetScopes(name: string): (r: Result<seq<string>>)
      reads this
      ensures !Scoped() ==> r == Ok(["all"])
      ensures Scoped() && !Present(Get(ScopesKey(currentTheme.s, currentScheme.s, name))) ==> r == Ok(["all"])
      ensures Scoped() && Present(Get(ScopesKey(currentTheme.s, currentScheme.s, name))) ==>
        r == Parse(Get(ScopesKey(currentTheme.s, currentScheme.s, name)).value)
    {
      if !Scoped() then Ok(["all"])
      else
        var raw := Get(ScopesKey(currentTheme.s, currentScheme.s, name));
        if Present(raw) then Parse(raw.value) else Ok(["all"])
    }

    /** One snippet's flag and scope keys differ from each other and from any other snippet's. */
    lemma {:induction false} SnippetKeysDistinct(a: string, b: string)
      requires Scoped()
      ensures EnabledKey(currentTheme.s, currentScheme.s, a) != ScopesKey(currentTheme.s, currentScheme.s, b)
      ensures a != b ==> EnabledKey(currentTheme.s, currentScheme.s, a) != EnabledKey(currentTheme.s, currentScheme.s, b)
      ensures a != b ==> ScopesKey(currentTheme.s, currentScheme.s, a) != ScopesKey(currentTheme.s, currentScheme.s, b)
    {
      var t, s := currentTheme.s, currentScheme.s;
      KindsDisjoint("snippetEnabled", "snippetScopes", [t, s, a], [t, s, b]);
      if a != b && EnabledKey(t, s, a) == EnabledKey(t, s, b) {
        ScopedKeyInjective("snippetEnabled", t, s, a, b);
      }
      if a != b && ScopesKey(t, s, a) == ScopesKey(t, s, b) {
        ScopedKeyInjective("snippetScopes", t, s, a, b);
      }
    }

    /**
     * `setEnabled`: stores the flag as `"1"`/`"0"` and the scopes as JSON,
     * then dispatches one storage event per key with its old and new value.
     * Afterwards `getEnabled` and `getScopes` give back what was set, and no
     * other snippet's flag or scopes change.
     */
    method SetEnabled(name: string, enabled: bool, scopes: seq<string>)
      modifies this`store, this`dispatched
      ensures !Scoped() ==> store == old(store) && dispatched == old(dispatched)
      ensures Scoped() ==>
        var ek := EnabledKey(currentTheme.s, currentScheme.s, name);
        var sk := ScopesKey(currentTheme.s, currentScheme.s, name);
        var flag := if enabled then "1" else "0";
        && store == old(store)[ek := flag][sk := Stringify(scopes)]
        && dispatched == old(dispatched) + [StorageEvent(ek, old(Get(ek)), flag),
                                            StorageEvent(sk, old(Get(sk)), Stringify(scopes))]
      ensures Scoped() ==> GetEnabled(name) == enabled && GetScopes(name) == Ok(scopes)
      ensures forall n :: n != name ==> GetEnabled(n) == old(GetEnabled(n)) && GetScopes(n) == old(GetScopes(n))
    {
      if !Scoped() { return; }
      var enabledKey := EnabledKey(currentTheme.s, currentScheme.s, name);
      var scopesKey := ScopesKey(currentTheme.s, currentScheme.s, name);
      var oldEnabled := Get(enabledKey);
      var oldScopes := Get(scopesKey);
      SnippetKeysDistinct(name, name);
      ParseStringify(scopes);
      StringifyNonEmpty(scopes);
      var flag := if enabled then "1" else "0";
      WriteSnippetKeys(name, flag, Stringify(scopes));
      dispatched := dispatched + [StorageEvent(enabledKey, oldEnabled, flag)];
      dispatched := dispatched + [StorageEvent(scopesKey, oldScopes, Stringify(scopes))];
    }

    /** The two `localStorage.setItem` calls of `setEnabled`; no other snippet's flag or scopes change. */
    method WriteSnippetKeys(name: string, flag: string, scopesText: string)
      requires Scoped()
      modifies this`store
      ensures store == old(store)[EnabledKey(currentTheme.s, currentScheme.s, name) := flag]
                                 [ScopesKey(currentTheme.s, currentScheme.s, name) := scopesText]
      ensures forall n :: n != name ==> GetEnabled(n) == old(GetEnabled(n)) && GetScopes(n) == old(GetScopes(n))
    {
      store := store[EnabledKey(currentTheme.s, currentScheme.s, name) := flag];
      store := store[ScopesKey(currentTheme.s, currentScheme.s, name) := scopesText];
      forall n | n != name
        ensures GetEnabled(n) == old(GetEnabled(n)) && GetScopes(n) == old(GetScopes(n))
      {
        SnippetKeysDistinct(n, name);
        SnippetKeysDistinct(name, n);
        assert Get(EnabledKey(currentTheme.s, currentScheme.s, n)) == old(Get(EnabledKey(currentTheme.s, currentScheme.s, n)));
        assert Get(ScopesKey(currentTheme.s, currentScheme.s, n)) == old(Get(ScopesKey(currentTheme.s, currentScheme.s, n)));
      }
    }

    /**
     * What the `storage` listener does with an event: follow a theme or
     * scheme change; with a theme and scheme set, re-apply a changed
     * variable, reload a snippet whose flag or scopes changed, or set a
     * changed snippet variable. A null key (as after `clear()`) throws once
     * the theme and scheme are set, as does a failing `normalizeSnippet` or
     * `JSON.parse`.
     */
    function ActionFor(key: Option<string>, newValue: Option<string>): SyncAction
      reads this
    {
      if key == Some(ThemeKey) then
        var newTheme := if Present(newValue) then newValue.value else "no-theme";
        if Str(newTheme) != currentTheme then ThemeChanged(newTheme) else NoAction
      else if key == Some(ColorSchemeKey) then
        if Present(newValue) && Str(newValue.value) != currentScheme then SchemeChanged(currentTheme, newValue.value)
        else NoAction
      else if !Scoped() then NoAction
      else if key.None? then Throws
      else KeyAction(key.value, newValue)
    }

    /** The listener's branches for a key once a theme and scheme are set. */
    function KeyAction(k: string, newValue: Option<string>): SyncAction
      reads this
      requires Scoped()
    {
      var t, s := currentTheme.s, currentScheme.s;
      var cssVarPrefix := ScopedPrefix(CssVarKind, t, s);
      var enabledPrefix := ScopedPrefix(EnabledKind, t, s);
      var scopesPrefix := ScopedPrefix(ScopesKind, t, s);
      var snippetVarPrefix := ScopedPrefix(SnippetVarKind, t, s);
      if StartsWith(k, cssVarPrefix) then VarChanged(ReplaceFirst(k, cssVarPrefix, ""), newValue)
      else if StartsWith(k, enabledPrefix) || StartsWith(k, scopesPrefix) then
        SnippetAction(ReplaceFirst(ReplaceFirst(k, enabledPrefix, ""), scopesPrefix, ""))
      else if StartsWith(k, snippetVarPrefix) then
        SnippetVarAction(ReplaceFirst(k, snippetVarPrefix, ""), newValue)
      else NoAction
    }

    /** A snippet's flag or scopes changed: reload it with its stored flag and scopes. */
    function SnippetAction(name: string): SyncAction
      reads this
    {
      match FindSnippet(snippets, name)
      case Err(_) => Throws
      case Ok(None) => NoAction
      case Ok(Some(i)) =>
        if !RawTruthy(snippets[i]) then NoAction
        else
          var norm := NormalizeSnippet(snippets[i]).value;
          match GetScopes(norm.name)
          case Err(_) => Throws
          case Ok(scopes) => SnippetChanged(norm, GetEnabled(norm.name), scopes)
    }

    /** A snippet variable changed: set it when the key splits and the value is non-empty. */
    function SnippetVarAction(remainder: string, newValue: Option<string>): SyncAction
      reads this
    {
      match SplitSnippetVarKey(snippets, remainder)
      case Err(_) => Throws
      case Ok(None) => NoAction
      case Ok(Some((snippetName, varName))) =>
        if snippetName == "" || varName == "" || !Present(newValue) then NoAction
        else SnippetVarChanged(snippetName, varName, newValue.value, GetEnabled(snippetName))
    }

    /** Writing the theme key or the scheme key: a removed theme means no theme, a removed scheme is ignored. */
    lemma {:induction false} SyncFixedKeys()
      ensures currentTheme != Str("no-theme") ==> ActionFor(Some(ThemeKey), None) == ThemeChanged("no-theme")
      ensures ActionFor(Some(ColorSchemeKey), None) == NoAction
      ensures Scoped() ==> ActionFor(None, None) == Throws
    {
    }

    /** The event of a variable key of the current theme and scheme re-applies that variable with the new value. */
    lemma {:induction false} SyncVarKey(varName: string, newValue: Option<string>)
      requires Scoped()
      ensures ActionFor(Some(VarKey(varName)), newValue) == VarChanged(varName, newValue)
    {
      VarKeyShape(currentTheme.s, currentScheme.s, varName);
    }

    /**
     * The event of a snippet's flag key reloads that snippet with its stored
     * flag and scopes, provided its name does not contain the scope-key prefix
     * (the listener strips both prefixes from the key).
     */
    lemma {:induction false} SyncFlagKey(name: string, newValue: Option<string>, i: nat, scopes: seq<string>)
      requires Scoped()
      requires !Includes(name, ScopedPrefix(ScopesKind, currentTheme.s, currentScheme.s))
      requires FindSnippet(snippets, name) == Ok(Some(i)) && GetScopes(name) == Ok(scopes)
      ensures ActionFor(Some(EnabledKey(currentTheme.s, currentScheme.s, name)), newValue) ==
        if snippets[i] == RawString("") then NoAction
        else SnippetChanged(NormalizeSnippet(snippets[i]).value, GetEnabled(name), scopes)
    {
      FlagKeyAction(name, newValue);
    }

    /** The event of a snippet's flag key is handled as a change of that snippet. */
    lemma {:induction false} FlagKeyAction(name: string, newValue: Option<string>)
      requires Scoped()
      requires !Includes(name, ScopedPrefix(ScopesKind, currentTheme.s, currentScheme.s))
      ensures ActionFor(Some(EnabledKey(currentTheme.s, currentScheme.s, name)), newValue) == SnippetAction(name)
    {
      var k := EnabledKey(currentTheme.s, currentScheme.s, name);
      FlagKeyShape(currentTheme.s, currentScheme.s, name);
      assert ActionFor(Some(k), newValue) == KeyAction(k, newValue);
    }

    /**
     * The event of a snippet variable's key sets that variable when the
     * snippet is the first listed whose name and a dash start the key's
     * remainder, and the new value is non-empty.
     */
    lemma {:induction false} SyncSnippetVarKey(i: nat, snippetName: string, varName: string, value: string)
      requires Scoped() && snippetName != "" && varName != ""
      requires i < |snippets| && NormalizeSnippet(snippets[i]).Ok? && NormalizeSnippet(snippets[i]).value.name == snippetName
      requires NoEarlierPrefix(snippets, snippetName + "-" + varName, i)
      ensures ActionFor(Some(GetKey("snippetVar", [currentTheme.s, currentScheme.s, snippetName, varName])), Some(value)) ==
        if value == "" then NoAction else SnippetVarChanged(snippetName, varName, value, GetEnabled(snippetName))
    {
      var t, s := currentTheme.s, currentScheme.s;
      var k := GetKey("snippetVar", [t, s, snippetName, varName]);
      SnippetVarKeyShape(t, s, snippetName, varName);
      assert ActionFor(Some(k), Some(value)) == KeyAction(k, Some(value));
      assert KeyAction(k, Some(value)) == SnippetVarAction(snippetName + "-" + varName, Some(value));
      SplitAtFirst(snippets, snippetName + "-" + varName, i);
      assert (snippetName + "-" + varName)[|snippetName| + 1..] == varName;
    }
  }

  /** A variable's key is neither fixed key, starts with the variable prefix, and leaves the variable name once it is stripped. */
  lemma {:induction false} VarKeyShape(t: string, s: string, varName: string)
    ensures var k := GetKey("cssVar", [t, s, varName]);
      && k != ThemeKey && k != ColorSchemeKey
      && StartsWith(k, ScopedPrefix(CssVarKind, t, s))
      && ReplaceFirst(k, ScopedPrefix(CssVarKind, t, s), "") == varName
  {
    var args := [t, s, varName];
    var k := GetKey("cssVar", args);
    KindsDisjoint("cssVar", "theme", args, []);
    KindsDisjoint("cssVar", "colorScheme", args, []);
    assert GetKey("theme", []) == ThemeKey && GetKey("colorScheme", []) == ColorSchemeKey;
    ScopedKeyFormat("cssVar", t, s, varName, "");
    assert GetKey("cssVar", [t, s, varName, ""]) == k;
    ReplacePrefix(k, ScopedPrefix(CssVarKind, t, s));
  }

  /**
   * A snippet's flag key is neither fixed key nor a variable key, starts with
   * the flag prefix, and leaves the snippet name once both snippet prefixes
   * are stripped, when the name does not contain the scope prefix.
   */
  lemma {:induction false} FlagKeyShape(t: string, s: string, name: string)
    requires !Includes(name, ScopedPrefix(ScopesKind, t, s))
    ensures var k := EnabledKey(t, s, name);
      && k != ThemeKey && k != ColorSchemeKey
      && !StartsWith(k, ScopedPrefix(CssVarKind, t, s))
      && StartsWith(k, ScopedPrefix(EnabledKind, t, s))
      && ReplaceFirst(ReplaceFirst(k, ScopedPrefix(EnabledKind, t, s), ""), ScopedPrefix(ScopesKind, t, s), "") == name
  {
    var args := [t, s, name];
    var k := EnabledKey(t, s, name);
    KindsDisjoint("snippetEnabled", "theme", args, []);
    KindsDisjoint("snippetEnabled", "colorScheme", args, []);
    assert GetKey("theme", []) == ThemeKey && GetKey("colorScheme", []) == ColorSchemeKey;
    KeyKind("snippetEnabled", args);
    PrefixChars(CssVarKind, t, s);
    DifferAt(k, ScopedPrefix(CssVarKind, t, s), 0);
    ScopedKeyFormat("snippetEnabled", t, s, name, "");
    assert GetKey("snippetEnabled", [t, s, name, ""]) == k;
    ReplacePrefix(k, ScopedPrefix(EnabledKind, t, s));
    IncludesIndexOf(name, ScopedPrefix(ScopesKind, t, s));
  }

  /** A snippet variable's key is none of the other kinds, and its remainder is the snippet name, a dash and the variable. */
  lemma {:induction false} SnippetVarKeyShape(t: string, s: string, snippetName: string, varName: string)
    ensures var k := GetKey("snippetVar", [t, s, snippetName, varName]);
      && k != ThemeKey && k != ColorSchemeKey
      && !StartsWith(k, ScopedPrefix(CssVarKind, t, s))
      && !StartsWith(k, ScopedPrefix(EnabledKind, t, s))
      && !StartsWith(k, ScopedPrefix(ScopesKind, t, s))
      && StartsWith(k, ScopedPrefix(SnippetVarKind, t, s))
      && ReplaceFirst(k, ScopedPrefix(SnippetVarKind, t, s), "") == snippetName + "-" + varName
  {
    var args := [t, s, snippetName, varName];
    var k := GetKey("snippetVar", args);
    KindsDisjoint("snippetVar", "theme", args, []);
    KindsDisjoint("snippetVar", "colorScheme", args, []);
    assert GetKey("theme", []) == ThemeKey && GetKey("colorScheme", []) == ColorSchemeKey;
    KeyKind("snippetVar", args);
    PrefixChars(CssVarKind, t, s);
    PrefixChars(EnabledKind, t, s);
    PrefixChars(ScopesKind, t, s);
    DifferAt(k, ScopedPrefix(CssVarKind, t, s), 0);
    DifferAt(k, ScopedPrefix(EnabledKind, t, s), 8);
    DifferAt(k, ScopedPrefix(ScopesKind, t, s), 8);
    ScopedKeyFormat("snippetVar", t, s, snippetName, varName);
    ReplacePrefix(k, ScopedPrefix(SnippetVarKind, t, s));
  }

  /** A key that differs from a prefix at one of its positions does not start with it. */
  lemma {:induction false} DifferAt(k: string, p: string, i: nat)
    requires i < |p| && i < |k| && k[i] != p[i]
    ensures !StartsWith(k, p)
  {
  }

  /** The entries before `i` normalise, to names other than `name`. */
  predicate NoEarlierName(raws: seq<RawSnippet>, name: string, i: nat)
    requires i <= |raws|
  {
    forall j :: 0 <= j < i ==> NormalizeSnippet(raws[j]).Ok? && NormalizeSnippet(raws[j]).value.name != name
  }

  /**
   * `snippets.find(s => normalizeSnippet(s).name === name)`, as the index of
   * the entry found: the first entry normalising to that name; the search
   * throws at an entry before it that cannot be normalised.
   */
  function FindSnippet(raws: seq<RawSnippet>, name: string): (r: Result<Option<nat>>)
    ensures r.Ok? && r.value.Some? ==>
      var i := r.value.value;
      i < |raws| && NoEarlierName(raws, name, i) &&
      NormalizeSnippet(raws[i]).Ok? && NormalizeSnippet(raws[i]).value.name == name
    ensures r == Ok(None) <==> NoEarlierName(raws, name, |raws|)
    ensures r.Err? ==> exists i :: 0 <= i < |raws| && NoEarlierName(raws, name, i) && NormalizeSnippet(raws[i]).Err?
    decreases |raws|
  {
    if raws == [] then Ok(None)
    else
      match NormalizeSnippet(raws[0])
      case Err(e) => assert NoEarlierName(raws, name, 0); Err(e)
      case Ok(norm) =>
        if norm.name == name then Ok(Some(0))
        else
          var r := FindSnippet(raws[1..], name);
          assert forall j :: 1 <= j < |raws| ==> raws[1..][j - 1] == raws[j];
          assert forall i :: 0 <= i < |raws| - 1 ==> (NoEarlierName(raws[1..], name, i) <==> NoEarlierName(raws, name, i + 1));
          match r
          case Err(e) => Err(e)
          case Ok(None) => Ok(None)
          case Ok(Some(i)) => Ok(Some(i + 1))
  }

  /**
   * The split of a snippet-variable key's remainder: at the first listed
   * snippet whose name and a dash start it, the rest being the variable
   * name; the loop throws at an entry before it that cannot be normalised.
   */
  function SplitSnippetVarKey(raws: seq<RawSnippet>, remainder: string): Result<Option<(string, string)>>
    decreases |raws|
  {
    if raws == [] then Ok(None)
    else
      match NormalizeSnippet(raws[0])
      case Err(e) => Err(e)
      case Ok(norm) =>
        if StartsWith(remainder, norm.name + "-") then Ok(Some((norm.name, remainder[|norm.name| + 1..])))
        else SplitSnippetVarKey(raws[1..], remainder)
  }

  /** The entries before `i` normalise, and none of their names with a dash starts `remainder`. */
  predicate NoEarlierPrefix(raws: seq<RawSnippet>, remainder: string, i: nat)
    requires i <= |raws|
  {
    forall j :: 0 <= j < i ==> NormalizeSnippet(raws[j]).Ok? && !StartsWith(remainder, NormalizeSnippet(raws[j]).value.name + "-")
  }

  /**
   * The split is made at the first entry whose name and a dash start the
   * remainder, which is that name, a dash and the variable name; it finds
   * nothing exactly when every entry normalises and none is such a prefix.
   */
  lemma {:induction false} SplitSnippetVarKeySpec(raws: seq<RawSnippet>, remainder: string)
    ensures SplitSnippetVarKey(raws, remainder) == Ok(None) <==> NoEarlierPrefix(raws, remainder, |raws|)
    ensures SplitSnippetVarKey(raws, remainder).Ok? && SplitSnippetVarKey(raws, remainder).value.Some? ==>
      var (n, v) := SplitSnippetVarKey(raws, remainder).value.value;
      remainder == n + "-" + v &&
      exists i :: 0 <= i < |raws| && NoEarlierPrefix(raws, remainder, i) && NormalizeSnippet(raws[i]).Ok? &&
        NormalizeSnippet(raws[i]).value.name == n
    decreases |raws|
  {
    if raws != [] {
      SplitSnippetVarKeySpec(raws[1..], remainder);
      assert forall j :: 1 <= j < |raws| ==> raws[1..][j - 1] == raws[j];
      match NormalizeSnippet(raws[0])
      case Err(_) =>
      case Ok(norm) =>
        if StartsWith(remainder, norm.name + "-") {
          var p := norm.name + "-";
          assert remainder == p + remainder[|p|..];
          assert NoEarlierPrefix(raws, remainder, 0);
        } else if SplitSnippetVarKey(raws[1..], remainder).Ok? && SplitSnippetVarKey(raws[1..], remainder).value.Some? {
          var i :| 0 <= i < |raws[1..]| && NoEarlierPrefix(raws[1..], remainder, i) && NormalizeSnippet(raws[1..][i]).Ok? &&
            NormalizeSnippet(raws[1..][i]).value.name == SplitSnippetVarKey(raws, remainder).value.value.0;
          assert NoEarlierPrefix(raws, remainder, i + 1);
        }
    }
  }

  /** The split is made at the first entry whose name and a dash start the remainder. */
  lemma {:induction false} SplitAtFirst(raws: seq<RawSnippet>, remainder: string, i: nat)
    requires i < |raws| && NormalizeSnippet(raws[i]).Ok? && NoEarlierPrefix(raws, remainder, i)
    requires StartsWith(remainder, NormalizeSnippet(raws[i]).value.name + "-")
    ensures var n := NormalizeSnippet(raws[i]).value.name;
      SplitSnippetVarKey(raws, remainder) == Ok(Some((n, remainder[|n| + 1..])))
    decreases i
  {
    if i > 0 {
      assert NoEarlierPrefix(raws[1..], remainder, i - 1) by {
        assert forall j :: 1 <= j < i ==> raws[1..][j - 1] == raws[j];
      }
      assert raws[1..][i - 1] == raws[i];
      assert NormalizeSnippet(raws[0]).Ok?;
      SplitAtFirst(raws[1..], remainder, i - 1);
    }
  }

  /** The `for (const s of state.snippets)` loop of the storage listener that splits a snippet-variable key. */
  method SplitSnippetVar(snippets: seq<RawSnippet>, remainder: string) returns (r: Result<Option<(string, string)>>)
    ensures r == SplitSnippetVarKey(snippets, remainder)
  {
    var i := 0;
    while i < |snippets|
      invariant 0 <= i <= |snippets|
      invariant SplitSnippetVarKey(snippets[i..], remainder) == SplitSnippetVarKey(snippets, remainder)
    {
      assert snippets[i..][1..] == snippets[i + 1..];
      var norm := NormalizeSnippet(snippets[i]);
      if norm.Err? {
        return Err(norm.error);
      }
      if StartsWith(remainder, norm.value.name + "-") {
        return Ok(Some((norm.value.name, remainder[|norm.value.name| + 1..])));
      }
      i := i + 1;
    }
    return Ok(None);
  }

  /**
   * Names that extend each other make snippet-variable keys ambiguous: with
   * snippets `a` and `a-b` listed in that order, the key of `a-b`'s variable
   * `c` splits as snippet `a`, variable `b-c`.
   */
  lemma {:induction false} PrefixNamesShadow()
    ensures SplitSnippetVarKey([RawString("a"), RawString("a-b")], "a-b-c") == Ok(Some(("a", "b-c")))
  {
    assert IndexOf("a", ".css").None? by {
      assert forall j: nat :: !OccursAt("a", ".css", j);
    }
    assert NormalizeSnippet(RawString("a")).value.name == "a";
    assert StartsWith("a-b-c", "a-");
    assert "a-b-c"[2..] == "b-c";
  }
}
