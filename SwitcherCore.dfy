/**
 * The core of the modular theme switcher: the storage manager over the
 * plugin configuration with its debounced save, the observable state with
 * change-only setters and listeners, applying a theme or no theme, and the
 * snippet records and their stored flags.
 */
module SwitcherCore {
  import opened Wrappers
  import opened JsStrings
  import opened SwitcherKeys
  import opened SwitcherJson

  // ---------------------------------------------------------------------------
  // The save timers of scheduleSave
  // ---------------------------------------------------------------------------

  /**
   * The timers behind `pendingSave`: the handle the field holds, the timers
   * still armed, the callbacks whose save is awaiting the host, and the next
   * handle to hand out (handles are positive, hence truthy).
   */
  datatype SaveTimers = SaveTimers(pending: Option<nat>, armed: set<nat>, inFlight: set<nat>, next: nat)

  function InitTimers(): SaveTimers {
    SaveTimers(None, {}, {}, 1)
  }

  /** `scheduleSave`: clear the pending timer (nothing, if it has fired) and arm a new one. */
  function Schedule(t: SaveTimers): SaveTimers {
    var armed := if t.pending.Some? then t.armed - {t.pending.value} else t.armed;
    SaveTimers(Some(t.next), armed + {t.next}, t.inFlight, t.next + 1)
  }

  /** An armed timer fires: its callback starts and awaits the save. */
  function Fire(t: SaveTimers, id: nat): SaveTimers
    requires id in t.armed
  {
    SaveTimers(t.pending, t.armed - {id}, t.inFlight + {id}, t.next)
  }

  /** The save of callback `id` settles and the callback, as written, sets `pendingSave` to null. */
  function CompleteAsWritten(t: SaveTimers, id: nat): SaveTimers
    requires id in t.inFlight
  {
    SaveTimers(None, t.armed, t.inFlight - {id}, t.next)
  }

  /** The save settles and the callback forgets `pendingSave` only if it still holds its own handle. */
  function Complete(t: SaveTimers, id: nat): SaveTimers
    requires id in t.inFlight
  {
    SaveTimers(if t.pending == Some(id) then None else t.pending, t.armed, t.inFlight - {id}, t.next)
  }

  /** `forceSave`'s first step: clear and forget the pending timer. */
  function ForceClear(t: SaveTimers): SaveTimers {
    var armed := if t.pending.Some? then t.armed - {t.pending.value} else t.armed;
    SaveTimers(None, armed, t.inFlight, t.next)
  }

  /** Every armed timer is the one `pendingSave` holds, and handles are fresh. */
  ghost predicate TimersOk(t: SaveTimers) {
    && (forall id :: id in t.armed ==> t.pending == Some(id))
    && (forall id :: id in t.armed ==> id !in t.inFlight)
    && (forall id :: id in t.armed || id in t.inFlight ==> 0 < id < t.next)
    && (t.pending.Some? ==> 0 < t.pending.value < t.next)
    && 0 < t.next
  }

  /** Under the invariant at most one save timer is armed. */
  lemma {:induction false} AtMostOneArmed(t: SaveTimers)
    requires TimersOk(t)
    ensures |t.armed| <= 1
    ensures t.armed != {} ==> t.armed == {t.pending.value}
  {
    if t.armed != {} {
      var id :| id in t.armed;
      assert t.armed == {id};
    }
  }

  /** Scheduling, firing, settling and force-clearing all keep the invariant. */
  lemma {:induction false} TimersPreserved(t: SaveTimers, id: nat)
    requires TimersOk(t)
    ensures TimersOk(Schedule(t)) && TimersOk(ForceClear(t))
    ensures id in t.armed ==> TimersOk(Fire(t, id))
    ensures id in t.inFlight ==> TimersOk(Complete(t, id))
  {
    if id in t.inFlight {
      var c := Complete(t, id);
      forall a | a in c.armed ensures c.pending == Some(a) {
        assert t.pending == Some(a);
      }
    }
  }

  /**
   * As written, settling a save that began before the last `set` forgets the
   * timer that `set` armed, so the next `set` arms a second one beside it.
   */
  lemma {:induction false} TwoTimersAsWritten()
    ensures var t1 := Schedule(InitTimers());
      var t2 := Fire(t1, 1);
      var t3 := Schedule(t2);
      var t4 := CompleteAsWritten(t3, 1);
      var t5 := Schedule(t4);
      && TimersOk(t3) && !TimersOk(t4) && t5.armed == {2, 3}
  {
    var t4 := CompleteAsWritten(Schedule(Fire(Schedule(InitTimers()), 1)), 1);
    assert 2 in t4.armed && t4.pending == None;
  }

  // ---------------------------------------------------------------------------
  // StorageManager
  // ---------------------------------------------------------------------------

  /** The set of a list's elements. */
  function Elements(xs: seq<string>): (r: set<string>)
    ensures forall x :: x in r <==> x in xs
  {
    set x | x in xs
  }

  /** The plugin configuration as a map, with its debounced save. */
  class StorageManager {
    var config: map<string, JsStr>
    var pendingSave: Option<nat>
    var armed: set<nat>
    var inFlight: set<nat>
    var nextTimer: nat

    function Timers(): SaveTimers
      reads this
    {
      SaveTimers(pendingSave, armed, inFlight, nextTimer)
    }

    ghost predicate Valid()
      reads this
    {
      TimersOk(Timers())
    }

    /** The manager once `initialize` has loaded a configuration (or fallen back to `{}`). */
    constructor (loaded: map<string, JsStr>)
      ensures config == loaded && Timers() == InitTimers() && Valid()
    {
      config := loaded;
      pendingSave := None;
      armed := {};
      inFlight := {};
      nextTimer := 1;
    }

    /** `get`: the stored value, or null when it is absent or falsy. */
    function Get(key: string): (r: Option<string>)
      reads this
      ensures r.Some? <==> key in config && config[key].Truthy()
      ensures r.Some? ==> config[key] == Str(r.value)
    {
      if key in config && config[key].Truthy() then Some(config[key].s) else None
    }

    method ScheduleSave()
      requires Valid()
      modifies this`pendingSave, this`armed, this`nextTimer
      ensures Valid() && Timers() == Schedule(old(Timers()))
    {
      TimersPreserved(Timers(), 0);
      if pendingSave.Some? {
        armed := armed - {pendingSave.value};
      }
      pendingSave := Some(nextTimer);
      armed := armed + {nextTimer};
      nextTimer := nextTimer + 1;
    }

    method Set(key: string, value: JsStr)
      requires Valid()
      modifies this
      ensures Valid() && config == old(config)[key := value] && Timers() == Schedule(old(Timers()))
      ensures value.Truthy() ==> Get(key) == Some(value.s)
    {
      config := config[key := value];
      ScheduleSave();
    }

    method Remove(key: string)
      requires Valid()
      modifies this
      ensures Valid() && config == old(config) - {key} && Timers() == Schedule(old(Timers()))
      ensures Get(key) == None
    {
      config := config - {key};
      ScheduleSave();
    }

    /** `batchSet`: `Object.assign` of the updates, one save scheduled. */
    method BatchSet(updates: map<string, JsStr>)
      requires Valid()
      modifies this
      ensures Valid() && config == old(config) + updates && Timers() == Schedule(old(Timers()))
    {
      config := config + updates;
      ScheduleSave();
    }

    /** `batchRemove`: every listed key is deleted, one save scheduled. */
    method BatchRemove(keys: seq<string>)
      requires Valid()
      modifies this
      ensures Valid() && config == old(config) - Elements(keys) && Timers() == Schedule(old(Timers()))
    {
      var i := 0;
      while i < |keys|
        invariant 0 <= i <= |keys|
        invariant config == old(config) - Elements(keys[..i])
        invariant Timers() == old(Timers())
      {
        assert Elements(keys[..i + 1]) == Elements(keys[..i]) + {keys[i]} by {
          assert keys[..i + 1] == keys[..i] + [keys[i]];
        }
        config := config - {keys[i]};
        i := i + 1;
      }
      assert keys[..i] == keys;
      ScheduleSave();
    }

    /** A save timer fires and its callback starts awaiting the host. */
    method FireSave(id: nat)
      requires Valid() && id in armed
      modifies this`armed, this`inFlight
      ensures Valid() && Timers() == Fire(old(Timers()), id)
    {
      TimersPreserved(Timers(), id);
      armed := armed - {id};
      inFlight := inFlight + {id};
    }

    /** The awaited save settles; the callback forgets only its own handle. */
    method SaveSettled(id: nat)
      requires Valid() && id in inFlight
      modifies this`pendingSave, this`inFlight
      ensures Valid() && Timers() == Complete(old(Timers()), id)
    {
      TimersPreserved(Timers(), id);
      if pendingSave == Some(id) {
        pendingSave := None;
      }
      inFlight := inFlight - {id};
    }

    /** `forceSave`: the pending timer is cleared; the save itself goes to the host. */
    method ForceSave()
      requires Valid()
      modifies this`pendingSave, this`armed
      ensures Valid() && Timers() == ForceClear(old(Timers())) && config == old(config)
    {
      TimersPreserved(Timers(), 0);
      if pendingSave.Some? {
        armed := armed - {pendingSave.value};
        pendingSave := None;
      }
    }

    /** `getKeysMatching`: the stored keys that contain the pattern. */
    function KeysMatching(pattern: string): (r: set<string>)
      reads this
      ensures forall k :: k in r <==> k in config && Includes(k, pattern)
    {
      set k | k in config && Includes(k, pattern)
    }
  }

  // ---------------------------------------------------------------------------
  // StateManager
  // ---------------------------------------------------------------------------

  /** A subscribed callback, known by its identity and whether calling it throws. */
  datatype Listener = Listener(id: nat, throws: bool)

  /** One call of a listener with the notified value. */
  datatype Call = Call(listener: nat, key: string, value: JsStr)

  lemma {:induction false} AppendAssoc<T>(a: seq<T>, b: seq<T>, c: seq<T>)
    ensures a + b + c == a + (b + c)
  {
  }

  /** The calls `notify` makes for one list of listeners. */
  function CallsFor(ls: seq<Listener>, key: string, value: JsStr): seq<Call>
    decreases |ls|
  {
    if ls == [] then [] else CallsFor(ls[..|ls| - 1], key, value) + [Call(ls[|ls| - 1].id, key, value)]
  }

  /** The listeners of one list whose call throws, reported on the console. */
  function Failures(ls: seq<Listener>): seq<nat>
    decreases |ls|
  {
    if ls == [] then []
    else Failures(ls[..|ls| - 1]) + (if ls[|ls| - 1].throws then [ls[|ls| - 1].id] else [])
  }

  /**
   * Every listener is called exactly once, in subscription order, with the
   * value: a listener that throws stops nothing.
   */
  lemma {:induction false} CallsForSpec(ls: seq<Listener>, key: string, value: JsStr)
    ensures |CallsFor(ls, key, value)| == |ls|
    ensures forall i :: 0 <= i < |ls| ==> CallsFor(ls, key, value)[i] == Call(ls[i].id, key, value)
    decreases |ls|
  {
    if ls != [] {
      CallsForSpec(ls[..|ls| - 1], key, value);
    }
  }

  /** The first theme with the name (`themes.find`). */
  function FindTheme(themes: seq<Theme>, name: string): (r: Option<Theme>)
    ensures r.Some? ==> r.value in themes && r.value.name == name
    ensures r.None? ==> forall t :: t in themes ==> t.name != name
  {
    if themes == [] then None
    else if themes[0].name == name then Some(themes[0])
    else
      assert forall t :: t in themes[1..] ==> t in themes;
      FindTheme(themes[1..], name)
  }

  /** The theme found is the first one listed under that name. */
  lemma {:induction false} FindThemeFirst(themes: seq<Theme>, name: string, i: nat)
    requires i < |themes| && themes[i].name == name
    requires forall j :: 0 <= j < i ==> themes[j].name != name
    ensures FindTheme(themes, name) == Some(themes[i])
  {
    if i > 0 {
      assert forall j :: 0 <= j < i - 1 ==> themes[1..][j] == themes[j + 1];
      FindThemeFirst(themes[1..], name, i - 1);
    }
  }

  /** The observable state: current theme and scheme, and the listeners of each key. */
  class StateManager {
    const storage: StorageManager
    var themes: seq<Theme>
    var snippets: seq<RawSnippet>
    var currentTheme: JsStr
    var currentScheme: JsStr
    var listeners: map<string, seq<Listener>>
    /** The listener calls made so far. */
    var calls: seq<Call>
    /** The listeners whose call threw, as reported on the console. */
    var failures: seq<nat>

    constructor (s: StorageManager)
      ensures storage == s && themes == [] && snippets == [] && currentTheme == Null && currentScheme == Null
      ensures listeners == map[] && calls == [] && failures == []
    {
      storage := s;
      themes := [];
      snippets := [];
      currentTheme := Null;
      currentScheme := Null;
      listeners := map[];
      calls := [];
      failures := [];
    }

    function ListenersOf(key: string): seq<Listener>
      reads this
    {
      if key in listeners then listeners[key] else []
    }

    /** `subscribe`: the callback joins the end of its key's list. */
    method Subscribe(key: string, l: Listener)
      modifies this`listeners
      ensures ListenersOf(key) == old(ListenersOf(key)) + [l]
      ensures forall k :: k != key ==> ListenersOf(k) == old(ListenersOf(k))
    {
      listeners := listeners[key := ListenersOf(key) + [l]];
    }

    /** `notify`: each listener of the key is called in turn; a throw is caught and reported. */
    method Notify(key: string, value: JsStr)
      modifies this`calls, this`failures
      ensures calls == old(calls) + CallsFor(ListenersOf(key), key, value)
      ensures failures == old(failures) + Failures(ListenersOf(key))
    {
      var ls := ListenersOf(key);
      var i := 0;
      while i < |ls|
        invariant 0 <= i <= |ls|
        invariant calls == old(calls) + CallsFor(ls[..i], key, value)
        invariant failures == old(failures) + Failures(ls[..i])
      {
        assert ls[..i + 1][..i] == ls[..i];
        calls := calls + [Call(ls[i].id, key, value)];
        if ls[i].throws {
          failures := failures + [ls[i].id];
        }
        i := i + 1;
      }
      assert ls[..i] == ls;
    }

    /** The `currentTheme` setter: a different value is stored and notified; an equal one does nothing. */
    method SetCurrentTheme(value: JsStr)
      modifies this`currentTheme, this`calls, this`failures
      ensures currentTheme == value
      ensures calls == old(calls) + (if old(currentTheme) != value then CallsFor(ListenersOf("currentTheme"), "currentTheme", value) else [])
      ensures failures == old(failures) + (if old(currentTheme) != value then Failures(ListenersOf("currentTheme")) else [])
    {
      if currentTheme != value {
        currentTheme := value;
        Notify("currentTheme", value);
      }
    }

    /** The `currentScheme` setter, likewise. */
    method SetCurrentScheme(value: JsStr)
      modifies this`currentScheme, this`calls, this`failures
      ensures currentScheme == value
      ensures calls == old(calls) + (if old(currentScheme) != value then CallsFor(ListenersOf("currentScheme"), "currentScheme", value) else [])
      ensures failures == old(failures) + (if old(currentScheme) != value then Failures(ListenersOf("currentScheme")) else [])
    {
      if currentScheme != value {
        currentScheme := value;
        Notify("currentScheme", value);
      }
    }

    /**
     * The listener calls of setting the theme and then the scheme: each
     * setter notifies its listeners only when the value changes.
     */
    function SettingCalls(theme: JsStr, scheme: JsStr): seq<Call>
      reads this
    {
      (if currentTheme != theme then CallsFor(ListenersOf("currentTheme"), "currentTheme", theme) else []) +
      (if currentScheme != scheme then CallsFor(ListenersOf("currentScheme"), "currentScheme", scheme) else [])
    }

    /** The listeners those calls report as throwing. */
    function SettingFailures(theme: JsStr, scheme: JsStr): seq<nat>
      reads this
    {
      (if currentTheme != theme then Failures(ListenersOf("currentTheme")) else []) +
      (if currentScheme != scheme then Failures(ListenersOf("currentScheme")) else [])
    }

    /** `currentTheme = theme; currentScheme = scheme;`, through the two setters. */
    method SetBoth(theme: JsStr, scheme: JsStr)
      modifies this`currentTheme, this`currentScheme, this`calls, this`failures
      ensures currentTheme == theme && currentScheme == scheme
      ensures calls == old(calls) + old(SettingCalls(theme, scheme))
      ensures failures == old(failures) + old(SettingFailures(theme, scheme))
    {
      ghost var themeCalls := if currentTheme != theme then CallsFor(ListenersOf("currentTheme"), "currentTheme", theme) else [];
      ghost var themeFailures := if currentTheme != theme then Failures(ListenersOf("currentTheme")) else [];
      SetCurrentTheme(theme);
      ghost var schemeCalls := if currentScheme != scheme then CallsFor(ListenersOf("currentScheme"), "currentScheme", scheme) else [];
      ghost var schemeFailures := if currentScheme != scheme then Failures(ListenersOf("currentScheme")) else [];
      assert old(SettingCalls(theme, scheme)) == themeCalls + schemeCalls;
      assert old(SettingFailures(theme, scheme)) == themeFailures + schemeFailures;
      SetCurrentScheme(scheme);
      assert calls == old(calls) + themeCalls + schemeCalls;
      AppendAssoc(old(calls), themeCalls, schemeCalls);
      AppendAssoc(old(failures), themeFailures, schemeFailures);
      assert failures == old(failures) + themeFailures + schemeFailures;
    }

    /** Both a theme and a scheme are set (truthy). */
    predicate Scoped()
      reads this
    {
      currentTheme.Truthy() && currentScheme.Truthy()
    }

    /** The storage key of a theme-scoped variable under the current theme and scheme. */
    function VarKey(varName: string): string
      reads this
      requires Scoped()
    {
      GetKey("cssVar", [currentTheme.s, currentScheme.s, varName])
    }

    /** `getThemeVar`: null unless a theme and a scheme are set, else the stored value. */
    function GetThemeVar(varName: string): (r: Option<string>)
      reads this, storage
      ensures !Scoped() ==> r == None
      ensures Scoped() ==> r == storage.Get(VarKey(varName))
    {
      if !Scoped() then None else storage.Get(VarKey(varName))
    }

    /** `setThemeVar`: writes the scoped key, or nothing when no theme and scheme are set. */
    method SetThemeVar(varName: string, value: JsStr)
      requires storage.Valid()
      modifies storage
      ensures storage.Valid()
      ensures !Scoped() ==> storage.config == old(storage.config) && storage.Timers() == old(storage.Timers())
      ensures Scoped() ==> storage.config == old(storage.config)[VarKey(varName) := value]
      ensures Scoped() && value.Truthy() ==> GetThemeVar(varName) == Some(value.s)
    {
      if !Scoped() { return; }
      storage.Set(VarKey(varName), value);
    }

    /** `removeThemeVar`: deletes the scoped key, or nothing when no theme and scheme are set. */
    method RemoveThemeVar(varName: string)
      requires storage.Valid()
      modifies storage
      ensures storage.Valid()
      ensures !Scoped() ==> storage.config == old(storage.config) && storage.Timers() == old(storage.Timers())
      ensures Scoped() ==> storage.config == old(storage.config) - {VarKey(varName)}
      ensures GetThemeVar(varName) == None
    {
      if !Scoped() { return; }
      storage.Remove(VarKey(varName));
    }

    /** `getAvailableSchemes`: the current theme's schemes, or none. */
    function AvailableSchemes(): (r: seq<string>)
      reads this
      ensures currentTheme.Str? && FindTheme(themes, currentTheme.s).Some? ==> r == FindTheme(themes, currentTheme.s).value.schemes
      ensures !currentTheme.Str? || FindTheme(themes, currentTheme.s).None? ==> r == []
    {
      if currentTheme.Str? then
        match FindTheme(themes, currentTheme.s)
        case Some(t) => t.schemes
        case None => []
      else []
    }
  }

  /** The state's storage is well formed and separate from the state object. */
  ghost predicate Ready(st: StateManager)
    reads st, st.storage
  {
    st.storage.Valid()
  }

  // ---------------------------------------------------------------------------
  // SnippetManager: snippet records and their stored flags
  // ---------------------------------------------------------------------------

  /** A normalised snippet. */
  datatype Snippet = Snippet(name: string, file: string, vars: seq<(string, VarMeta)>, scopes: seq<(string, string)>)

  /** `s.replace(/\.css$/i, '')`: a trailing `.css` in any ASCII case is dropped. */
  function StripCssSuffix(s: string): (r: string)
    ensures r == s || (|s| == |r| + 4 && s[..|r|] == r && LowerStr(s[|r|..]) == ".css")
    ensures |s| >= 4 && LowerStr(s[|s| - 4..]) == ".css" ==> r == s[..|s| - 4]
  {
    if |s| >= 4 && LowerStr(s[|s| - 4..]) == ".css" then s[..|s| - 4] else s
  }

  /** The name a file name gives: its suffix stripped, then trimmed. */
  function NameFromFile(file: string): string {
    Trim(StripCssSuffix(file))
  }

  /**
   * `normalizeSnippet`: a file name becomes a snippet named after it; an
   * object keeps its name, else takes it from its file, else is `unnamed`;
   * its file defaults to the name with `.css`; anything else is null.
   */
  function NormalizeSnippet(raw: RawSnippet): (r: Option<Snippet>)
    ensures raw.RawOther? <==> r.None?
    ensures raw.RawString? ==> r == Some(Snippet(NameFromFile(raw.text), raw.text, [], DefaultScopes))
    ensures raw.RawObject? ==>
      && r.value.name == (if Present(raw.name) then raw.name.value
                          else if Present(raw.file) then NameFromFile(raw.file.value)
                          else "unnamed")
      && r.value.file == (if Present(raw.file) then raw.file.value else r.value.name + ".css")
      && r.value.vars == raw.vars.GetOr([])
      && r.value.scopes == raw.scopes.GetOr(DefaultScopes)
  {
    match raw
    case RawString(s) => Some(Snippet(NameFromFile(s), s, [], DefaultScopes))
    case RawObject(name, file, vars, scopes) =>
      var n := if Present(name) then name.value else if Present(file) then NameFromFile(file.value) else "unnamed";
      Some(Snippet(n, if Present(file) then file.value else n + ".css", vars.GetOr([]), scopes.GetOr(DefaultScopes)))
    case RawOther => None
  }

  /** A file name `Fade.CSS` becomes the snippet `Fade`, with the default scopes. */
  lemma {:induction false} FileNameExample(f: string)
    requires f == "Fade.CSS"
    ensures NormalizeSnippet(RawString(f)) == Some(Snippet("Fade", f, [], DefaultScopes))
  {
    assert f[|f| - 4..] == ".CSS";
    assert LowerStr(".CSS") == ".css";
    assert f[..|f| - 4] == "Fade";
    assert Trim("Fade") == "Fade";
  }

  /** An object with neither name nor file is named `unnamed`, with file `unnamed.css`. */
  lemma {:induction false} UnnamedExample()
    ensures NormalizeSnippet(RawObject(None, None, None, None)) == Some(Snippet("unnamed", "unnamed.css", [], DefaultScopes))
  {
    assert "unnamed" + ".css" == "unnamed.css";
  }

  /** `getEnabled`: the stored flag is `"1"`; false when no theme and scheme are set. */
  function GetEnabled(st: StateManager, name: string): (r: bool)
    reads st, st.storage
    ensures r <==> st.Scoped() && st.storage.Get(EnabledKey(st.currentTheme.s, st.currentScheme.s, name)) == Some("1")
  {
    st.Scoped() && st.storage.Get(EnabledKey(st.currentTheme.s, st.currentScheme.s, name)) == Some("1")
  }

  /**
   * `getScopes`: the stored list, parsed; `["all"]` when no theme and scheme
   * are set, when nothing (or nothing truthy) is stored, or when the stored
   * text does not parse.
   */
  function GetScopes(st: StateManager, name: string): (r: seq<string>)
    reads st, st.storage
    ensures !st.Scoped() ==> r == ["all"]
    ensures st.Scoped() ==>
      var raw := st.storage.Get(ScopesKey(st.currentTheme.s, st.currentScheme.s, name));
      r == if raw.Some? && Parse(raw.value).Ok? then Parse(raw.value).value else ["all"]
  {
    if !st.Scoped() then ["all"]
    else
      match st.storage.Get(ScopesKey(st.currentTheme.s, st.currentScheme.s, name))
      case None => ["all"]
      case Some(raw) =>
        match Parse(raw)
        case Ok(xs) => xs
        case Err(_) => ["all"]
  }

  /** `setEnabled`: stores `"1"` or `"0"`; afterwards `getEnabled` answers the flag. */
  method SetEnabled(st: StateManager, name: string, enabled: bool)
    requires Ready(st)
    modifies st.storage
    ensures Ready(st)
    ensures !st.Scoped() ==> st.storage.config == old(st.storage.config)
    ensures st.Scoped() ==> (st.storage.config ==
      old(st.storage.config)[EnabledKey(st.currentTheme.s, st.currentScheme.s, name) := Str(if enabled then "1" else "0")])
    ensures st.Scoped() ==> GetEnabled(st, name) == enabled
    ensures GetScopes(st, name) == old(GetScopes(st, name))
  {
    if !st.Scoped() { return; }
    var key := EnabledKey(st.currentTheme.s, st.currentScheme.s, name);
    KindsDisjoint("snippetEnabled", "snippetScopes", [st.currentTheme.s, st.currentScheme.s, name], [st.currentTheme.s, st.currentScheme.s, name]);
    st.storage.Set(key, Str(if enabled then "1" else "0"));
  }

  /** `setScopes`: stores the list as JSON; afterwards `getScopes` answers the list. */
  method SetScopes(st: StateManager, name: string, scopes: seq<string>)
    requires Ready(st)
    modifies st.storage
    ensures Ready(st)
    ensures !st.Scoped() ==> st.storage.config == old(st.storage.config)
    ensures st.Scoped() ==> (st.storage.config ==
      old(st.storage.config)[ScopesKey(st.currentTheme.s, st.currentScheme.s, name) := Str(Stringify(scopes))])
    ensures st.Scoped() ==> GetScopes(st, name) == scopes
    ensures GetEnabled(st, name) == old(GetEnabled(st, name))
  {
    if !st.Scoped() { return; }
    var key := ScopesKey(st.currentTheme.s, st.currentScheme.s, name);
    KindsDisjoint("snippetEnabled", "snippetScopes", [st.currentTheme.s, st.currentScheme.s, name], [st.currentTheme.s, st.currentScheme.s, name]);
    ParseStringify(scopes);
    StringifyNonEmpty(scopes);
    st.storage.Set(key, Str(Stringify(scopes)));
  }

  /** The enabled and scope keys `disableAll` deletes for the snippets that normalise. */
  function SnippetKeys(raws: seq<RawSnippet>, theme: string, scheme: string): set<string>
    decreases |raws|
  {
    if raws == [] then {}
    else
      SnippetKeys(raws[..|raws| - 1], theme, scheme) +
      match NormalizeSnippet(raws[|raws| - 1])
      case None => {}
      case Some(sn) => {EnabledKey(theme, scheme, sn.name), ScopesKey(theme, scheme, sn.name)}
  }

  /** A snippet named in the list loses both its stored flag and its stored scopes. */
  lemma {:induction false} SnippetKeysCover(raws: seq<RawSnippet>, theme: string, scheme: string, i: nat)
    requires i < |raws| && NormalizeSnippet(raws[i]).Some?
    ensures var n := NormalizeSnippet(raws[i]).value.name;
      EnabledKey(theme, scheme, n) in SnippetKeys(raws, theme, scheme) &&
      ScopesKey(theme, scheme, n) in SnippetKeys(raws, theme, scheme)
    decreases |raws|
  {
    if i < |raws| - 1 {
      assert raws[..|raws| - 1][i] == raws[i];
      SnippetKeysCover(raws[..|raws| - 1], theme, scheme, i);
    }
  }

  /** The keys of one more snippet. */
  function KeysOf(raw: RawSnippet, theme: string, scheme: string): set<string> {
    match NormalizeSnippet(raw)
    case None => {}
    case Some(sn) => {EnabledKey(theme, scheme, sn.name), ScopesKey(theme, scheme, sn.name)}
  }

  lemma {:induction false} SnippetKeysStep(raws: seq<RawSnippet>, theme: string, scheme: string, i: nat)
    requires i < |raws|
    ensures SnippetKeys(raws[..i + 1], theme, scheme) == SnippetKeys(raws[..i], theme, scheme) + KeysOf(raws[i], theme, scheme)
  {
    assert raws[..i + 1][..i] == raws[..i];
  }

  /** Deleting two key sets one after the other deletes their union. */
  lemma {:induction false} MinusUnion(m: map<string, JsStr>, a: set<string>, b: set<string>)
    ensures (m - a) - b == m - (a + b)
  {
  }

  /** `disableAll`: with a theme and scheme set, every listed snippet's flag and scopes are deleted. */
  method DisableAll(st: StateManager)
    requires Ready(st)
    modifies st.storage
    ensures Ready(st)
    ensures !st.Scoped() ==> st.storage.config == old(st.storage.config)
    ensures st.Scoped() ==> st.storage.config == old(st.storage.config) - SnippetKeys(st.snippets, st.currentTheme.s, st.currentScheme.s)
  {
    if !st.Scoped() { return; }
    var t, s := st.currentTheme.s, st.currentScheme.s;
    var raws := st.snippets;
    var storage := st.storage;
    ghost var start := storage.config;
    var i := 0;
    while i < |raws|
      invariant 0 <= i <= |raws|
      invariant storage.Valid()
      invariant storage.config == start - SnippetKeys(raws[..i], t, s)
    {
      SnippetKeysStep(raws, t, s, i);
      RemoveSnippetKeys(storage, raws[i], t, s);
      MinusUnion(start, SnippetKeys(raws[..i], t, s), KeysOf(raws[i], t, s));
      i := i + 1;
    }
    assert raws[..i] == raws;
  }

  /** One iteration of `disableAll`: the snippet's flag and scope keys are deleted, when it normalises. */
  method RemoveSnippetKeys(storage: StorageManager, raw: RawSnippet, t: string, s: string)
    requires storage.Valid()
    modifies storage
    ensures storage.Valid()
    ensures storage.config == old(storage.config) - KeysOf(raw, t, s)
  {
    var sn := NormalizeSnippet(raw);
    if sn.Some? {
      var e, k := EnabledKey(t, s, sn.value.name), ScopesKey(t, s, sn.value.name);
      storage.Remove(e);
      storage.Remove(k);
      MinusUnion(old(storage.config), {e}, {k});
      assert {e} + {k} == KeysOf(raw, t, s);
    }
  }

  // ---------------------------------------------------------------------------
  // ThemeManager
  // ---------------------------------------------------------------------------

  /** The scheme `apply` settles on: the requested one if the theme lists it, else the first (or undefined). */
  function SchemeFor(theme: Theme, requested: JsStr): (r: JsStr)
    ensures requested.Truthy() && requested.s in theme.schemes ==> r == requested
    ensures !(requested.Truthy() && requested.s in theme.schemes) ==>
      r == if theme.schemes == [] then Undefined else Str(theme.schemes[0])
    ensures r.Str? ==> r.s in theme.schemes
  {
    if requested.Truthy() && requested.s in theme.schemes then requested
    else if theme.schemes == [] then Undefined
    else Str(theme.schemes[0])
  }

  /**
   * The configuration after `applyNoTheme`: with a theme and a scheme set,
   * the snippets' flag and scope keys go; then the theme is saved as
   * `no-theme` and the saved scheme is deleted.
   */
  function NoThemeConfig(config: map<string, JsStr>, scoped: bool, snippets: seq<RawSnippet>, theme: JsStr, scheme: JsStr): map<string, JsStr>
    requires scoped ==> theme.Str? && scheme.Str?
  {
    ((if scoped then config - SnippetKeys(snippets, theme.s, scheme.s) else config)[ThemeKey := Str("no-theme")]) - {ColorSchemeKey}
  }

  /**
   * `applyNoTheme`: the snippets are disabled, the saved theme becomes
   * `no-theme`, the saved scheme is deleted and both current values become null.
   */
  method ApplyNoTheme(st: StateManager)
    requires Ready(st)
    modifies st`currentTheme, st`currentScheme, st`calls, st`failures, st.storage
    ensures Ready(st)
    ensures st.storage.config == NoThemeConfig(old(st.storage.config), old(st.Scoped()), old(st.snippets), old(st.currentTheme), old(st.currentScheme))
    ensures st.currentTheme == Null && st.currentScheme == Null
    ensures st.calls == old(st.calls) + old(st.SettingCalls(Null, Null))
    ensures st.failures == old(st.failures) + old(st.SettingFailures(Null, Null))
    ensures st.storage.pendingSave.Some?
    ensures st.themes == old(st.themes) && st.snippets == old(st.snippets) && st.listeners == old(st.listeners)
  {
    DisableAll(st);
    st.storage.Set(GetKey("theme", []), Str("no-theme"));
    st.storage.Remove(GetKey("colorScheme", []));
    st.SetBoth(Null, Null);
  }

  /**
   * `apply`: no theme name, or `no-theme`, takes the no-theme path; an
   * unknown theme changes nothing; otherwise the theme and the settled
   * scheme are saved and become current, the theme first.
   */
  method ApplyTheme(st: StateManager, themeName: JsStr, schemeName: JsStr)
    requires Ready(st)
    modifies st`currentTheme, st`currentScheme, st`calls, st`failures, st.storage
    ensures Ready(st)
    ensures !themeName.Truthy() || themeName.s == "no-theme" ==>
      && st.storage.config == NoThemeConfig(old(st.storage.config), old(st.Scoped()), old(st.snippets), old(st.currentTheme), old(st.currentScheme))
      && st.currentTheme == Null && st.currentScheme == Null
      && st.calls == old(st.calls) + old(st.SettingCalls(Null, Null))
    ensures themeName.Truthy() && themeName.s != "no-theme" && FindTheme(old(st.themes), themeName.s).None? ==>
      && st.storage.config == old(st.storage.config) && st.currentTheme == old(st.currentTheme)
      && st.currentScheme == old(st.currentScheme) && st.calls == old(st.calls)
    ensures themeName.Truthy() && themeName.s != "no-theme" && FindTheme(old(st.themes), themeName.s).Some? ==>
      var scheme := SchemeFor(FindTheme(old(st.themes), themeName.s).value, schemeName);
      && st.storage.config == old(st.storage.config)[ThemeKey := themeName][ColorSchemeKey := scheme]
      && st.currentTheme == themeName && st.currentScheme == scheme
      && st.calls == old(st.calls) + old(st.SettingCalls(themeName, scheme))
  {
    if !themeName.Truthy() || themeName.s == "no-theme" {
      ApplyNoTheme(st);
      return;
    }
    var theme := FindTheme(st.themes, themeName.s);
    if theme.None? { return; }
    var scheme := schemeName;
    if !scheme.Truthy() || scheme.s !in theme.value.schemes {
      scheme := if theme.value.schemes == [] then Undefined else Str(theme.value.schemes[0]);
    }
    st.storage.Set(GetKey("theme", []), themeName);
    st.storage.Set(GetKey("colorScheme", []), scheme);
    st.SetBoth(themeName, scheme);
  }
}
