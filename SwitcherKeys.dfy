/**
 * What both versions of the theme switcher share: the string, null or
 * undefined values the state holds, themes and snippet entries as loaded,
 * and `getKey`, which builds every storage key from a key type and its
 * arguments.
 */
module SwitcherKeys {
  import opened Wrappers
  import opened JsStrings

  /** A JavaScript value that is a string, `null` or `undefined`. */
  datatype JsStr = Null | Undefined | Str(s: string) {
    /** JavaScript truthiness: only a non-empty string is truthy. */
    predicate Truthy() {
      Str? && s != ""
    }
  }

  /** A theme from `themes.json`. */
  datatype Theme = Theme(name: string, file: string, schemes: seq<string>)

  /** How a snippet variable is edited: its input type, unit and default, each possibly absent. */
  datatype VarMeta = VarMeta(varType: Option<string>, unit: Option<string>, default: Option<string>)

  /**
   * An entry of the snippet list as loaded: a bare file name, an object whose
   * fields may be missing (`None`), or any other JSON value.
   */
  datatype RawSnippet =
    | RawString(text: string)
    | RawObject(name: Option<string>, file: Option<string>,
                vars: Option<seq<(string, VarMeta)>>, scopes: Option<seq<(string, string)>>)
    | RawOther

  /** JavaScript truthiness of an optional string field. */
  predicate Present(o: Option<string>) {
    o.Some? && o.value != ""
  }

  const ThemeKey := "theme-switcher-active"
  const ColorSchemeKey := "theme-switcher-color-scheme"

  const CssVarKind := "cssvar-"
  const EnabledKind := "snippet-enabled-"
  const ScopesKind := "snippet-scopes-"
  const SnippetVarKind := "snippet-var-"

  /** The scope map a snippet without one gets: `{ all: "body" }`. */
  const DefaultScopes: seq<(string, string)> := [("all", "body")]

  /** A template-literal argument: one that was not passed prints as `undefined`. */
  function Arg(args: seq<string>, i: nat): string {
    if i < |args| then args[i] else "undefined"
  }

  /** The prefix every key of one kind has for one theme and scheme. */
  function ScopedPrefix(kind: string, theme: string, scheme: string): string {
    kind + theme + "-" + scheme + "-"
  }

  predicate KnownType(keyType: string) {
    keyType in {"cssVar", "snippetEnabled", "snippetScopes", "snippetVar", "theme", "colorScheme"}
  }

  /**
   * `getKey(type, ...args)`: the key map's template for a known type, and
   * `''` for any other type.
   */
  function GetKey(keyType: string, args: seq<string>): (k: string)
    ensures k == "" <==> !KnownType(keyType)
  {
    if keyType == "cssVar" then ScopedPrefix(CssVarKind, Arg(args, 0), Arg(args, 1)) + Arg(args, 2)
    else if keyType == "snippetEnabled" then ScopedPrefix(EnabledKind, Arg(args, 0), Arg(args, 1)) + Arg(args, 2)
    else if keyType == "snippetScopes" then ScopedPrefix(ScopesKind, Arg(args, 0), Arg(args, 1)) + Arg(args, 2)
    else if keyType == "snippetVar" then ScopedPrefix(SnippetVarKind, Arg(args, 0), Arg(args, 1)) + Arg(args, 2) + "-" + Arg(args, 3)
    else if keyType == "theme" then ThemeKey
    else if keyType == "colorScheme" then ColorSchemeKey
    else ""
  }

  /** The keys of one snippet's enabled flag and scope list under a theme and scheme. */
  function EnabledKey(theme: string, scheme: string, name: string): string {
    GetKey("snippetEnabled", [theme, scheme, name])
  }

  function ScopesKey(theme: string, scheme: string, name: string): string {
    GetKey("snippetScopes", [theme, scheme, name])
  }

  /** The kind prefix that names a key type's namespace. */
  function KindOf(keyType: string): string
    requires KnownType(keyType) && keyType != "theme" && keyType != "colorScheme"
  {
    if keyType == "cssVar" then CssVarKind
    else if keyType == "snippetEnabled" then EnabledKind
    else if keyType == "snippetScopes" then ScopesKind
    else SnippetVarKind
  }

  /**
   * Every theme-and-scheme-scoped key starts with its kind's prefix for that
   * theme and scheme, followed by the last argument (for a snippet variable,
   * the snippet name, a dash and the variable name).
   */
  lemma {:induction false} ScopedKeyFormat(keyType: string, theme: string, scheme: string, name: string, varName: string)
    requires KnownType(keyType) && keyType != "theme" && keyType != "colorScheme"
    ensures var k := GetKey(keyType, [theme, scheme, name, varName]);
      && StartsWith(k, ScopedPrefix(KindOf(keyType), theme, scheme))
      && k[|ScopedPrefix(KindOf(keyType), theme, scheme)|..] ==
         (if keyType == "snippetVar" then name + "-" + varName else name)
  {
    var p := ScopedPrefix(KindOf(keyType), theme, scheme);
    var k := GetKey(keyType, [theme, scheme, name, varName]);
    if keyType == "snippetVar" {
      assert k == p + (name + "-" + varName);
    } else {
      assert k == p + name;
    }
  }

  /**
   * For one theme and scheme, a key type's keys are one-to-one in the name
   * they carry: two different names never share a key.
   */
  lemma {:induction false} ScopedKeyInjective(keyType: string, theme: string, scheme: string, a: string, b: string)
    requires keyType in {"cssVar", "snippetEnabled", "snippetScopes"}
    requires GetKey(keyType, [theme, scheme, a]) == GetKey(keyType, [theme, scheme, b])
    ensures a == b
  {
    var p := ScopedPrefix(KindOf(keyType), theme, scheme);
    assert GetKey(keyType, [theme, scheme, a]) == p + a;
    assert GetKey(keyType, [theme, scheme, b]) == p + b;
    assert a == (p + a)[|p|..];
  }

  /** A scoped prefix followed by anything starts with the kind. */
  lemma {:induction false} PrefixedChars(kind: string, theme: string, scheme: string, rest: string)
    ensures var k := ScopedPrefix(kind, theme, scheme) + rest;
      |k| >= |kind| + 2 && forall i :: 0 <= i < |kind| ==> k[i] == kind[i]
  {
    assert ScopedPrefix(kind, theme, scheme) + rest == kind + (theme + "-" + scheme + "-" + rest);
  }

  /** The part of a scoped key after its prefix: the last argument, or the name, a dash and the variable. */
  function KeyRest(keyType: string, args: seq<string>): string {
    if keyType == "snippetVar" then Arg(args, 2) + "-" + Arg(args, 3) else Arg(args, 2)
  }

  /** A scoped key starts with its kind's prefix. */
  lemma {:induction false} KeyKind(keyType: string, args: seq<string>)
    requires KnownType(keyType) && keyType != "theme" && keyType != "colorScheme"
    ensures |GetKey(keyType, args)| >= |KindOf(keyType)| + 2
    ensures forall i :: 0 <= i < |KindOf(keyType)| ==> i < |GetKey(keyType, args)| && GetKey(keyType, args)[i] == KindOf(keyType)[i]
  {
    KeySplit(keyType, args);
    PrefixedChars(KindOf(keyType), Arg(args, 0), Arg(args, 1), KeyRest(keyType, args));
  }

  /** A scoped key is its kind's prefix for the first two arguments, then the rest. */
  lemma {:induction false} KeySplit(keyType: string, args: seq<string>)
    requires KnownType(keyType) && keyType != "theme" && keyType != "colorScheme"
    ensures GetKey(keyType, args) == ScopedPrefix(KindOf(keyType), Arg(args, 0), Arg(args, 1)) + KeyRest(keyType, args)
  {
    if keyType == "snippetVar" {
      assert GetKey(keyType, args) == ScopedPrefix(SnippetVarKind, Arg(args, 0), Arg(args, 1)) + Arg(args, 2) + "-" + Arg(args, 3);
    }
  }

  /** A scoped prefix starts with its kind. */
  lemma {:induction false} PrefixChars(kind: string, theme: string, scheme: string)
    ensures forall i :: 0 <= i < |kind| ==> i < |ScopedPrefix(kind, theme, scheme)| && ScopedPrefix(kind, theme, scheme)[i] == kind[i]
  {
    assert ScopedPrefix(kind, theme, scheme) == kind + (theme + "-" + scheme + "-");
  }

  /** The characters that tell a fixed key apart: both start with `t`, and differ at index 15. */
  lemma {:induction false} FixedKeyChars(keyType: string, args: seq<string>)
    requires keyType == "theme" || keyType == "colorScheme"
    ensures var k := GetKey(keyType, args);
      |k| > 15 && k[0] == 't' && k[15] == (if keyType == "theme" then 'a' else 'c')
  {
  }

  /** The characters that tell a scoped key apart: its first, and for a snippet key the ninth. */
  lemma {:induction false} ScopedKeyChars(keyType: string, args: seq<string>)
    requires KnownType(keyType) && keyType != "theme" && keyType != "colorScheme"
    ensures var k := GetKey(keyType, args);
      && |k| > 8
      && k[0] == (if keyType == "cssVar" then 'c' else 's')
      && (keyType != "cssVar" ==> k[8] == KindOf(keyType)[8])
  {
    KeyKind(keyType, args);
    var kind := KindOf(keyType);
    assert GetKey(keyType, args)[0] == kind[0];
    if keyType != "cssVar" {
      assert GetKey(keyType, args)[8] == kind[8];
    }
  }

  /** Keys of two different known types never coincide, whatever their arguments. */
  lemma {:induction false} KindsDisjoint(t1: string, t2: string, args1: seq<string>, args2: seq<string>)
    requires KnownType(t1) && KnownType(t2) && t1 != t2
    ensures GetKey(t1, args1) != GetKey(t2, args2)
  {
    var k1 := GetKey(t1, args1);
    var k2 := GetKey(t2, args2);
    var f1 := t1 == "theme" || t1 == "colorScheme";
    var f2 := t2 == "theme" || t2 == "colorScheme";
    if f1 { FixedKeyChars(t1, args1); } else { ScopedKeyChars(t1, args1); }
    if f2 { FixedKeyChars(t2, args2); } else { ScopedKeyChars(t2, args2); }
    if f1 && f2 {
      assert k1[15] != k2[15];
    } else if t1 == "cssVar" || t2 == "cssVar" || f1 || f2 {
      assert k1[0] != k2[0];
    } else {
      assert KindOf(t1)[8] != KindOf(t2)[8];
      assert k1[8] != k2[8];
    }
  }

  /**
   * Dashes inside theme names make keys ambiguous: theme `a-b` with scheme
   * `c` and theme `a` with scheme `b-c` share their variables' keys.
   */
  lemma {:induction false} DashedNamesShareKeys()
    ensures GetKey("cssVar", ["a-b", "c", "x"]) == GetKey("cssVar", ["a", "b-c", "x"])
  {
  }
}
