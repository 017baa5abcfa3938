/**
 * `parseTag`: the tag-name pattern
 *   (?:(\w+)(?:[^.]+)\.)\s+([^[]+)(?:\[([^[]+)])?
 * used unanchored, as `String.prototype.match` does, followed by the lookup of
 * the captured category among the colour categories.
 *
 * `IsMatch` is the pattern as a relation on positions; `Prefers` is the order
 * in which a backtracking matcher tries the alternatives at one start
 * (greedy quantifiers first, the optional override before its absence).
 * `FindMatch` computes the match and is proved to be the leftmost one and,
 * among matches at that start, the one preferred over all others.
 */
module TagParser {
  import opened Wrappers
  import opened JsStrings

  /**
   * Positions of one match in the subject: the category is `[start, catEnd)`,
   * the `[^.]+` filler `[catEnd, dot)`, the dot at `dot`, the `\s+` run
   * `[dot + 1, nameStart)`, the name `[nameStart, nameEnd)` and, if present,
   * the override `[nameEnd + 1, close)` between `[` at `nameEnd` and `]` at `close`.
   */
  datatype TagMatch = TagMatch(start: nat, catEnd: nat, dot: nat, nameStart: nat, nameEnd: nat, close: Option<nat>)

  predicate NotDot(c: char) { c != '.' }
  predicate NotOpen(c: char) { c != '[' }

  /** The pattern, as a relation between the subject and the positions of a match. */
  predicate IsMatch(s: string, m: TagMatch) {
    && m.start < m.catEnd < m.dot < |s| && s[m.dot] == '.'
    && (forall k :: m.start <= k < m.catEnd ==> IsWordChar(s[k]))
    && (forall k :: m.catEnd <= k < m.dot ==> NotDot(s[k]))
    && m.dot + 1 < m.nameStart < m.nameEnd <= |s|
    && (forall k :: m.dot + 1 <= k < m.nameStart ==> IsSpace(s[k]))
    && (forall k :: m.nameStart <= k < m.nameEnd ==> NotOpen(s[k]))
    && (m.close.Some? ==>
          && m.nameEnd < |s| && s[m.nameEnd] == '['
          && m.nameEnd + 1 < m.close.value < |s| && s[m.close.value] == ']'
          && (forall k :: m.nameEnd + 1 <= k < m.close.value ==> NotOpen(s[k])))
  }

  /**
   * `best` is tried no later than `other` at the same start: each greedy
   * quantifier reaches at least as far, and the override, present in
   * `other` with the same name, is present in `best` and reaches as far.
   */
  predicate Prefers(best: TagMatch, other: TagMatch) {
    && other.start == best.start
    && other.catEnd <= best.catEnd
    && other.dot == best.dot
    && other.nameStart <= best.nameStart
    && other.nameEnd <= best.nameEnd
    && (other.nameEnd == best.nameEnd && other.close.Some? ==>
          best.close.Some? && other.close.value <= best.close.value)
  }

  /** The last `]` in `[lo, hi)`. */
  function LastClose(s: string, lo: nat, hi: nat): (r: Option<nat>)
    requires hi <= |s|
    ensures r.Some? ==> lo <= r.value < hi && s[r.value] == ']'
    ensures r.Some? ==> forall k :: r.value < k < hi ==> s[k] != ']'
    ensures r.None? ==> forall k :: lo <= k < hi ==> s[k] != ']'
    decreases hi
  {
    if hi <= lo then None
    else if s[hi - 1] == ']' then Some(hi - 1)
    else LastClose(s, lo, hi - 1)
  }

  /** Where the `\w+` group ends: greedy, but leaving one character for `[^.]+`. */
  function CatEnd(s: string, i: nat, d: nat): nat
    requires i <= |s| && 0 < d
  {
    var w := ScanWhile(s, i, IsWordChar);
    if w < d then w else d - 1
  }

  /** Where `\s+` ends: greedy, but giving back one space when `[^[]+` cannot start after the run. */
  function NameStart(s: string, d: nat): nat
    requires d < |s|
  {
    var sp := ScanWhile(s, d + 1, IsSpace);
    if sp < |s| && s[sp] != '[' then sp else sp - 1
  }

  /** The `]` that closes the override opened at `r`, if any. */
  function OverrideClose(s: string, r: nat): Option<nat>
    requires r <= |s|
  {
    if r < |s| then LastClose(s, r + 2, ScanWhile(s, r + 1, NotOpen)) else None
  }

  /** The match starting at `i`, if there is one, computed as the matcher's first success. */
  function MatchAt(s: string, i: nat): Option<TagMatch>
    requires i <= |s|
  {
    var d := ScanWhile(s, i, NotDot);
    WordRunNoDot(s, i);
    if ScanWhile(s, i, IsWordChar) == i || d == |s| then None
    else
      var c := CatEnd(s, i, d);
      if c <= i || ScanWhile(s, d + 1, IsSpace) == d + 1 then None
      else
        var e := NameStart(s, d);
        if e == d + 1 then None
        else
          var r := ScanWhile(s, e, NotOpen);
          Some(TagMatch(i, c, d, e, r, OverrideClose(s, r)))
  }

  /** The leftmost match at or after `from`. */
  function FindMatch(s: string, from: nat): Option<TagMatch>
    requires from <= |s|
    decreases |s| - from
  {
    if from == |s| then None
    else match MatchAt(s, from)
      case Some(m) => Some(m)
      case None => FindMatch(s, from + 1)
  }

  lemma {:induction false} WordRunNoDot(s: string, i: nat)
    requires i <= |s|
    ensures ScanWhile(s, i, IsWordChar) <= ScanWhile(s, i, NotDot)
  {
    ScanWhileMaximal(s, i, ScanWhile(s, i, IsWordChar), NotDot);
  }

  /** The computed positions form a match. */
  lemma {:induction false} MatchAtSound(s: string, i: nat)
    requires i <= |s| && MatchAt(s, i).Some?
    ensures IsMatch(s, MatchAt(s, i).value) && MatchAt(s, i).value.start == i
  {
    WordRunNoDot(s, i);
    var m := MatchAt(s, i).value;
    var sp := ScanWhile(s, m.dot + 1, IsSpace);
    assert NotOpen(s[m.nameStart]) by {
      if m.nameStart != sp { assert IsSpace(s[m.nameStart]); }
    }
    if m.close.Some? {
      assert m.nameEnd < |s| && s[m.nameEnd] == '[';
    }
  }

  /** Any match at `i` has the computed dot and a category no longer than the computed one. */
  lemma {:induction false} CategoryStage(s: string, i: nat, other: TagMatch)
    requires i <= |s| && IsMatch(s, other) && other.start == i
    ensures var d := ScanWhile(s, i, NotDot);
      && ScanWhile(s, i, IsWordChar) > i && d < |s| && other.dot == d
      && i < other.catEnd <= CatEnd(s, i, d)
  {
    WordRunNoDot(s, i);
    ScanWhileMaximal(s, i, other.catEnd, IsWordChar);
    forall k | i <= k < other.catEnd ensures NotDot(s[k]) { assert IsWordChar(s[k]); }
    ScanWhileMaximal(s, i, other.dot, NotDot);
  }

  /** Any space run and name after the dot `d` fit inside the computed ones. */
  lemma {:induction false} NameStage(s: string, d: nat, nameStart: nat, nameEnd: nat)
    requires d + 1 < nameStart < nameEnd <= |s|
    requires forall k :: d + 1 <= k < nameStart ==> IsSpace(s[k])
    requires forall k :: nameStart <= k < nameEnd ==> NotOpen(s[k])
    ensures ScanWhile(s, d + 1, IsSpace) > d + 1
    ensures var e := NameStart(s, d);
      d + 1 < e && nameStart <= e && e < |s| && nameEnd <= ScanWhile(s, e, NotOpen)
  {
    var sp := ScanWhile(s, d + 1, IsSpace);
    ScanWhileMaximal(s, d + 1, nameStart, IsSpace);
    var e := NameStart(s, d);
    assert nameStart <= e by {
      if nameStart == sp { assert sp < |s| && NotOpen(s[sp]); }
    }
    if e <= nameEnd { ScanWhileMaximal(s, e, nameEnd, NotOpen); }
  }

  /** An override opened at `r` and closed at `close` is found, reaching at least `close`. */
  lemma {:induction false} OverrideStage(s: string, r: nat, close: nat)
    requires r < |s| && r + 1 < close < |s| && s[close] == ']'
    requires forall k :: r + 1 <= k < close ==> NotOpen(s[k])
    ensures OverrideClose(s, r).Some? && close <= OverrideClose(s, r).value
  {
    var n := ScanWhile(s, r + 1, NotOpen);
    ScanWhileMaximal(s, r + 1, close, NotOpen);
    assert close < n by { assert NotOpen(s[close]); }
  }

  /** Every match at `i` is one the computed match is preferred to; in particular one exists. */
  lemma {:induction false} MatchAtComplete(s: string, i: nat, other: TagMatch)
    requires i <= |s| && IsMatch(s, other) && other.start == i
    ensures MatchAt(s, i).Some? && Prefers(MatchAt(s, i).value, other)
  {
    CategoryStage(s, i, other);
    var d := other.dot;
    NameStage(s, d, other.nameStart, other.nameEnd);
    var r := ScanWhile(s, NameStart(s, d), NotOpen);
    if other.nameEnd == r && other.close.Some? {
      OverrideStage(s, r, other.close.value);
    }
  }

  /** A found match is a match of the pattern, at or after `from`. */
  lemma {:induction false} FindMatchSound(s: string, from: nat)
    requires from <= |s|
    ensures FindMatch(s, from).Some? ==> IsMatch(s, FindMatch(s, from).value) && from <= FindMatch(s, from).value.start
    decreases |s| - from
  {
    if from < |s| {
      match MatchAt(s, from)
      case Some(m) => MatchAtSound(s, from);
      case None => FindMatchSound(s, from + 1);
    }
  }

  /**
   * `FindMatch` is the matcher's result: a match, no match starts earlier,
   * and it is preferred to every other match at its start; when it finds
   * nothing there is no match at all.
   */
  lemma {:induction false} FindMatchCorrect(s: string, from: nat)
    requires from <= |s|
    ensures FindMatch(s, from).Some? ==>
      var m := FindMatch(s, from).value;
      && IsMatch(s, m) && from <= m.start
      && forall o :: IsMatch(s, o) && from <= o.start ==> m.start <= o.start && (o.start == m.start ==> Prefers(m, o))
    ensures FindMatch(s, from).None? ==> forall o :: IsMatch(s, o) ==> o.start < from
    decreases |s| - from
  {
    if from < |s| {
      FindMatchCorrect(s, from + 1);
      match MatchAt(s, from)
      case Some(m) =>
        MatchAtSound(s, from);
        forall o | IsMatch(s, o) && from <= o.start
          ensures m.start <= o.start && (o.start == m.start ==> Prefers(m, o))
        {
          if o.start == from { MatchAtComplete(s, from, o); }
        }
      case None =>
        forall o | IsMatch(s, o) && from <= o.start ensures o.start > from {
          if o.start == from { MatchAtComplete(s, from, o); }
        }
    }
  }

  // ---------------------------------------------------------------------------
  // The colour categories and parseTag
  // ---------------------------------------------------------------------------

  /** The text and background colours of a category; hidden categories have none. */
  datatype CategoryStyle = CategoryStyle(hidden: bool, color: Option<string>, backgroundColor: Option<string>)

  function Shown(bg: string): CategoryStyle { CategoryStyle(false, Some("black"), Some(bg)) }

  const CategoryColors: map<string, CategoryStyle> := map[
    "h" := CategoryStyle(true, None, None),
    "u" := CategoryStyle(true, None, None),
    "a" := Shown("#ffb86c"),
    "aa" := Shown("#f1fa8c"),
    "ad" := Shown("#50fa7b"),
    "af" := Shown("#06C135"),
    "as" := Shown("#55DDFC"),
    "b" := Shown("#04CEFB"),
    "ba" := Shown("#04B9E2"),
    "bd" := Shown("#BD93F9"),
    "bf" := Shown("#A164F6"),
    "c" := Shown("#FF7AF6"),
    "ca" := Shown("#FF10F0"),
    "cd" := Shown("#CC00BE"),
    "y" := Shown("#ff5555"),
    "x" := Shown("#ff5555")
  ]

  /** Exactly `h` and `u` are hidden; every other category has both colours. */
  lemma {:induction false} HiddenCategories()
    ensures forall k :: k in CategoryColors ==>
      (CategoryColors[k].hidden <==> k == "h" || k == "u")
    ensures forall k :: k in CategoryColors && !CategoryColors[k].hidden ==>
      CategoryColors[k].color.Some? && CategoryColors[k].backgroundColor.Some?
  {
  }

  /** The destructured result of `parseTag`: `{}` or all three fields. */
  datatype ParsedTag = NoTag | Parsed(category: string, realTagName: string, stashDbName: string)

  /**
   * What `parseTag` builds from the match, if any: the category is the first
   * group, and a category outside the table (or no match, which leaves it
   * `undefined`) yields `{}`. `stashDbName` is the override when captured,
   * else the name.
   */
  function TagOf(s: string, om: Option<TagMatch>): (r: ParsedTag)
    requires om.Some? ==> IsMatch(s, om.value)
    ensures r.Parsed? ==> r.category in CategoryColors
    ensures r.Parsed? ==> '[' !in r.realTagName && r.realTagName != ""
    ensures r.Parsed? && om.Some? && om.value.close.Some? ==> r.stashDbName != "" && '[' !in r.stashDbName
  {
    match om
    case None => NoTag
    case Some(m) =>
      var category := s[m.start..m.catEnd];
      if category !in CategoryColors then NoTag
      else
        var name := s[m.nameStart..m.nameEnd];
        assert forall k :: 0 <= k < |name| ==> NotOpen(name[k]);
        match m.close
        case Some(c) =>
          var o := s[m.nameEnd + 1..c];
          assert forall k :: 0 <= k < |o| ==> NotOpen(o[k]);
          Parsed(category, name, o)
        case None => Parsed(category, name, name)
  }

  /** `parseTag`: the tag built from the matcher's match in the subject. */
  function ParseTag(s: string): (r: ParsedTag)
    ensures r.Parsed? ==> r.category in CategoryColors
    ensures r.Parsed? ==> '[' !in r.realTagName && r.realTagName != ""
  {
    FindMatchSound(s, 0);
    TagOf(s, FindMatch(s, 0))
  }

  /**
   * The fields of a parsed tag are the groups of the matcher's match: the
   * category is a word-character run, the name has no `[`, and
   * `stashDbName` is the non-empty bracketed override when present, else
   * the name. An empty result means no match, or a category outside the table.
   */
  lemma {:induction false} ParseTagGroups(s: string)
    ensures var r := ParseTag(s);
      match FindMatch(s, 0)
      case None => r == NoTag
      case Some(m) =>
        IsMatch(s, m) &&
        var category := s[m.start..m.catEnd];
        && (category !in CategoryColors ==> r == NoTag)
        && (category in CategoryColors ==>
              && r == Parsed(category, s[m.nameStart..m.nameEnd],
                             if m.close.Some? then s[m.nameEnd + 1..m.close.value] else s[m.nameStart..m.nameEnd])
              && (m.close.Some? ==> r.stashDbName != "" && '[' !in r.stashDbName))
  {
    FindMatchSound(s, 0);
  }

  /** A subject with no `.` never parses. */
  lemma {:induction false} NoDotNoTag(s: string)
    requires '.' !in s
    ensures ParseTag(s) == NoTag
  {
    FindMatchSound(s, 0);
  }

  /** The matcher's match in `a1. Anal`. */
  lemma {:induction false} ExampleMatch(s: string)
    requires s == "a1. Anal"
    ensures FindMatch(s, 0) == Some(TagMatch(0, 1, 2, 4, 8, None))
  {
    ScanWhileEnd(s, 0, 2, IsWordChar);
    ScanWhileEnd(s, 0, 2, NotDot);
    ScanWhileEnd(s, 3, 4, IsSpace);
    ScanWhileEnd(s, 4, 8, NotOpen);
  }

  /** The worked example from the source's comments: `a1. Anal`. */
  lemma {:induction false} ParseTagExample(s: string)
    requires s == "a1. Anal"
    ensures ParseTag(s) == Parsed("a", "Anal", "Anal")
  {
    ExampleMatch(s);
    FindMatchSound(s, 0);
    assert s[0..1] == "a";
    assert s[4..8] == "Anal";
  }

  /** The matcher's match in `b2. Xy [Z]`. */
  lemma {:induction false} OverrideExampleMatch(s: string)
    requires s == "b2. Xy [Z]"
    ensures FindMatch(s, 0) == Some(TagMatch(0, 1, 2, 4, 7, Some(9)))
  {
    ScanWhileEnd(s, 0, 2, IsWordChar);
    ScanWhileEnd(s, 0, 2, NotDot);
    ScanWhileEnd(s, 3, 4, IsSpace);
    ScanWhileEnd(s, 4, 7, NotOpen);
    ScanWhileEnd(s, 8, 10, NotOpen);
    assert LastClose(s, 9, 10) == Some(9);
  }

  /**
   * With an override, `stashDbName` is the bracketed text, and the name keeps
   * the space before the bracket.
   */
  lemma {:induction false} ParseTagOverrideExample(s: string)
    requires s == "b2. Xy [Z]"
    ensures ParseTag(s) == Parsed("b", "Xy ", "Z")
  {
    OverrideExampleMatch(s);
    FindMatchSound(s, 0);
    assert s[0..1] == "b";
    assert s[4..7] == "Xy ";
    assert s[8..9] == "Z";
  }

  /**
   * A subject whose only `.` is its third character has a one-character
   * category: when that character is not in the table, the tag parses to nothing.
   */
  lemma {:induction false} OneCharCategory(s: string)
    requires |s| > 2 && s[2] == '.' && s[0..1] !in CategoryColors
    requires forall k :: 0 <= k < |s| && k != 2 ==> s[k] != '.'
    ensures ParseTag(s) == NoTag
  {
    FindMatchSound(s, 0);
    if FindMatch(s, 0).Some? {
      var m := FindMatch(s, 0).value;
      assert m.dot == 2;
    }
  }

  /**
   * The source's second worked comment maps `p3. Brunette [Brown Hair (Female)]`
   * to its override, but `p` is not in the category table, so the tag parses
   * to nothing.
   */
  lemma {:induction false} UnknownCategoryExample(s: string)
    requires s == "p3. Brunette [Brown Hair (Female)]"
    ensures ParseTag(s) == NoTag
  {
    assert s[0..1] == "p";
    OneCharCategory(s);
  }
}
