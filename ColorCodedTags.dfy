/**
 * The colour-coded tags plugin around `parseTag`: the settings filter,
 * renaming a tag element, the hidden-category rule of `colorCodeTag`, and
 * the list of tags still unmatched while a draft is being mapped.
 */
module ColorCodedTags {
  import opened Wrappers
  import opened JsStrings
  import opened TagParser

  // ---------------------------------------------------------------------------
  // parseSettings
  // ---------------------------------------------------------------------------

  /** A value from the plugin configuration. */
  datatype SettingValue = Bool(b: bool) | Str(s: string) | Num(n: int) | Null

  /** JavaScript truthiness of a configuration value. */
  predicate Truthy(v: SettingValue) {
    match v
    case Bool(b) => b
    case Str(s) => s != ""
    case Num(n) => n != 0
    case Null => false
  }

  const ShowCategoryCode := "showCategoryCode"

  /**
   * `parseSettings`: a `reduce` over the keys of the settings object (given
   * as its entries, `None` for the `""` fallback, which has no keys) copying
   * only `showCategoryCode`.
   */
  function ParseSettings(settings: Option<seq<(string, SettingValue)>>): map<string, SettingValue> {
    match settings
    case None => map[]
    case Some(entries) => CopyKnown(map[], entries)
  }

  function CopyKnown(acc: map<string, SettingValue>, entries: seq<(string, SettingValue)>): map<string, SettingValue>
    decreases |entries|
  {
    if entries == [] then acc
    else
      var (key, value) := entries[0];
      CopyKnown(if key == ShowCategoryCode then acc[key := value] else acc, entries[1..])
  }

  predicate HasKey(entries: seq<(string, SettingValue)>, key: string) {
    exists k :: 0 <= k < |entries| && entries[k].0 == key
  }

  /**
   * The only key the result can hold is `showCategoryCode`; it is present
   * exactly when the settings have it, holding the settings' value unchanged.
   */
  lemma {:induction false} CopyKnownSpec(acc: map<string, SettingValue>, entries: seq<(string, SettingValue)>, v: SettingValue)
    requires acc.Keys <= {ShowCategoryCode}
    requires forall k :: 0 <= k < |entries| && entries[k].0 == ShowCategoryCode ==> entries[k].1 == v
    requires ShowCategoryCode in acc ==> acc[ShowCategoryCode] == v
    ensures var r := CopyKnown(acc, entries);
      && r.Keys <= {ShowCategoryCode}
      && (ShowCategoryCode in r <==> ShowCategoryCode in acc || HasKey(entries, ShowCategoryCode))
      && (ShowCategoryCode in r ==> r[ShowCategoryCode] == v)
    decreases |entries|
  {
    if entries != [] {
      var (key, value) := entries[0];
      var acc' := if key == ShowCategoryCode then acc[key := value] else acc;
      CopyKnownSpec(acc', entries[1..], v);
      if HasKey(entries, ShowCategoryCode) && ShowCategoryCode !in acc' {
        var k :| 0 <= k < |entries| && entries[k].0 == ShowCategoryCode;
        assert HasKey(entries[1..], ShowCategoryCode) by { assert entries[1..][k - 1] == entries[k]; }
      }
      if HasKey(entries[1..], ShowCategoryCode) {
        var k :| 0 <= k < |entries[1..]| && entries[1..][k].0 == ShowCategoryCode;
        assert entries[k + 1] == entries[1..][k];
      }
    }
  }

  /** The settings object's keys are distinct, so its `showCategoryCode` value is unique. */
  lemma {:induction false} ParseSettingsSpec(entries: seq<(string, SettingValue)>, v: SettingValue)
    requires forall k :: 0 <= k < |entries| && entries[k].0 == ShowCategoryCode ==> entries[k].1 == v
    ensures var r := ParseSettings(Some(entries));
      && r.Keys <= {ShowCategoryCode}
      && (ShowCategoryCode in r <==> HasKey(entries, ShowCategoryCode))
      && (ShowCategoryCode in r ==> r[ShowCategoryCode] == v)
  {
    CopyKnownSpec(map[], entries, v);
  }

  /** Whether category codes stay visible: the copied flag, falsy when absent. */
  function ShowCodes(config: map<string, SettingValue>): (b: bool)
    ensures b <==> ShowCategoryCode in config && Truthy(config[ShowCategoryCode])
  {
    ShowCategoryCode in config && Truthy(config[ShowCategoryCode])
  }

  /**
   * Codes are shown exactly when the configuration object has a
   * `showCategoryCode` key with a truthy value; the `""` fallback never shows them.
   */
  lemma {:induction false} ShowCodesOfSettings(settings: Option<seq<(string, SettingValue)>>, v: SettingValue)
    requires settings.Some? ==> forall k :: 0 <= k < |settings.value| && settings.value[k].0 == ShowCategoryCode ==> settings.value[k].1 == v
    ensures ShowCodes(ParseSettings(settings)) <==> settings.Some? && HasKey(settings.value, ShowCategoryCode) && Truthy(v)
  {
    if settings.Some? { ParseSettingsSpec(settings.value, v); }
  }

  // ---------------------------------------------------------------------------
  // renameTag and colorCodeTag
  // ---------------------------------------------------------------------------

  /** An element holding only a tag name: its text and its tooltip. */
  class TagLabel {
    var text: string
    var title: string

    constructor (t: string, tt: string)
      ensures text == t && title == tt
    {
      text := t;
      title := tt;
    }

    /**
     * `renameTag`: an unparsable name leaves the element alone; otherwise the
     * tooltip gets the full text, and the text becomes the bare tag name
     * unless category codes are shown.
     */
    method Rename(showCodes: bool)
      modifies this
      ensures ParseTag(old(text)).NoTag? ==> text == old(text) && title == old(title)
      ensures ParseTag(old(text)).Parsed? ==>
        && title == old(text)
        && text == if showCodes then old(text) else ParseTag(old(text)).realTagName
    {
      var parsed := ParseTag(text);
      if parsed.NoTag? { return; }
      title := text;
      if !showCodes { text := parsed.realTagName; }
    }
  }

  /**
   * The row text indicates a tag hierarchy: it contains, ignoring ASCII case,
   * `parent` followed by one whitespace character and `tags`, or `sub-tags`.
   * Missing row text (no enclosing row) indicates nothing.
   */
  predicate IndicatesHierarchy(rowText: Option<string>) {
    rowText.Some? && HierarchyText(LowerStr(rowText.value))
  }

  /** The pattern on lower-cased text. */
  predicate HierarchyText(t: string) {
    Includes(t, "sub-tags") ||
    exists k: nat | k <= |t| :: OccursAt(t, "parent", k) && k + 6 < |t| && IsSpace(t[k + 6]) && OccursAt(t, "tags", k + 7)
  }

  /** A tag chip on a details page or popover (first text node, the inner div, the chip itself). */
  class TagChip {
    var present: bool
    var text: string
    var textColor: string
    var chipColor: string
    var chipBackground: string

    constructor (t: string)
      ensures present && text == t && textColor == "" && chipColor == "" && chipBackground == ""
    {
      present := true;
      text := t;
      textColor := "";
      chipColor := "";
      chipBackground := "";
    }

    /**
     * `colorCodeTag`: for a parsable name, a hidden category removes the chip
     * unless its row indicates a hierarchy; the text loses its code unless
     * codes are shown; the category's colours are applied (an undefined
     * colour leaves the style as it was).
     */
    method ColorCode(rowText: Option<string>, showCodes: bool)
      modifies this
      ensures ParseTag(old(text)).NoTag? ==>
        present == old(present) && text == old(text) && textColor == old(textColor)
        && chipColor == old(chipColor) && chipBackground == old(chipBackground)
      ensures ParseTag(old(text)).Parsed? ==>
        var p := ParseTag(old(text));
        var st := CategoryColors[p.category];
        && (present <==> old(present) && !(st.hidden && !IndicatesHierarchy(rowText)))
        && text == (if showCodes then old(text) else p.realTagName)
        && textColor == st.color.GetOr(old(textColor))
        && chipColor == st.color.GetOr(old(chipColor))
        && chipBackground == st.backgroundColor.GetOr(old(chipBackground))
    {
      var parsed := ParseTag(text);
      if parsed.NoTag? { return; }
      var st := CategoryColors[parsed.category];
      if st.hidden && !IndicatesHierarchy(rowText) { present := false; }
      if !showCodes { text := parsed.realTagName; }
      if st.color.Some? { textColor := st.color.value; chipColor := st.color.value; }
      if st.backgroundColor.Some? { chipBackground := st.backgroundColor.value; }
    }
  }

  /** A removed chip is exactly a hidden category outside a hierarchy row. */
  lemma {:induction false} HiddenRule(name: string, rowText: Option<string>)
    requires ParseTag(name).Parsed?
    ensures var c := ParseTag(name).category;
      CategoryColors[c].hidden && !IndicatesHierarchy(rowText) <==>
      (c == "h" || c == "u") && !IndicatesHierarchy(rowText)
  {
    HiddenCategories();
  }

  /** A row reading "parent tags" keeps hidden chips. */
  lemma {:induction false} ParentTagsRow(t: string)
    requires t == "parent tags"
    ensures IndicatesHierarchy(Some(t))
  {
    LowerIdentity(t);
    assert t[..6] == "parent" && t[7..] == "tags";
    assert OccursAt(t, "parent", 0) && IsSpace(t[6]) && OccursAt(t, "tags", 7);
  }

  // ---------------------------------------------------------------------------
  // mapTagsForDraft
  // ---------------------------------------------------------------------------

  const AllMatched := "All tags have been matched"

  /** The list text: the `", "` join, or the message when that join is empty. */
  function DisplayText(tags: seq<string>): (t: string)
    ensures Join(tags, ", ") != "" ==> t == Join(tags, ", ")
    ensures Join(tags, ", ") == "" ==> t == AllMatched
  {
    var joined := Join(tags, ", ");
    if joined == "" then AllMatched else joined
  }

  /** A join with a non-empty separator is empty exactly for no parts or one empty part. */
  lemma {:induction false} JoinEmpty(parts: seq<string>, sep: string)
    requires sep != ""
    ensures Join(parts, sep) == "" <==> parts == [] || parts == [""]
  {
    if |parts| == 1 {
      assert parts == [parts[0]];
    }
  }

  /**
   * The message is shown exactly when no tag is left, when the only tag left
   * is empty, or when the join happens to read as the message itself.
   */
  lemma {:induction false} DisplayTextMessage(tags: seq<string>)
    ensures DisplayText(tags) == AllMatched <==> tags == [] || tags == [""] || Join(tags, ", ") == AllMatched
  {
    JoinEmpty(tags, ", ");
  }

  /** `[""]` also joins to the empty string, so it too shows the message. */
  lemma {:induction false} DisplayTextEmptyName()
    ensures DisplayText([""]) == AllMatched
  {
  }

  /** The StashDB names of the pieces that parse, in order. */
  function StashDbNames(pieces: seq<string>): (r: seq<string>)
    ensures |r| <= |pieces|
    ensures forall x :: x in r ==> exists p :: p in pieces && ParseTag(p).Parsed? && x == ParseTag(p).stashDbName
  {
    if pieces == [] then []
    else
      var rest := StashDbNames(pieces[1..]);
      assert forall p :: p in pieces[1..] ==> p in pieces;
      match ParseTag(pieces[0])
      case NoTag => rest
      case Parsed(_, _, name) => [name] + rest
  }

  /** The names are kept piece by piece: the result for a concatenation is the concatenation of the results. */
  lemma {:induction false} StashDbNamesAppend(a: seq<string>, b: seq<string>)
    ensures StashDbNames(a + b) == StashDbNames(a) + StashDbNames(b)
    decreases |a|
  {
    if a != [] {
      assert (a + b)[1..] == a[1..] + b;
      StashDbNamesAppend(a[1..], b);
    } else {
      assert a + b == b;
    }
  }

  /** One piece gives its StashDB name when it parses, and nothing otherwise. */
  lemma {:induction false} StashDbNamesOne(p: string)
    ensures StashDbNames([p]) == if ParseTag(p).Parsed? then [ParseTag(p).stashDbName] else []
  {
    assert [p][1..] == [];
  }

  /** The draft's tag list while candidates are being matched. */
  class DraftTags {
    var unmatched: seq<string>
    var shown: string

    /** The list starts as all the StashDB names, shown as their join. */
    constructor (stashDbTags: seq<string>)
      ensures unmatched == stashDbTags && shown == Join(stashDbTags, ", ")
    {
      unmatched := stashDbTags;
      shown := Join(stashDbTags, ", ");
    }

    /**
     * The find-once callback for one dropdown option while `tag` is tried:
     * an option whose text differs from the tag ignoring ASCII case is
     * refused; otherwise the tag leaves the unmatched list and the list
     * text is refreshed.
     */
    method OnOption(optionText: string, tag: string) returns (accepted: bool)
      modifies this
      ensures accepted <==> LowerStr(optionText) == LowerStr(tag)
      ensures !accepted ==> unmatched == old(unmatched) && shown == old(shown)
      ensures accepted ==> unmatched == RemoveAll(old(unmatched), tag) && shown == DisplayText(unmatched)
    {
      if LowerStr(optionText) != LowerStr(tag) { return false; }
      unmatched := RemoveAll(unmatched, tag);
      shown := DisplayText(unmatched);
      return true;
    }
  }

  /**
   * After a match the list has no element equal to the tag, every other
   * element keeps its multiplicity and the survivors keep their order.
   */
  lemma {:induction false} MatchedRemovesTag(unmatched: seq<string>, tag: string)
    ensures var r := RemoveAll(unmatched, tag);
      && tag !in r
      && (forall t :: t != tag ==> multiset(r)[t] == multiset(unmatched)[t])
      && IsSubsequence(r, unmatched)
  {
    RemoveAllSpec(unmatched, tag);
  }
}
