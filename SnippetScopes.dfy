/**
 * The scope rewrite the single-file switcher applies to a snippet's CSS
 * before injecting it: the card type is read from the scope selector, then
 * every rule of the stylesheet is found with the rule pattern and its
 * selectors that start with the card class are re-rooted at each scope
 * selector; other selectors, and rules left with none, are dropped.
 *
 * The three regular expressions are written as scanning functions:
 *   - `/([^{}]+)\{([^{}]*(?:\{[^{}]*\}[^{}]*)*)\}/g`: `RuleAt`, `NextRule`;
 *   - `/\.([\w-]+)-card/`: `CardTypeAt`, `CardType`;
 *   - `^\.X-card((?:\.[\w-]+|:+[^\s]+)*)\s*(.*)$`: `ChainEnd`, `MatchCardAsWritten`.
 */
module SnippetScopes {
  import opened Wrappers
  import opened JsStrings
  import opened SwitcherKeys

  predicate NotBrace(c: char) { c != '{' && c != '}' }

  /** The `[\w-]` class. */
  predicate IsClassChar(c: char) { IsWordChar(c) || c == '-' }

  predicate NotSpace(c: char) { !IsSpace(c) }

  // ---------------------------------------------------------------------------
  // The rule pattern
  // ---------------------------------------------------------------------------

  /**
   * The closing brace of a rule body that starts at `i`: brace-free text,
   * then any number of `{ brace-free }` groups each followed by brace-free
   * text, then `}`.
   */
  function BodyClose(css: string, i: nat): (r: Option<nat>)
    requires i <= |css|
    ensures r.Some? ==> i <= r.value < |css| && css[r.value] == '}'
    decreases |css| - i
  {
    var j := ScanWhile(css, i, NotBrace);
    if j == |css| then None
    else if css[j] == '}' then Some(j)
    else
      var k := ScanWhile(css, j + 1, NotBrace);
      if k == |css| || css[k] == '{' then None
      else BodyClose(css, k + 1)
  }

  /** A match of the rule pattern: selectors `[start, open)`, the body between `open` and `end - 1`. */
  datatype Rule = Rule(start: nat, open: nat, end: nat)

  /**
   * The match of the rule pattern that starts at `p`, if any. The selector
   * part is the whole brace-free run from `p`, since nothing shorter can be
   * followed by `{`.
   */
  function RuleAt(css: string, p: nat): (r: Option<Rule>)
    ensures r.Some? ==> r.value.start == p && p < r.value.open < r.value.end <= |css|
    ensures r.Some? ==> css[r.value.open] == '{' && css[r.value.end - 1] == '}'
    ensures r.Some? ==> forall k :: p <= k < r.value.open ==> NotBrace(css[k])
  {
    if p >= |css| || !NotBrace(css[p]) then None
    else
      var q := ScanWhile(css, p, NotBrace);
      if q == |css| || css[q] != '{' then None
      else
        match BodyClose(css, q + 1)
        case None => None
        case Some(c) => Some(Rule(p, q, c + 1))
  }

  /** `rulePattern.exec(css)` with `lastIndex == from`: the leftmost match at or after `from`. */
  function NextRule(css: string, from: nat): (r: Option<Rule>)
    ensures r.Some? ==> from <= r.value.start && RuleAt(css, r.value.start) == r
    ensures r.Some? ==> forall p :: from <= p < r.value.start ==> RuleAt(css, p).None?
    ensures r.None? ==> forall p :: from <= p ==> RuleAt(css, p).None?
    decreases |css| - from
  {
    if from >= |css| then None
    else
      match RuleAt(css, from)
      case Some(rule) => Some(rule)
      case None => NextRule(css, from + 1)
  }

  /**
   * The text from `from` on, each rule found replaced by `f` of its
   * selector text and its body, the text between and after rules copied.
   */
  function Rewrite(css: string, from: nat, f: (string, string) -> string): string
    requires from <= |css|
    decreases |css| - from
  {
    match NextRule(css, from)
    case None => css[from..]
    case Some(rule) =>
      css[from..rule.start] + f(css[rule.start..rule.open], css[rule.open + 1..rule.end - 1])
      + Rewrite(css, rule.end, f)
  }

  /** Each rule written back as selectors, `{`, body, `}`. */
  function Verbatim(selectors: string, body: string): string {
    selectors + "{" + body + "}"
  }

  /**
   * The rules found and the text around them cover the stylesheet exactly
   * and in order: writing every rule back as it was gives the text back.
   */
  /** The rewrite of the text from `from` on, when its next rule is `rule`. */
  lemma {:induction false} RewriteUnfold(css: string, from: nat, f: (string, string) -> string, rule: Rule)
    requires from <= |css| && NextRule(css, from) == Some(rule)
    ensures rule.end <= |css|
    ensures Rewrite(css, from, f) ==
      css[from..rule.start] + f(css[rule.start..rule.open], css[rule.open + 1..rule.end - 1]) + Rewrite(css, rule.end, f)
  {
  }

  /** A rule written back as it was is the text it was found in. */
  lemma {:induction false} VerbatimSlice(css: string, rule: Rule)
    requires rule.start < rule.open < rule.end <= |css|
    requires css[rule.open] == '{' && css[rule.end - 1] == '}'
    ensures Verbatim(css[rule.start..rule.open], css[rule.open + 1..rule.end - 1]) == css[rule.start..rule.end]
  {
    SliceConcat(css, rule.start, rule.open, rule.end);
    SliceConcat(css, rule.open, rule.open + 1, rule.end);
    SliceConcat(css, rule.open + 1, rule.end - 1, rule.end);
    assert css[rule.open..rule.open + 1] == "{";
    assert css[rule.end - 1..rule.end] == "}";
  }

  /**
   * The rules found and the text around them cover the stylesheet exactly
   * and in order: writing every rule back as it was gives the text back.
   */
  lemma {:induction false} RewriteVerbatim(css: string, from: nat)
    requires from <= |css|
    ensures Rewrite(css, from, Verbatim) == css[from..]
    decreases |css| - from
  {
    match NextRule(css, from)
    case None =>
    case Some(rule) =>
      RewriteUnfold(css, from, Verbatim, rule);
      RewriteVerbatim(css, rule.end);
      VerbatimSlice(css, rule);
      CoverSlices(css, from, rule.start, rule.end, Rewrite(css, from, Verbatim),
        Verbatim(css[rule.start..rule.open], css[rule.open + 1..rule.end - 1]), Rewrite(css, rule.end, Verbatim));
  }

  lemma {:induction false} CoverSlices(css: string, i: nat, j: nat, k: nat, whole: string, piece: string, rest: string)
    requires i <= j <= k <= |css|
    requires whole == css[i..j] + piece + rest && piece == css[j..k] && rest == css[k..]
    ensures whole == css[i..]
  {
    SliceConcat(css, j, k, |css|);
    SliceConcat(css, i, j, |css|);
  }

  /** One step of the rewrite: the text before the next rule, the rule rewritten, then the rest. */
  lemma {:induction false} RewriteStep(css: string, from: nat, f: (string, string) -> string, rule: Rule, piece: string)
    requires from <= |css| && NextRule(css, from) == Some(rule)
    requires piece == f(css[rule.start..rule.open], css[rule.open + 1..rule.end - 1])
    ensures rule.end <= |css|
    ensures forall done :: done + Rewrite(css, from, f) == (done + css[from..rule.start] + piece) + Rewrite(css, rule.end, f)
  {
    RewriteUnfold(css, from, f, rule);
  }

  /** A stylesheet without `{` has no rules, so any rewrite leaves it as it is. */
  lemma {:induction false} NoRulesUnchanged(css: string, f: (string, string) -> string)
    requires forall k :: 0 <= k < |css| ==> css[k] != '{'
    ensures Rewrite(css, 0, f) == css
  {
    match NextRule(css, 0)
    case None =>
    case Some(rule) =>
  }

  // ---------------------------------------------------------------------------
  // The card type of a scope selector
  // ---------------------------------------------------------------------------

  /** A non-empty run of `[\w-]` characters. */
  predicate ClassName(t: string) {
    t != [] && forall k :: 0 <= k < |t| ==> IsClassChar(t[k])
  }

  function CardClass(cardType: string): string {
    "." + cardType + "-card"
  }

  /** The last position in `[lo, hi]` where `-card` occurs. */
  function LastCardIn(s: string, lo: nat, hi: nat): (r: Option<nat>)
    ensures r.Some? ==> lo <= r.value <= hi && OccursAt(s, "-card", r.value)
    ensures r.Some? ==> forall j :: r.value < j <= hi ==> !OccursAt(s, "-card", j)
    ensures r.None? ==> forall j :: lo <= j <= hi ==> !OccursAt(s, "-card", j)
    decreases hi
  {
    if hi < lo then None
    else if OccursAt(s, "-card", hi) then Some(hi)
    else if hi == lo then None
    else LastCardIn(s, lo, hi - 1)
  }

  /**
   * The end of the captured card type when `/\.([\w-]+)-card/` matches at
   * `p`: the greedy group backs off to the last `-card` inside the class run.
   */
  function CardTypeAt(s: string, p: nat): (r: Option<nat>)
    ensures r.Some? ==> p + 2 <= r.value && r.value + 5 <= |s|
    ensures r.Some? ==> ClassName(s[p + 1..r.value])
    ensures r.Some? ==> OccursAt(s, CardClass(s[p + 1..r.value]), p)
  {
    if p + 1 < |s| && s[p] == '.' then
      var e := ScanWhile(s, p + 1, IsClassChar);
      if e >= p + 7 then
        match LastCardIn(s, p + 2, e - 5)
        case None => None
        case Some(j) =>
          SliceConcat(s, p, p + 1, j + 5);
          SliceConcat(s, p + 1, j, j + 5);
          assert s[p..p + 1] == ".";
          Some(j)
      else None
    else None
  }

  /** The leftmost match at or after `from`, as the captured type. */
  function CardTypeFrom(s: string, from: nat): (r: Option<string>)
    ensures r.None? ==> forall p :: from <= p ==> CardTypeAt(s, p).None?
    ensures r.Some? ==> exists p :: from <= p && CardTypeAt(s, p).Some? && r.value == s[p + 1..CardTypeAt(s, p).value]
    decreases |s| - from
  {
    if from >= |s| then None
    else
      match CardTypeAt(s, from)
      case Some(j) => Some(s[from + 1..j])
      case None => CardTypeFrom(s, from + 1)
  }

  /** `selector.match(/\.([\w-]+)-card/)?.[1]`. */
  function CardType(selector: string): Option<string> {
    CardTypeFrom(selector, 0)
  }

  /** A card type found is a class name, and the selector contains its `.X-card` class. */
  lemma {:induction false} CardTypeSound(selector: string)
    requires CardType(selector).Some?
    ensures ClassName(CardType(selector).value)
    ensures Includes(selector, CardClass(CardType(selector).value))
  {
    var p :| 0 <= p && CardTypeAt(selector, p).Some? && CardType(selector).value == selector[p + 1..CardTypeAt(selector, p).value];
    var j := CardTypeAt(selector, p).value;
    assert OccursAt(selector, CardClass(selector[p + 1..j]), p);
  }

  /** Any `.X-card` class in the selector, with `X` a class name, makes the card type defined. */
  lemma {:induction false} CardTypeComplete(selector: string, p: nat, t: string)
    requires ClassName(t) && OccursAt(selector, CardClass(t), p)
    ensures CardType(selector).Some?
  {
    var s := selector;
    var cls := CardClass(t);
    var j := p + 1 + |t|;
    assert s[p..p + |cls|] == cls;
    forall k | p <= k < p + |cls|
      ensures s[k] == cls[k - p]
    {
    }
    assert s[p] == '.';
    forall k | p + 1 <= k < j + 5
      ensures IsClassChar(s[k])
    {
      if k < j {
        assert s[k] == t[k - p - 1];
      } else {
        assert s[k] == "-card"[k - j];
      }
    }
    ScanWhileMaximal(s, p + 1, j + 5, IsClassChar);
    var e := ScanWhile(s, p + 1, IsClassChar);
    assert OccursAt(s, "-card", j) by {
      assert forall k :: j <= k < j + 5 ==> s[k] == "-card"[k - j];
    }
    assert LastCardIn(s, p + 2, e - 5).Some?;
    assert CardTypeAt(s, p).Some?;
  }

  // ---------------------------------------------------------------------------
  // Matching one selector against the card class
  // ---------------------------------------------------------------------------

  /**
   * The end of `(?:\.[\w-]+|:+[^\s]+)*` from `p`, on its greedy path: a dot
   * and a class run, or colons and a run of non-space characters (which
   * swallows everything up to the next whitespace).
   */
  function ChainEnd(sel: string, p: nat): (r: nat)
    requires p <= |sel|
    ensures p <= r <= |sel|
    ensures forall k :: p <= k < r ==> NotSpace(sel[k])
    ensures r > p ==> sel[p] == '.' || sel[p] == ':'
    decreases |sel| - p
  {
    if p + 1 < |sel| && sel[p] == '.' && IsClassChar(sel[p + 1]) then
      ChainEnd(sel, ScanWhile(sel, p + 1, IsClassChar))
    else if p + 1 < |sel| && sel[p] == ':' && NotSpace(sel[p + 1]) then
      ScanWhile(sel, p, NotSpace)
    else p
  }

  predicate HasLineTerminator(s: string) {
    exists k :: 0 <= k < |s| && IsLineTerminator(s[k])
  }

  predicate AllSpace(s: string) {
    forall k :: 0 <= k < |s| ==> IsSpace(s[k])
  }

  /** The two captured groups, and the whitespace the pattern skips between them. */
  datatype CardMatch = CardMatch(chain: string, gap: string, descendants: string)

  /**
   * `sel.match(new RegExp(`^\\${cardClass}((?:\\.[\\w-]+|:+[^\\s]+)*)\\s*(.*)$`))`
   * as written: the card class only has to be a prefix of the selector. The
   * chain ends where its greedy path ends, the gap is the whitespace after
   * it, and `.` requires the rest to hold no line terminator.
   */
  function MatchCardAsWritten(sel: string, cardClass: string): (r: Option<CardMatch>)
    ensures r.Some? ==> StartsWith(sel, cardClass)
    ensures r.Some? ==> sel == cardClass + r.value.chain + r.value.gap + r.value.descendants
  {
    if !StartsWith(sel, cardClass) then None
    else
      var k := |cardClass|;
      var g := ChainEnd(sel, k);
      var w := ScanWhile(sel, g, IsSpace);
      if HasLineTerminator(sel[w..]) then None
      else
        assert sel == sel[..k] + sel[k..g] + sel[g..w] + sel[w..];
        Some(CardMatch(sel[k..g], sel[g..w], sel[w..]))
  }

  /**
   * The parts of a match: a chain without whitespace that is empty or starts
   * with `.` or `:`, a whitespace gap, and a descendant part that is empty
   * or starts with a non-space character and holds no line terminator.
   */
  lemma {:induction false} MatchCardShape(sel: string, cardClass: string)
    requires MatchCardAsWritten(sel, cardClass).Some?
    ensures var m := MatchCardAsWritten(sel, cardClass).value;
      && (forall k :: 0 <= k < |m.chain| ==> NotSpace(m.chain[k]))
      && (m.chain == [] || m.chain[0] == '.' || m.chain[0] == ':')
      && AllSpace(m.gap)
      && (m.descendants == [] || NotSpace(m.descendants[0]))
      && !HasLineTerminator(m.descendants)
  {
    var k := |cardClass|;
    var g := ChainEnd(sel, k);
    var w := ScanWhile(sel, g, IsSpace);
    var m := MatchCardAsWritten(sel, cardClass).value;
    assert m == CardMatch(sel[k..g], sel[g..w], sel[w..]);
  }

  /** The corrected match: the card class must also end at a class-name boundary. */
  function MatchCard(sel: string, cardClass: string): (r: Option<CardMatch>)
    ensures r.Some? ==> StartsWith(sel, cardClass) && (|sel| == |cardClass| || !IsClassChar(sel[|cardClass|]))
    ensures r.Some? ==> r == MatchCardAsWritten(sel, cardClass)
    ensures MatchCardAsWritten(sel, cardClass).Some? && (|sel| == |cardClass| || !IsClassChar(sel[|cardClass|])) ==> r.Some?
  {
    if |sel| > |cardClass| && IsClassChar(sel[|cardClass|]) then None
    else MatchCardAsWritten(sel, cardClass)
  }

  /** Which of the two selector matches a rewrite uses. */
  datatype CardMatcher = AsWritten | Corrected

  function MatchWith(mt: CardMatcher, sel: string, cardClass: string): (r: Option<CardMatch>)
    ensures mt.AsWritten? ==> r == MatchCardAsWritten(sel, cardClass)
    ensures mt.Corrected? ==> r == MatchCard(sel, cardClass)
  {
    match mt
    case AsWritten => MatchCardAsWritten(sel, cardClass)
    case Corrected => MatchCard(sel, cardClass)
  }

  /**
   * As written, `.a-card` matches the selector of another card class,
   * `.a-card-x`, and reads `-x` as its descendant part; the corrected match
   * rejects it.
   */
  lemma {:induction false} CardBoundaryExample(s: string, c: string)
    requires s == ".a-card-x" && c == ".a-card"
    ensures MatchCardAsWritten(s, c) == Some(CardMatch("", "", "-x"))
    ensures MatchCard(s, c) == None
  {
    assert s[..7] == c;
    assert ChainEnd(s, 7) == 7;
    ScanWhileEnd(s, 7, 7, IsSpace);
    assert s[7..] == "-x";
    assert !HasLineTerminator(s[7..]) by {
      assert forall k :: 0 <= k < 2 ==> !IsLineTerminator(s[7..][k]);
    }
  }

  /** A selector that continues the card class with a pseudo-class and a descendant still matches. */
  lemma {:induction false} CardHoverExample(h: string, c: string)
    requires h == ".a-card:hover .b" && c == ".a-card"
    ensures MatchCard(h, c) == Some(CardMatch(":hover", " ", ".b"))
  {
    assert h[..7] == c;
    assert h[7] == ':' && h[8] == 'h';
    ScanWhileEnd(h, 7, 13, NotSpace);
    assert ChainEnd(h, 7) == 13;
    ScanWhileEnd(h, 13, 14, IsSpace);
    assert h[7..13] == ":hover" && h[13..14] == " " && h[14..] == ".b";
    assert !HasLineTerminator(h[14..]) by {
      assert forall k :: 0 <= k < 2 ==> !IsLineTerminator(h[14..][k]);
    }
  }

  // ---------------------------------------------------------------------------
  // Rule texts
  // ---------------------------------------------------------------------------

  /** One scope selector with the matched selector's chain and descendant part. */
  function Combine(scopeSel: string, m: CardMatch): string {
    scopeSel + m.chain + (if m.descendants != "" then " " + m.descendants else "")
  }

  function ForScopes(scopeSels: seq<string>, m: CardMatch): (r: seq<string>)
    ensures |r| == |scopeSels|
    ensures forall j :: 0 <= j < |r| ==> r[j] == Combine(scopeSels[j], m)
  {
    seq(|scopeSels|, j requires 0 <= j < |scopeSels| => Combine(scopeSels[j], m))
  }

  /** `selectorList.flatMap(...)`: each matching selector, once per scope selector. */
  function TransformSelectors(mt: CardMatcher, sels: seq<string>, cardClass: string, scopeSels: seq<string>): seq<string>
    decreases |sels|
  {
    if sels == [] then []
    else
      (match MatchWith(mt, sels[0], cardClass)
       case None => []
       case Some(m) => ForScopes(scopeSels, m))
      + TransformSelectors(mt, sels[1..], cardClass, scopeSels)
  }

  /** The number of selectors that match the card class. */
  function Kept(mt: CardMatcher, sels: seq<string>, cardClass: string): nat
    decreases |sels|
  {
    if sels == [] then 0
    else (if MatchWith(mt, sels[0], cardClass).Some? then 1 else 0) + Kept(mt, sels[1..], cardClass)
  }

  /** The selectors a transformed selector can come from. */
  predicate FromKept(mt: CardMatcher, x: string, sels: seq<string>, cardClass: string, scopeSels: seq<string>) {
    exists i, j :: 0 <= i < |sels| && 0 <= j < |scopeSels| && MatchWith(mt, sels[i], cardClass).Some? &&
      x == Combine(scopeSels[j], MatchWith(mt, sels[i], cardClass).value)
  }

  lemma {:induction false} MulSucc(k: nat, n: nat)
    ensures (1 + k) * n == n + k * n
  {
  }

  /** Every matching selector contributes one selector per scope selector. */
  lemma {:induction false} TransformCount(mt: CardMatcher, sels: seq<string>, cardClass: string, scopeSels: seq<string>)
    ensures |TransformSelectors(mt, sels, cardClass, scopeSels)| == Kept(mt, sels, cardClass) * |scopeSels|
    decreases |sels|
  {
    if sels != [] {
      TransformCount(mt, sels[1..], cardClass, scopeSels);
      var n := |scopeSels|;
      var k := Kept(mt, sels[1..], cardClass);
      var head := match MatchWith(mt, sels[0], cardClass) case None => [] case Some(m) => ForScopes(scopeSels, m);
      var tail := TransformSelectors(mt, sels[1..], cardClass, scopeSels);
      assert TransformSelectors(mt, sels, cardClass, scopeSels) == head + tail;
      assert |tail| == k * n;
      if MatchWith(mt, sels[0], cardClass).None? {
        assert Kept(mt, sels, cardClass) == k && head == [];
      } else {
        assert Kept(mt, sels, cardClass) == 1 + k && |head| == n;
        MulSucc(k, n);
      }
    }
  }

  /** Each transformed selector is a scope selector combined with the match of a selector that starts with the card class. */
  lemma {:induction false} TransformedFrom(mt: CardMatcher, sels: seq<string>, cardClass: string, scopeSels: seq<string>)
    ensures forall x :: x in TransformSelectors(mt, sels, cardClass, scopeSels) ==> FromKept(mt, x, sels, cardClass, scopeSels)
    decreases |sels|
  {
    if sels != [] {
      TransformedFrom(mt, sels[1..], cardClass, scopeSels);
      var head := match MatchWith(mt, sels[0], cardClass) case None => [] case Some(m) => ForScopes(scopeSels, m);
      var tail := TransformSelectors(mt, sels[1..], cardClass, scopeSels);
      assert TransformSelectors(mt, sels, cardClass, scopeSels) == head + tail;
      forall x | x in head + tail
        ensures FromKept(mt, x, sels, cardClass, scopeSels)
      {
        if x in head {
          var j :| 0 <= j < |head| && head[j] == x;
          assert MatchWith(mt, sels[0], cardClass).Some? && x == Combine(scopeSels[j], MatchWith(mt, sels[0], cardClass).value);
        } else {
          assert FromKept(mt, x, sels[1..], cardClass, scopeSels);
          var i, j :| 0 <= i < |sels[1..]| && 0 <= j < |scopeSels| && MatchWith(mt, sels[1..][i], cardClass).Some? &&
            x == Combine(scopeSels[j], MatchWith(mt, sels[1..][i], cardClass).value);
          assert sels[1..][i] == sels[i + 1];
        }
      }
    }
  }

  /** Each matching selector is combined with every scope selector. */
  lemma {:induction false} TransformedCovers(mt: CardMatcher, sels: seq<string>, cardClass: string, scopeSels: seq<string>, i: nat, j: nat)
    requires i < |sels| && j < |scopeSels| && MatchWith(mt, sels[i], cardClass).Some?
    ensures Combine(scopeSels[j], MatchWith(mt, sels[i], cardClass).value) in TransformSelectors(mt, sels, cardClass, scopeSels)
    decreases |sels|
  {
    var head := match MatchWith(mt, sels[0], cardClass) case None => [] case Some(m) => ForScopes(scopeSels, m);
    var tail := TransformSelectors(mt, sels[1..], cardClass, scopeSels);
    assert TransformSelectors(mt, sels, cardClass, scopeSels) == head + tail;
    if i == 0 {
      assert head[j] == Combine(scopeSels[j], MatchWith(mt, sels[i], cardClass).value);
    } else {
      assert sels[1..][i - 1] == sels[i];
      TransformedCovers(mt, sels[1..], cardClass, scopeSels, i - 1, j);
    }
  }

  /** Every selector that starts with the card class ends it at a class-name boundary. */
  predicate AtBoundary(sels: seq<string>, cardClass: string) {
    forall i :: 0 <= i < |sels| && StartsWith(sels[i], cardClass) ==>
      |sels[i]| == |cardClass| || !IsClassChar(sels[i][|cardClass|])
  }

  /** The two matches rewrite a selector list alike when no selector runs on past the card class. */
  lemma {:induction false} MatchersAgree(sels: seq<string>, cardClass: string, scopeSels: seq<string>)
    requires AtBoundary(sels, cardClass)
    ensures TransformSelectors(AsWritten, sels, cardClass, scopeSels) == TransformSelectors(Corrected, sels, cardClass, scopeSels)
    decreases |sels|
  {
    if sels != [] {
      assert forall i :: 0 <= i < |sels| - 1 ==> sels[1..][i] == sels[i + 1];
      MatchersAgree(sels[1..], cardClass, scopeSels);
      assert MatchCardAsWritten(sels[0], cardClass) == MatchCard(sels[0], cardClass);
    }
  }

  /**
   * As written, a scope for `.a-card` rewrites the selector `.a-card-x` of
   * another card class under the scope selector `body`; corrected, it drops it.
   */
  lemma {:induction false} RuleBoundaryExample(s: string, c: string)
    requires s == ".a-card-x" && c == ".a-card"
    ensures TransformSelectors(AsWritten, [s], c, ["body"]) == ["body -x"]
    ensures TransformSelectors(Corrected, [s], c, ["body"]) == []
  {
    CardBoundaryExample(s, c);
    assert [s][1..] == [];
    assert Combine("body", CardMatch("", "", "-x")) == "body -x";
  }

  /** `s.split(',').map(s => s.trim())`. */
  function SplitTrimmed(s: string): (r: seq<string>)
    ensures |r| == |SplitOn(s, ',')|
    ensures forall i :: 0 <= i < |r| ==> r[i] == Trim(SplitOn(s, ',')[i])
  {
    var parts := SplitOn(s, ',');
    seq(|parts|, i requires 0 <= i < |parts| => Trim(parts[i]))
  }

  /**
   * What one rule becomes: its transformed selectors joined by `,\n` with
   * the body unchanged, or nothing when no selector is left.
   */
  function RuleText(mt: CardMatcher, selectors: string, body: string, cardClass: string, scopeSels: seq<string>): (r: string)
    ensures TransformSelectors(mt, SplitTrimmed(selectors), cardClass, scopeSels) == [] ==> r == ""
    ensures TransformSelectors(mt, SplitTrimmed(selectors), cardClass, scopeSels) != [] ==>
      r == Join(TransformSelectors(mt, SplitTrimmed(selectors), cardClass, scopeSels), ",\n") + " {" + body + "}"
  {
    var ts := TransformSelectors(mt, SplitTrimmed(selectors), cardClass, scopeSels);
    if |ts| > 0 then Join(ts, ",\n") + " {" + body + "}" else ""
  }

  /** The rule rewrite for one card class and its scope selectors. */
  function RuleRewriter(mt: CardMatcher, cardClass: string, scopeSels: seq<string>): (string, string) -> string {
    (s, b) => RuleText(mt, s, b, cardClass, scopeSels)
  }

  /** A rule none of whose selectors starts with the card class is dropped. */
  lemma {:induction false} UnmatchedRuleDropped(mt: CardMatcher, selectors: string, body: string, cardClass: string, scopeSels: seq<string>)
    requires forall i :: 0 <= i < |SplitTrimmed(selectors)| ==> !StartsWith(SplitTrimmed(selectors)[i], cardClass)
    ensures RuleText(mt, selectors, body, cardClass, scopeSels) == ""
  {
    var sels := SplitTrimmed(selectors);
    TransformedFrom(mt, sels, cardClass, scopeSels);
    var ts := TransformSelectors(mt, sels, cardClass, scopeSels);
    assert ts != [] ==> FromKept(mt, ts[0], sels, cardClass, scopeSels);
  }

  // ---------------------------------------------------------------------------
  // One scope, and all of them
  // ---------------------------------------------------------------------------

  function ScopeComment(scopeName: string): string {
    "/* scope: " + scopeName + " */\n"
  }

  /** The text one scope contributes: a comment and the CSS, rewritten when the selector names a card type. */
  function ScopeText(mt: CardMatcher, css: string, scopeName: string, selector: string): string {
    match CardType(selector)
    case None => ScopeComment(scopeName) + css
    case Some(t) =>
      ScopeComment(scopeName) + Rewrite(css, 0, RuleRewriter(mt, CardClass(t), SplitTrimmed(selector)))
  }

  /** A scope selector without a `.X-card` class gives the CSS unchanged after the scope comment. */
  lemma {:induction false} NoCardTypeUnchanged(mt: CardMatcher, css: string, scopeName: string, selector: string)
    requires forall p: nat, t :: ClassName(t) ==> !OccursAt(selector, CardClass(t), p)
    ensures ScopeText(mt, css, scopeName, selector) == ScopeComment(scopeName) + css
  {
    if CardType(selector).Some? {
      CardTypeSound(selector);
    }
  }

  /** The scope-rewrite loop of `apply` for one scope. */
  method ScopeCss(mt: CardMatcher, css: string, scopeName: string, selector: string) returns (out: string)
    ensures out == ScopeText(mt, css, scopeName, selector)
  {
    var cardTypeMatch := CardType(selector);
    if cardTypeMatch.None? {
      return ScopeComment(scopeName) + css;
    }
    var cardClass := CardClass(cardTypeMatch.value);
    var scopeSelectors := SplitTrimmed(selector);
    ghost var f := RuleRewriter(mt, cardClass, scopeSelectors);
    ghost var total := Rewrite(css, 0, f);
    var transformed := "";
    var lastIndex := 0;
    var m := NextRule(css, 0);
    while m.Some?
      invariant lastIndex <= |css|
      invariant m == NextRule(css, lastIndex)
      invariant transformed + Rewrite(css, lastIndex, f) == total
      decreases |css| - lastIndex
    {
      var rule := m.value;
      var selectorsStr, properties := css[rule.start..rule.open], css[rule.open + 1..rule.end - 1];
      var piece := RuleText(mt, selectorsStr, properties, cardClass, scopeSelectors);
      RewriteStep(css, lastIndex, f, rule, piece);
      transformed := transformed + css[lastIndex..rule.start] + piece;
      lastIndex := rule.end;
      m := NextRule(css, lastIndex);
    }
    transformed := transformed + css[lastIndex..];
    return ScopeComment(scopeName) + transformed;
  }

  /** No entry after `i` has the key. */
  predicate LastWithKey(scopes: seq<(string, string)>, key: string, i: nat) {
    forall j :: i < j < |scopes| ==> scopes[j].0 != key
  }

  /** `snippet.scopes[scopeName]`: the last entry with that key, as `JSON.parse` keeps the last duplicate. */
  function Lookup(scopes: seq<(string, string)>, key: string): (r: Option<string>)
    ensures r.Some? ==> exists i :: 0 <= i < |scopes| && scopes[i] == (key, r.value) && LastWithKey(scopes, key, i)
    ensures r.None? ==> forall i :: 0 <= i < |scopes| ==> scopes[i].0 != key
    decreases |scopes|
  {
    if scopes == [] then None
    else if scopes[|scopes| - 1].0 == key then Some(scopes[|scopes| - 1].1)
    else
      var r := Lookup(scopes[..|scopes| - 1], key);
      assert forall i :: 0 <= i < |scopes| - 1 ==> scopes[..|scopes| - 1][i] == scopes[i];
      r
  }

  /** `snippet.scopes[scopeName] || "body"`. */
  function ScopeSelector(scopes: seq<(string, string)>, scopeName: string): (r: string)
    ensures r != ""
    ensures Present(Lookup(scopes, scopeName)) ==> r == Lookup(scopes, scopeName).value
    ensures !Present(Lookup(scopes, scopeName)) ==> r == "body"
  {
    match Lookup(scopes, scopeName)
    case Some(sel) => if sel != "" then sel else "body"
    case None => "body"
  }

  /** The texts of the given scopes, in order. */
  function ScopeTexts(mt: CardMatcher, css: string, scopeNames: seq<string>, scopes: seq<(string, string)>): (r: seq<string>)
    ensures |r| == |scopeNames|
    decreases |scopeNames|
  {
    if scopeNames == [] then []
    else
      var last := scopeNames[|scopeNames| - 1];
      ScopeTexts(mt, css, scopeNames[..|scopeNames| - 1], scopes) + [ScopeText(mt, css, last, ScopeSelector(scopes, last))]
  }

  lemma {:induction false} ScopeTextsSnoc(mt: CardMatcher, css: string, scopeNames: seq<string>, scopes: seq<(string, string)>, i: nat)
    requires i < |scopeNames|
    ensures ScopeTexts(mt, css, scopeNames[..i + 1], scopes) ==
      ScopeTexts(mt, css, scopeNames[..i], scopes) + [ScopeText(mt, css, scopeNames[i], ScopeSelector(scopes, scopeNames[i]))]
  {
    assert scopeNames[..i + 1][..i] == scopeNames[..i];
  }

  /** `scopes.map(...).join('\n')`: the style text of a snippet for its selected scopes. */
  method ScopedCss(mt: CardMatcher, css: string, scopeNames: seq<string>, scopes: seq<(string, string)>) returns (out: string)
    ensures out == Join(ScopeTexts(mt, css, scopeNames, scopes), "\n")
  {
    var parts: seq<string> := [];
    for i := 0 to |scopeNames|
      invariant parts == ScopeTexts(mt, css, scopeNames[..i], scopes)
    {
      var sel := ScopeSelector(scopes, scopeNames[i]);
      var part := ScopeCss(mt, css, scopeNames[i], sel);
      ScopeTextsSnoc(mt, css, scopeNames, scopes, i);
      parts := parts + [part];
    }
    assert scopeNames[..|scopeNames|] == scopeNames;
    out := Join(parts, "\n");
  }
}
