/**
 * The studio logo enhancer: the colour of a studio's placeholder (a
 * wrapping 32-bit string hash reduced to a hue, memoised per name), the
 * placeholder's text (initials, or the name wrapped into at most three
 * lines and a font size), studio-name normalisation, and the shape classes
 * a logo image receives, with the per-studio overrides.
 */
module StudioLogo {
  import opened Wrappers
  import opened JsStrings

  // ---------------------------------------------------------------------------
  // colorForStudio
  // ---------------------------------------------------------------------------

  const TwoTo31: int := 0x8000_0000
  const TwoTo32: int := 0x1_0000_0000

  /** `x | 0`: the signed 32-bit integer congruent to `x` modulo 2^32. */
  function ToInt32(x: int): (r: int)
    ensures -TwoTo31 <= r < TwoTo31
    ensures x - r == TwoTo32 * ((x + TwoTo31) / TwoTo32)
    ensures -TwoTo31 <= x < TwoTo31 ==> r == x
  {
    ((x + TwoTo31) % TwoTo32) - TwoTo31
  }

  lemma {:induction false} ModAddMultiple(x: int, k: int)
    ensures (x + TwoTo32 * k) % TwoTo32 == x % TwoTo32
    decreases if k < 0 then -k else k
  {
    if k > 0 {
      ModAddMultiple(x, k - 1);
      assert x + TwoTo32 * k == (x + TwoTo32 * (k - 1)) + TwoTo32;
    } else if k < 0 {
      ModAddMultiple(x, k + 1);
      assert x + TwoTo32 * k == (x + TwoTo32 * (k + 1)) - TwoTo32;
    }
  }

  /** Numbers that differ by a multiple of 2^32 wrap to the same 32-bit value. */
  lemma {:induction false} ToInt32Congruent(a: int, k: int)
    ensures ToInt32(a + TwoTo32 * k) == ToInt32(a)
  {
    ModAddMultiple(a + TwoTo31, k);
    assert a + TwoTo32 * k + TwoTo31 == (a + TwoTo31) + TwoTo32 * k;
  }

  /** The UTF-16 code of a character, as `charCodeAt` gives it (for characters of the basic plane). */
  function CharCode(c: char): int { c as int }

  /** The hash as the loop computes it, wrapping after every step. */
  function HashOf(name: string): int
    decreases |name|
  {
    if name == [] then 0
    else ToInt32(HashOf(name[..|name| - 1]) * 31 + CharCode(name[|name| - 1]))
  }

  /** The reference: the exact polynomial hash, sum of `code(name[i]) * 31^(n-1-i)`. */
  function PolyHash(name: string): int
    decreases |name|
  {
    if name == [] then 0
    else PolyHash(name[..|name| - 1]) * 31 + CharCode(name[|name| - 1])
  }

  /**
   * Wrapping after every step gives the same hash as computing the
   * polynomial exactly and wrapping once; so the result is always a
   * signed 32-bit integer.
   */
  lemma {:induction false} HashWrapsOnce(name: string)
    ensures HashOf(name) == ToInt32(PolyHash(name))
    ensures -TwoTo31 <= HashOf(name) < TwoTo31
    decreases |name|
  {
    if name != [] {
      var pre := name[..|name| - 1];
      var c := CharCode(name[|name| - 1]);
      HashWrapsOnce(pre);
      var p := PolyHash(pre);
      var q := (p + TwoTo31) / TwoTo32;
      assert HashOf(pre) == p - TwoTo32 * q;
      assert HashOf(pre) * 31 + c == (p * 31 + c) + TwoTo32 * (-31 * q);
      ToInt32Congruent(p * 31 + c, -31 * q);
    }
  }

  /** The hash loop of `colorForStudio`. */
  method ComputeHash(name: string) returns (hash: int)
    ensures hash == HashOf(name)
    ensures -TwoTo31 <= hash < TwoTo31
  {
    hash := 0;
    var i := 0;
    while i < |name|
      invariant 0 <= i <= |name|
      invariant hash == HashOf(name[..i])
    {
      assert name[..i + 1][..i] == name[..i];
      hash := ToInt32(hash * 31 + CharCode(name[i]));
      i := i + 1;
    }
    assert name[..i] == name;
  }

  function Abs(x: int): nat { if x < 0 then -x else x }

  /** `Math.abs(hash) % 360`. */
  function Hue(hash: int): (h: nat)
    ensures 0 <= h <= 359
  {
    Abs(hash) % 360
  }

  function Hsl(hue: nat): string { "hsl(" + NatToString(hue) + ", 68%, 55%)" }

  /** The persistent colour of a studio name. */
  function ColorOf(name: string): string { Hsl(Hue(HashOf(name))) }

  /** The memo of persistent colours. */
  class StudioColors {
    var cache: map<string, string>

    /** Every memoised colour is the persistent colour of its name. */
    predicate Valid()
      reads this
    {
      forall n :: n in cache ==> cache[n] == ColorOf(n)
    }

    constructor ()
      ensures Valid() && cache == map[]
    {
      cache := map[];
    }

    /**
     * `colorForStudio`: without persistent colours the (random) colour is
     * returned and nothing is memoised; otherwise the memoised colour, or the
     * hashed colour, which is then memoised.
     */
    method ColorForStudio(name: string, persistent: bool, randomColor: string) returns (color: string)
      requires Valid()
      modifies this
      ensures Valid()
      ensures !persistent ==> color == randomColor && cache == old(cache)
      ensures persistent ==> color == ColorOf(name) && cache == old(cache)[name := color]
    {
      if !persistent { return randomColor; }
      if name in cache {
        color := cache[name];
        return;
      }
      var hash := ComputeHash(name);
      var hue := Hue(hash);
      color := Hsl(hue);
      cache := cache[name := color];
    }
  }

  // ---------------------------------------------------------------------------
  // createPlaceholder: initials, wrapping and font size
  // ---------------------------------------------------------------------------

  /** `(name || "Unknown").trim()`. */
  function PlaceholderText(name: Option<string>): string {
    Trim(if name.None? || name.value == "" then "Unknown" else name.value)
  }

  /** `words.map(w => w[0] || "").join("")`. */
  function FirstChars(words: seq<string>): (r: string)
    ensures |r| <= |words|
  {
    if words == [] then ""
    else (if words[0] == "" then "" else [words[0][0]]) + FirstChars(words[1..])
  }

  function Min(a: nat, b: nat): nat { if a < b then a else b }

  /** The initials: first characters of the words, upper-cased, at most two. */
  function Initials(text: string): (r: string)
    ensures |r| <= 2
    ensures forall i :: 0 <= i < |r| ==> !IsAsciiLower(r[i])
  {
    var u := UpperStr(FirstChars(SplitWs(text)));
    u[..Min(2, |u|)]
  }

  lemma {:induction false} FirstCharsNonEmpty(words: seq<string>)
    requires forall k :: 0 <= k < |words| ==> words[k] != ""
    ensures |FirstChars(words)| == |words|
    ensures forall k :: 0 <= k < |words| ==> FirstChars(words)[k] == words[k][0]
  {
    if words != [] {
      FirstCharsNonEmpty(words[1..]);
    }
  }

  /**
   * For a trimmed, non-empty text the initials are the upper-cased first
   * characters of the first two words (one if there is one word).
   */
  lemma {:induction false} InitialsOfWords(text: string)
    requires text != [] && !IsSpace(text[0]) && !IsSpace(text[|text| - 1])
    ensures var words := SplitWs(text);
      && (forall k :: 0 <= k < |words| ==> words[k] != "")
      && |Initials(text)| == Min(2, |words|)
      && forall k :: 0 <= k < |Initials(text)| ==> Initials(text)[k] == Upper(words[k][0])
  {
    SplitWsNonEmpty(text);
    FirstCharsNonEmpty(SplitWs(text));
  }

  /** The state of the wrap loop: the finished lines and the line being filled. */
  datatype Wrap = Wrap(lines: seq<string>, current: string)

  const LineWidth: nat := 8

  /** One iteration: a word that would overflow a non-empty line starts a new one. */
  function WrapStep(st: Wrap, w: string): Wrap {
    var test := if st.current != "" then st.current + " " + w else w;
    if |test| > LineWidth && st.current != "" then Wrap(st.lines + [st.current], w)
    else Wrap(st.lines, test)
  }

  /** The loop state after the given words. */
  function WrapWords(words: seq<string>): Wrap
    decreases |words|
  {
    if words == [] then Wrap([], "")
    else WrapStep(WrapWords(words[..|words| - 1]), words[|words| - 1])
  }

  /** After the loop a non-empty current line is pushed. */
  function Flush(st: Wrap): seq<string> {
    if st.current != "" then st.lines + [st.current] else st.lines
  }

  /** More than three lines keep the first two; the rest are joined into the third. */
  function CapLines(lines: seq<string>): seq<string> {
    if |lines| > 3 then [lines[0], lines[1], Join(lines[2..], " ")] else lines
  }

  /** The wrap loop, the final push and the three-line cap of `createPlaceholder`. */
  method WrapLines(words: seq<string>) returns (lines: seq<string>)
    ensures lines == CapLines(Flush(WrapWords(words)))
  {
    lines := [];
    var current := "";
    var i := 0;
    while i < |words|
      invariant 0 <= i <= |words|
      invariant Wrap(lines, current) == WrapWords(words[..i])
    {
      assert words[..i + 1][..i] == words[..i];
      var w := words[i];
      var test := if current != "" then current + " " + w else w;
      if |test| > LineWidth && current != "" {
        lines := lines + [current];
        current := w;
      } else {
        current := test;
      }
      i := i + 1;
    }
    assert words[..i] == words;
    if current != "" { lines := lines + [current]; }
    if |lines| > 3 {
      lines := [lines[0], lines[1], Join(lines[2..], " ")];
    }
  }

  lemma {:induction false} JoinSnoc(xs: seq<string>, y: string, sep: string)
    ensures Join(xs + [y], sep) == if xs == [] then y else Join(xs, sep) + sep + y
  {
    if xs != [] { JoinAppend(xs, [y], sep); }
    else { assert xs + [y] == [y]; }
  }

  /** One step of the loop appends the word to the joined lines and keeps every line non-empty. */
  lemma {:induction false} WrapStepKeeps(st: Wrap, w: string)
    requires st.current != "" && w != ""
    requires forall k :: 0 <= k < |st.lines| ==> st.lines[k] != ""
    ensures var nx := WrapStep(st, w);
      && nx.current != ""
      && Join(nx.lines + [nx.current], " ") == Join(st.lines + [st.current], " ") + " " + w
      && (forall k :: 0 <= k < |nx.lines| ==> nx.lines[k] != "")
  {
    var test := st.current + " " + w;
    if |test| > LineWidth {
      assert WrapStep(st, w) == Wrap(st.lines + [st.current], w);
      JoinSnoc(st.lines + [st.current], w, " ");
    } else {
      assert WrapStep(st, w) == Wrap(st.lines, test);
      JoinSnoc(st.lines, test, " ");
      JoinSnoc(st.lines, st.current, " ");
      if st.lines != [] {
        assert Join(st.lines, " ") + " " + test == Join(st.lines, " ") + " " + st.current + " " + w;
      }
    }
  }

  /**
   * The wrap loop only regroups the words: for non-empty words, the lines
   * joined with spaces give the words joined with spaces, and every line
   * is non-empty.
   */
  lemma {:induction false} WrapKeepsWords(words: seq<string>)
    requires forall k :: 0 <= k < |words| ==> words[k] != ""
    ensures var st := WrapWords(words);
      && (words == [] <==> st.current == "")
      && (words == [] ==> st.lines == [])
      && (words != [] ==> Join(st.lines + [st.current], " ") == Join(words, " "))
      && (forall k :: 0 <= k < |st.lines| ==> st.lines[k] != "")
    decreases |words|
  {
    if words != [] {
      var pre := words[..|words| - 1];
      var w := words[|words| - 1];
      assert words == pre + [w];
      WrapKeepsWords(pre);
      var st := WrapWords(pre);
      assert WrapWords(words) == WrapStep(st, w);
      if pre == [] {
        assert WrapWords(words) == Wrap([], w);
      } else {
        JoinSnoc(pre, w, " ");
        WrapStepKeeps(st, w);
      }
    }
  }

  /** After flushing, the lines still join to the words. */
  lemma {:induction false} FlushKeepsWords(words: seq<string>)
    requires forall k :: 0 <= k < |words| ==> words[k] != ""
    ensures Join(Flush(WrapWords(words)), " ") == Join(words, " ")
    ensures forall k :: 0 <= k < |Flush(WrapWords(words))| ==> Flush(WrapWords(words))[k] != ""
  {
    WrapKeepsWords(words);
  }

  /** A line holding a space, that is two or more (space-free) words, fits the width. */
  lemma {:induction false} WrapLinesShort(words: seq<string>)
    requires forall k :: 0 <= k < |words| ==> NoSpace(words[k])
    ensures var st := WrapWords(words);
      forall l :: l in st.lines + [st.current] && ' ' in l ==> |l| <= LineWidth
    decreases |words|
  {
    if words != [] {
      var pre := words[..|words| - 1];
      var w := words[|words| - 1];
      assert forall k :: 0 <= k < |pre| ==> pre[k] == words[k];
      WrapLinesShort(pre);
      assert ' ' !in w;
      var st := WrapWords(pre);
      var nx := WrapWords(words);
      forall l | l in nx.lines + [nx.current] && ' ' in l ensures |l| <= LineWidth {
        if l in st.lines + [st.current] { }
      }
    }
  }

  /** The cap leaves at most three lines, keeps the first two and preserves the joined text. */
  lemma {:induction false} CapLinesSpec(lines: seq<string>)
    ensures var c := CapLines(lines);
      && |c| <= 3
      && Join(c, " ") == Join(lines, " ")
      && (|lines| <= 3 ==> c == lines)
      && (|lines| > 3 ==> c[0] == lines[0] && c[1] == lines[1])
  {
    if |lines| > 3 {
      var c := CapLines(lines);
      var tail := Join(lines[2..], " ");
      assert c[1..] == [lines[1], tail] && c[1..][1..] == [tail];
      assert Join(c[1..], " ") == lines[1] + " " + tail;
      assert lines[1..][1..] == lines[2..];
      assert Join(lines[1..], " ") == lines[1] + " " + tail;
    }
  }

  /** The longest line length; `None` stands for `Math.max()` of nothing, which is -Infinity. */
  function MaxLen(lines: seq<string>): (m: Option<nat>)
    ensures m.None? <==> lines == []
    ensures m.Some? ==> forall k :: 0 <= k < |lines| ==> |lines[k]| <= m.value
    ensures m.Some? ==> exists k :: 0 <= k < |lines| && |lines[k]| == m.value
  {
    if lines == [] then None
    else
      var rest := MaxLen(lines[1..]);
      if rest.None? || |lines[0]| >= rest.value then Some(|lines[0]|)
      else (assert exists k :: 1 <= k < |lines| && |lines[k]| == rest.value by {
              var k :| 0 <= k < |lines[1..]| && |lines[1..][k]| == rest.value;
              assert lines[k + 1] == lines[1..][k];
            }
            rest)
  }

  /** The font-size table on the longest line's length. */
  function FontSize(lines: seq<string>): (f: nat)
    ensures f == 5 || f == 7 || f == 10
    ensures f == 10 <==> lines == [] || MaxLen(lines).value <= 6
    ensures f == 5 <==> lines != [] && 13 <= MaxLen(lines).value <= 16
  {
    match MaxLen(lines)
    case None => 10
    case Some(m) =>
      if m <= 6 then 10
      else if m <= 11 then 7
      else if m <= 12 then 7
      else if m <= 14 then 5
      else if m <= 16 then 5
      else 7
  }

  /**
   * The whole text-mode layout of a placeholder: the lines join back to the
   * trimmed name's words, there are at most three, and the font size is 5, 7
   * or 10.
   */
  lemma {:induction false} PlaceholderLayout(name: Option<string>)
    ensures var text := PlaceholderText(name);
      var lines := CapLines(Flush(WrapWords(SplitWs(text))));
      && |lines| <= 3
      && (text != "" ==> Join(lines, " ") == Join(SplitWs(text), " "))
      && (text == "" ==> lines == [] && FontSize(lines) == 10)
  {
    var text := PlaceholderText(name);
    var words := SplitWs(text);
    CapLinesSpec(Flush(WrapWords(words)));
    if text != "" {
      SplitWsNonEmpty(text);
      FlushKeepsWords(words);
    } else {
      assert words == [""];
      assert WrapWords(words) == WrapStep(Wrap([], ""), "");
    }
  }

  // ---------------------------------------------------------------------------
  // normalizeStudioName
  // ---------------------------------------------------------------------------

  predicate IsLowerAlnum(c: char) { IsAsciiLower(c) || IsDigit(c) }

  /**
   * `normalizeStudioName`: lower-case, drop a final `logo`, turn every run
   * of characters outside `[a-z0-9]` into one space, trim.
   */
  function NormalizeStudioName(name: Option<string>): string {
    Trim(ReplaceRuns(StripLogo(LowerStr(name.GetOr(""))), IsLowerAlnum, ' '))
  }

  /** `.replace(/logo$/i, '')`, here on the already lower-cased name. */
  function StripLogo(low: string): string {
    if EndsWith(low, "logo") then low[..|low| - 4] else low
  }

  /**
   * A normalised name holds only `[a-z0-9 ]`, does not start or end with a
   * space, and has no two spaces in a row.
   */
  lemma {:induction false} NormalizedShape(name: Option<string>)
    ensures var r := NormalizeStudioName(name);
      && (forall i :: 0 <= i < |r| ==> IsLowerAlnum(r[i]) || r[i] == ' ')
      && (r != [] ==> r[0] != ' ' && r[|r| - 1] != ' ')
      && (forall i :: 0 <= i < |r| - 1 ==> !(r[i] == ' ' && r[i + 1] == ' '))
  {
    CleanedShape(StripLogo(LowerStr(name.GetOr(""))));
  }

  lemma {:induction false} CleanedShape(s: string)
    ensures var r := Trim(ReplaceRuns(s, IsLowerAlnum, ' '));
      && (forall i :: 0 <= i < |r| ==> IsLowerAlnum(r[i]) || r[i] == ' ')
      && (r != [] ==> r[0] != ' ' && r[|r| - 1] != ' ')
      && (forall i :: 0 <= i < |r| - 1 ==> !(r[i] == ' ' && r[i + 1] == ' '))
  {
    ReplaceRunsSingle(s, IsLowerAlnum, ' ');
    TrimmedShape(ReplaceRuns(s, IsLowerAlnum, ' '));
  }

  lemma {:induction false} TrimmedShape(x: string)
    requires forall i :: 0 <= i < |x| ==> IsLowerAlnum(x[i]) || x[i] == ' '
    requires RepFollowedByKept(x, IsLowerAlnum, ' ')
    ensures var r := Trim(x);
      && (forall i :: 0 <= i < |r| ==> IsLowerAlnum(r[i]) || r[i] == ' ')
      && (r != [] ==> r[0] != ' ' && r[|r| - 1] != ' ')
      && (forall i :: 0 <= i < |r| - 1 ==> !(r[i] == ' ' && r[i + 1] == ' '))
  {
    TrimIsSlice(x);
    assert IsSpace(' ');
    var r := Trim(x);
    var a := LeadingSpaces(x);
    forall i | 0 <= i < |r| - 1 ensures !(r[i] == ' ' && r[i + 1] == ' ') {
      assert r[i] == x[a + i] && r[i + 1] == x[a + i + 1];
      if x[a + i] == ' ' { assert IsLowerAlnum(x[a + i + 1]); }
    }
  }

  /** A final `logo`, in any case, is dropped. */
  lemma {:induction false} NormalizeDropsLogo(x: string, suffix: string)
    requires LowerStr(suffix) == "logo" && !EndsWith(LowerStr(x), "logo")
    ensures NormalizeStudioName(Some(x + suffix)) == NormalizeStudioName(Some(x))
  {
    var low := LowerStr(x + suffix);
    assert low == LowerStr(x) + LowerStr(suffix);
    assert low[..|low| - 4] == LowerStr(x);
  }

  /** An absent name and an empty one both normalise to "". */
  lemma {:induction false} NormalizeAbsent()
    ensures NormalizeStudioName(None) == "" && NormalizeStudioName(Some("")) == ""
  {
  }

  // ---------------------------------------------------------------------------
  // classifyLogo and the studio overrides
  // ---------------------------------------------------------------------------

  const LogoSize: nat := 40

  const Wide := "logo-wide"
  const Tall := "logo-tall"
  const Square := "logo-square"
  const Skinny := "logo-skinny"
  const Fat := "logo-fat"
  const ShapeClasses: set<string> := {Wide, Tall, Square, Skinny, Fat}

  /** `naturalWidth || LOGO_SIZE`: a zero dimension counts as 40. */
  function Dim(n: nat): (d: nat)
    ensures d > 0
  {
    if n == 0 then LogoSize else n
  }

  /** `ratio > 1.1` wide, else `ratio < 0.75` tall, else square. */
  function Primary(w: nat, h: nat): string
    requires w > 0 && h > 0
  {
    if 10 * w > 11 * h then Wide else if 4 * w < 3 * h then Tall else Square
  }

  function Max(a: nat, b: nat): nat { if a < b then b else a }

  /** `fill < 0.28` skinny, else `fill > 0.4` fat, where fill is min over max. */
  function Secondary(w: nat, h: nat): Option<string>
    requires w > 0 && h > 0
  {
    if 100 * Min(w, h) < 28 * Max(w, h) then Some(Skinny) else if 5 * Min(w, h) > 2 * Max(w, h) then Some(Fat) else None
  }

  /** The cross-multiplied thresholds are the ratio comparisons of the source, on exact ratios. */
  lemma {:induction false} ThresholdsAreRatios(w: nat, h: nat)
    requires w > 0 && h > 0
    ensures (10 * w > 11 * h) <==> (w as real) / (h as real) > 1.1
    ensures (4 * w < 3 * h) <==> (w as real) / (h as real) < 0.75
  {
    DivGreater(w as real, 1.1, h as real);
    DivLess(w as real, 0.75, h as real);
  }

  /**
   * The thickness class on exact ratios: with fill the smaller dimension over
   * the larger, below 0.28 is skinny, above 0.4 fat, and in between neither.
   */
  lemma {:induction false} FillThresholdsAreRatios(w: nat, h: nat)
    requires w > 0 && h > 0
    ensures var fill := (Min(w, h) as real) / (Max(w, h) as real);
      Secondary(w, h) == if fill < 0.28 then Some(Skinny) else if fill > 0.4 then Some(Fat) else None
  {
    DivLess(Min(w, h) as real, 0.28, Max(w, h) as real);
    DivGreater(Min(w, h) as real, 0.4, Max(w, h) as real);
  }

  lemma {:induction false} DivGreater(a: real, b: real, c: real)
    requires c > 0.0
    ensures a / c > b <==> a > b * c
  {
    var q := a / c;
    assert q * c == a;
    if q > b { assert (q - b) * c > 0.0; assert q * c - b * c > 0.0; }
  }

  lemma {:induction false} DivLess(a: real, b: real, c: real)
    requires c > 0.0
    ensures a / c < b <==> a < b * c
  {
    var q := a / c;
    assert q * c == a;
    if q < b { assert (b - q) * c > 0.0; assert b * c - q * c > 0.0; }
  }

  function OptionSet(o: Option<string>): set<string> {
    match o case None => {} case Some(c) => {c}
  }

  /** The classes after the shape classification, before overrides. */
  function Shape(classes: set<string>, naturalWidth: nat, naturalHeight: nat): set<string> {
    var w := Dim(naturalWidth);
    var h := Dim(naturalHeight);
    (classes - ShapeClasses) + {Primary(w, h)} + OptionSet(Secondary(w, h))
  }

  /**
   * Exactly one of wide/tall/square and at most one of skinny/fat is set,
   * and classes outside the five are untouched.
   */
  lemma {:induction false} ShapeSpec(classes: set<string>, naturalWidth: nat, naturalHeight: nat)
    ensures var r := Shape(classes, naturalWidth, naturalHeight);
      && |r * {Wide, Tall, Square}| == 1
      && r * {Wide, Tall, Square} == {Primary(Dim(naturalWidth), Dim(naturalHeight))}
      && r * {Skinny, Fat} == OptionSet(Secondary(Dim(naturalWidth), Dim(naturalHeight)))
      && !(Skinny in r && Fat in r)
      && (forall c :: c !in ShapeClasses ==> (c in r <==> c in classes))
  {
    var w := Dim(naturalWidth);
    var h := Dim(naturalHeight);
    var r := Shape(classes, naturalWidth, naturalHeight);
    assert r * {Wide, Tall, Square} == {Primary(w, h)};
  }

  /** A zero dimension is read as 40, so a square-looking image of unknown size is square and fat. */
  lemma {:induction false} ShapeUnknownSize(classes: set<string>)
    ensures Wide !in Shape(classes, 0, 0) && Tall !in Shape(classes, 0, 0)
    ensures Square in Shape(classes, 0, 0) && Fat in Shape(classes, 0, 0) && Skinny !in Shape(classes, 0, 0)
  {
  }

  /** A studio's override: classes to remove, then classes to force. */
  datatype Override = Override(force: Option<seq<string>>, remove: Option<seq<string>>)

  function ListSet(l: Option<seq<string>>): set<string> {
    match l case None => {} case Some(xs) => set x | x in xs
  }

  /** The classes after an override. */
  function ApplyOverride(classes: set<string>, ov: Override): set<string> {
    (classes - ListSet(ov.remove)) + ListSet(ov.force)
  }

  /** The name an image is looked up by: its `alt`, or failing that the enclosing link's title. */
  function StudioKey(alt: Option<string>, linkTitle: Option<string>): string {
    NormalizeStudioName(if alt.Some? && alt.value != "" then alt else linkTitle)
  }

  /** The classes after `applyStudioOverride` for the given studio key. */
  function WithOverride(classes: set<string>, overrides: map<string, Override>, studio: string): set<string> {
    if studio == "" || studio !in overrides then classes else ApplyOverride(classes, overrides[studio])
  }

  /**
   * Forced classes are present afterwards; removed classes that are not forced
   * are absent; every other class is untouched. With no override, or an empty
   * key, nothing changes.
   */
  lemma {:induction false} OverrideSpec(classes: set<string>, overrides: map<string, Override>, studio: string)
    ensures var r := WithOverride(classes, overrides, studio);
      && (studio == "" || studio !in overrides ==> r == classes)
      && (studio != "" && studio in overrides ==>
            var ov := overrides[studio];
            && (ov.force.Some? ==> forall c :: c in ov.force.value ==> c in r)
            && (ov.remove.Some? ==> forall c :: c in ov.remove.value && c !in ListSet(ov.force) ==> c !in r)
            && (forall c :: c !in ListSet(ov.force) && c !in ListSet(ov.remove) ==> (c in r <==> c in classes)))
  {
  }

  /** A logo image: its class list and the names it can be identified by. */
  class LogoImage {
    var classes: set<string>
    const alt: Option<string>
    const linkTitle: Option<string>

    constructor (cs: set<string>, a: Option<string>, t: Option<string>)
      ensures classes == cs && alt == a && linkTitle == t
    {
      classes := cs;
      alt := a;
      linkTitle := t;
    }

    /** `applyStudioOverride`. */
    method ApplyStudioOverride(overrides: map<string, Override>)
      modifies this
      ensures classes == WithOverride(old(classes), overrides, StudioKey(alt, linkTitle))
    {
      var studio := StudioKey(alt, linkTitle);
      if studio == "" { return; }
      if studio !in overrides { return; }
      var ov := overrides[studio];
      if ov.remove.Some? { classes := classes - ListSet(ov.remove); }
      if ov.force.Some? { classes := classes + ListSet(ov.force); }
    }

    /** The `onload` handler of `classifyLogo`: classify by the natural size, then apply the override. */
    method Classify(naturalWidth: nat, naturalHeight: nat, overrides: map<string, Override>)
      modifies this
      ensures classes == WithOverride(Shape(old(classes), naturalWidth, naturalHeight), overrides, StudioKey(alt, linkTitle))
    {
      var w := Dim(naturalWidth);
      var h := Dim(naturalHeight);
      classes := classes - ShapeClasses;
      if 10 * w > 11 * h { classes := classes + {Wide}; }
      else if 4 * w < 3 * h { classes := classes + {Tall}; }
      else { classes := classes + {Square}; }
      var mn := if w < h then w else h;
      var mx := if w < h then h else w;
      if 100 * mn < 28 * mx { classes := classes + {Skinny}; }
      else if 5 * mn > 2 * mx { classes := classes + {Fat}; }
      ApplyStudioOverride(overrides);
    }
  }

  /** The overrides a fresh configuration starts with. */
  const DefaultOverrides: map<string, Override> := map[
    "giorgio grandi" := Override(Some([Wide, Skinny]), Some([Fat])),
    "futanaria" := Override(Some([Wide, Fat]), Some([Skinny])),
    "tushy" := Override(Some([Wide, Fat]), Some([Skinny])),
    "red light district" := Override(Some([Wide, Skinny]), Some([Fat]))
  ]

  /** The overrides held by the configuration, keyed by normalised studio name. */
  class StudioConfig {
    var overrides: map<string, Override>

    constructor ()
      ensures overrides == DefaultOverrides
    {
      overrides := DefaultOverrides;
    }

    /** `addStudioOverride`: store under the normalised name (persisting is left out). */
    method AddStudioOverride(studioName: Option<string>, ov: Override)
      modifies this
      ensures overrides == old(overrides)[NormalizeStudioName(studioName) := ov]
    {
      var normalized := NormalizeStudioName(studioName);
      overrides := overrides[normalized := ov];
    }

    /** `removeStudioOverride`: delete the normalised name. */
    method RemoveStudioOverride(studioName: Option<string>)
      modifies this
      ensures overrides == old(overrides) - {NormalizeStudioName(studioName)}
    {
      var normalized := NormalizeStudioName(studioName);
      overrides := overrides - {normalized};
    }
  }

  /**
   * An override added under a name applies to every image whose key
   * normalises the same way; once removed, such images are left as they are.
   */
  lemma {:induction false} AddRemoveOverride(overrides: map<string, Override>, studioName: Option<string>, ov: Override,
                          classes: set<string>, alt: Option<string>, linkTitle: Option<string>)
    requires StudioKey(alt, linkTitle) == NormalizeStudioName(studioName) != ""
    ensures var key := NormalizeStudioName(studioName);
      && WithOverride(classes, overrides[key := ov], StudioKey(alt, linkTitle)) == ApplyOverride(classes, ov)
      && WithOverride(classes, overrides - {key}, StudioKey(alt, linkTitle)) == classes
  {
  }
}
