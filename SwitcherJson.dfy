/**
 * `JSON.stringify` and `JSON.parse` on the one kind of value the switcher
 * stores as JSON: the list of scope names a snippet is enabled for.
 */
module SwitcherJson {
  import opened Wrappers
  import opened JsStrings

  const SyntaxError := "SyntaxError"

  // ---------------------------------------------------------------------------
  // JSON.stringify on an array of strings
  // ---------------------------------------------------------------------------

  function HexDigit(n: nat): (c: char)
    requires n < 16
  {
    if n < 10 then ('0' as int + n) as char else ('a' as int + n - 10) as char
  }

  /**
   * The JSON text of one character inside a string literal: the quote and
   * backslash are escaped, the control characters with a short escape get
   * it, the other control characters become `\u00xx`, anything else stays.
   */
  function EscapeChar(c: char): (e: string)
    ensures |e| >= 1
  {
    if c == '"' then "\\\""
    else if c == '\\' then "\\\\"
    else if c == '\U{0008}' then "\\b"
    else if c == '\U{000C}' then "\\f"
    else if c == '\n' then "\\n"
    else if c == '\r' then "\\r"
    else if c == '\t' then "\\t"
    else if (c as int) < 0x20 then "\\u00" + [HexDigit(c as int / 16), HexDigit(c as int % 16)]
    else [c]
  }

  function EscapeChars(s: string): string {
    if s == [] then "" else EscapeChar(s[0]) + EscapeChars(s[1..])
  }

  /** `JSON.stringify` of a string. */
  function Quote(s: string): string {
    "\"" + EscapeChars(s) + "\""
  }

  function QuoteAll(xs: seq<string>): (r: seq<string>)
    ensures |r| == |xs|
  {
    if xs == [] then [] else [Quote(xs[0])] + QuoteAll(xs[1..])
  }

  /** `JSON.stringify` of an array of strings: no whitespace, elements joined by commas. */
  function Stringify(xs: seq<string>): string {
    "[" + Join(QuoteAll(xs), ",") + "]"
  }

  // ---------------------------------------------------------------------------
  // JSON.parse, accepting a JSON array of strings
  // ---------------------------------------------------------------------------

  predicate IsJsonSpace(c: char) {
    c == ' ' || c == '\t' || c == '\n' || c == '\r'
  }

  /** The text after any leading JSON whitespace. */
  function SkipSpace(s: string): (r: string)
    ensures |r| <= |s|
    ensures r == [] || !IsJsonSpace(r[0])
    ensures s == [] || !IsJsonSpace(s[0]) ==> r == s
  {
    if s != [] && IsJsonSpace(s[0]) then SkipSpace(s[1..]) else s
  }

  function HexValue(c: char): Option<nat> {
    if '0' <= c <= '9' then Some(c as int - '0' as int)
    else if 'a' <= c <= 'f' then Some(c as int - 'a' as int + 10)
    else if 'A' <= c <= 'F' then Some(c as int - 'A' as int + 10)
    else None
  }

  /** Four hexadecimal digits as a code unit, or `None`. */
  function Hex4(s: string): (r: Option<nat>)
    requires |s| == 4
    ensures r.Some? ==> r.value < 0x10000
  {
    match (HexValue(s[0]), HexValue(s[1]), HexValue(s[2]), HexValue(s[3]))
    case (Some(a), Some(b), Some(c), Some(d)) =>
      if a < 16 && b < 16 && c < 16 && d < 16 then Some(((a * 16 + b) * 16 + c) * 16 + d) else None
    case _ => None
  }

  /**
   * The escape sequence at the start of `s` (which starts with a backslash):
   * the character it stands for and its length.
   */
  function Unescape(s: string): (r: Option<(char, nat)>)
    requires s != [] && s[0] == '\\'
    ensures r.Some? ==> 2 <= r.value.1 <= |s|
  {
    if |s| < 2 then None
    else if s[1] == '"' then Some(('"', 2))
    else if s[1] == '\\' then Some(('\\', 2))
    else if s[1] == '/' then Some(('/', 2))
    else if s[1] == 'b' then Some(('\U{0008}', 2))
    else if s[1] == 'f' then Some(('\U{000C}', 2))
    else if s[1] == 'n' then Some(('\n', 2))
    else if s[1] == 'r' then Some(('\r', 2))
    else if s[1] == 't' then Some(('\t', 2))
    else if s[1] == 'u' && |s| >= 6 then
      match Hex4(s[2..6])
      case Some(v) => if v < 0xD800 || 0xE000 <= v then Some((v as char, 6)) else None
      case None => None
    else None
  }

  /**
   * The characters of a string literal whose opening quote is already read:
   * its value and the text after its closing quote. Raw control characters,
   * unknown escapes and a missing closing quote are syntax errors.
   */
  function ParseChars(s: string): (r: Result<(string, string)>)
    ensures r.Ok? ==> |r.value.1| < |s|
    decreases |s|
  {
    if s == [] then Err(SyntaxError)
    else if s[0] == '"' then Ok(("", s[1..]))
    else if s[0] == '\\' then
      match Unescape(s)
      case None => Err(SyntaxError)
      case Some((c, n)) =>
        match ParseChars(s[n..])
        case Err(e) => Err(e)
        case Ok((v, rest)) => Ok(([c] + v, rest))
    else if (s[0] as int) < 0x20 then Err(SyntaxError)
    else
      match ParseChars(s[1..])
      case Err(e) => Err(e)
      case Ok((v, rest)) => Ok(([s[0]] + v, rest))
  }

  /**
   * The elements of a non-empty array, from the first element's opening
   * quote up to and including the closing bracket: the strings and the text
   * after the bracket.
   */
  function ParseElements(s: string): (r: Result<(seq<string>, string)>)
    ensures r.Ok? ==> |r.value.1| < |s|
    decreases |s|
  {
    if s == [] || s[0] != '"' then Err(SyntaxError)
    else
      match ParseChars(s[1..])
      case Err(e) => Err(e)
      case Ok((x, rest)) =>
        var t := SkipSpace(rest);
        if t == [] then Err(SyntaxError)
        else if t[0] == ']' then Ok(([x], t[1..]))
        else if t[0] == ',' then
          match ParseElements(SkipSpace(t[1..]))
          case Err(e) => Err(e)
          case Ok((xs, after)) => Ok(([x] + xs, after))
        else Err(SyntaxError)
  }

  /**
   * `JSON.parse` of a text holding an array of strings, with JSON whitespace
   * allowed around every token. Any other text is a syntax error here.
   */
  function Parse(text: string): (r: Result<seq<string>>) {
    var s := SkipSpace(text);
    if s == [] || s[0] != '[' then Err(SyntaxError)
    else
      var t := SkipSpace(s[1..]);
      if t != [] && t[0] == ']' then
        if SkipSpace(t[1..]) == [] then Ok([]) else Err(SyntaxError)
      else
        match ParseElements(t)
        case Err(e) => Err(e)
        case Ok((xs, after)) => if SkipSpace(after) == [] then Ok(xs) else Err(SyntaxError)
  }

  // ---------------------------------------------------------------------------
  // Round trip
  // ---------------------------------------------------------------------------

  lemma {:induction false} HexRoundTrip(n: nat)
    requires n < 16
    ensures HexValue(HexDigit(n)) == Some(n)
  {
  }

  /** One escaped character reads back as itself, leaving the text after it. */
  lemma {:induction false} EscapeCharRoundTrip(c: char, t: string)
    ensures var s := EscapeChar(c) + t;
      if EscapeChar(c) == [c] then
        s[0] == c && s[1..] == t && c != '"' && c != '\\' && (c as int) >= 0x20
      else
        s[0] == '\\' && Unescape(s) == Some((c, |EscapeChar(c)|)) && s[|EscapeChar(c)|..] == t
  {
    var e := EscapeChar(c);
    var s := e + t;
    assert s[|e|..] == t;
    if e != [c] && (c as int) < 0x20 && c !in {'\U{0008}', '\U{000C}', '\n', '\r', '\t'} {
      var hi := c as int / 16;
      var lo := c as int % 16;
      HexRoundTrip(hi);
      HexRoundTrip(lo);
      assert hi == 0 || hi == 1;
      assert s[2..6] == ['0', '0', HexDigit(hi), HexDigit(lo)];
      assert Hex4(s[2..6]) == Some(hi * 16 + lo);
    }
  }

  /** One escaped character in front of a parsable rest reads back as that character. */
  lemma {:induction false} ParseCharsStep(c: char, t: string, v: string, rest: string)
    requires ParseChars(t) == Ok((v, rest))
    ensures ParseChars(EscapeChar(c) + t) == Ok(([c] + v, rest))
  {
    EscapeCharRoundTrip(c, t);
  }

  /** The escaped characters of `x` followed by a closing quote read back as `x`. */
  lemma {:induction false} ParseCharsRoundTrip(x: string, rest: string)
    ensures ParseChars(EscapeChars(x) + "\"" + rest) == Ok((x, rest))
    decreases |x|
  {
    if x == [] {
      assert EscapeChars(x) + "\"" + rest == "\"" + rest;
    } else {
      var t := EscapeChars(x[1..]) + "\"" + rest;
      ParseCharsRoundTrip(x[1..], rest);
      ParseCharsStep(x[0], t, x[1..], rest);
      assert EscapeChars(x) + "\"" + rest == EscapeChar(x[0]) + t;
      assert [x[0]] + x[1..] == x;
    }
  }

  /** A last element, then the closing bracket. */
  lemma {:induction false} ElementLast(x: string, rest: string)
    ensures ParseElements(Quote(x) + "]" + rest) == Ok(([x], rest))
  {
    var s := Quote(x) + "]" + rest;
    assert s == "\"" + (EscapeChars(x) + "\"" + ("]" + rest));
    ParseCharsRoundTrip(x, "]" + rest);
    assert s[1..] == EscapeChars(x) + "\"" + ("]" + rest);
  }

  /** An element followed by a comma and the next element's opening quote. */
  lemma {:induction false} ElementNext(x: string, tail: string)
    requires tail != [] && tail[0] == '"'
    ensures ParseElements(Quote(x) + "," + tail) ==
      match ParseElements(tail)
      case Err(e) => Err(e)
      case Ok((xs, after)) => Ok(([x] + xs, after))
  {
    var s := Quote(x) + "," + tail;
    assert s == "\"" + (EscapeChars(x) + "\"" + ("," + tail));
    ParseCharsRoundTrip(x, "," + tail);
    assert s[1..] == EscapeChars(x) + "\"" + ("," + tail);
    assert ("," + tail)[1..] == tail;
  }

  /** A non-empty joined list starts with its first element's opening quote. */
  lemma {:induction false} JoinedStartsWithQuote(xs: seq<string>, t: string)
    requires xs != []
    ensures (Join(QuoteAll(xs), ",") + t)[0] == '"'
  {
    assert QuoteAll(xs)[0] == Quote(xs[0]);
    if |xs| == 1 {
      assert Join(QuoteAll(xs), ",") == Quote(xs[0]);
    } else {
      assert Join(QuoteAll(xs), ",") == Quote(xs[0]) + "," + Join(QuoteAll(xs)[1..], ",");
    }
  }

  /** The elements of a non-empty list, then a closing bracket, read back as the list. */
  lemma {:induction false} ParseElementsRoundTrip(xs: seq<string>, rest: string)
    requires xs != []
    ensures ParseElements(Join(QuoteAll(xs), ",") + "]" + rest) == Ok((xs, rest))
    decreases |xs|
  {
    var q := QuoteAll(xs);
    if |xs| == 1 {
      assert q == [Quote(xs[0])];
      assert Join(q, ",") == Quote(xs[0]);
      ElementLast(xs[0], rest);
      assert xs == [xs[0]];
    } else {
      assert q[1..] == QuoteAll(xs[1..]);
      var tail := Join(QuoteAll(xs[1..]), ",") + "]" + rest;
      assert Join(q, ",") + "]" + rest == Quote(xs[0]) + "," + tail;
      JoinedStartsWithQuote(xs[1..], "]" + rest);
      assert tail == Join(QuoteAll(xs[1..]), ",") + ("]" + rest);
      ElementNext(xs[0], tail);
      ParseElementsRoundTrip(xs[1..], rest);
      assert [xs[0]] + xs[1..] == xs;
    }
  }

  /** `JSON.parse(JSON.stringify(xs))` gives back `xs`. */
  lemma {:induction false} ParseStringify(xs: seq<string>)
    ensures Parse(Stringify(xs)) == Ok(xs)
  {
    var text := Stringify(xs);
    assert text[1..] == Join(QuoteAll(xs), ",") + "]";
    if xs == [] {
      assert text == "[]";
    } else {
      ParseElementsRoundTrip(xs, "");
      assert Join(QuoteAll(xs), ",") + "]" + "" == text[1..];
      JoinedStartsWithQuote(xs, "]");
    }
  }

  /** The stored text is never empty, so a stored list never reads as missing. */
  lemma {:induction false} StringifyNonEmpty(xs: seq<string>)
    ensures Stringify(xs) != ""
  {
  }
}
