/**
 * The fragments of JavaScript's string library that the plugins rely on,
 * written on `seq<char>`: the `\s` / `\w` character classes, `trim`,
 * ASCII case mapping, `split`, `join`, `startsWith`, `includes` and
 * `replace` with a string pattern.
 */
module JsStrings {
  import opened Wrappers

  /** JavaScript's `\s` class, which is also the set `String.prototype.trim` removes. */
  predicate IsSpace(c: char) {
    c == ' ' || c == '\t' || c == '\n' || c == '\r' || c == '\U{000B}' || c == '\U{000C}'
    || c == '\U{00A0}' || c == '\U{1680}' || ('\U{2000}' <= c <= '\U{200A}')
    || c == '\U{2028}' || c == '\U{2029}' || c == '\U{202F}' || c == '\U{205F}'
    || c == '\U{3000}' || c == '\U{FEFF}'
  }

  /** The characters a regular-expression `.` does not match. */
  predicate IsLineTerminator(c: char) {
    c == '\n' || c == '\r' || c == '\U{2028}' || c == '\U{2029}'
  }

  predicate IsAsciiLower(c: char) { 'a' <= c <= 'z' }
  predicate IsAsciiUpper(c: char) { 'A' <= c <= 'Z' }
  predicate IsDigit(c: char) { '0' <= c <= '9' }

  /** JavaScript's `\w` class. */
  predicate IsWordChar(c: char) { IsAsciiLower(c) || IsAsciiUpper(c) || IsDigit(c) || c == '_' }

  function Lower(c: char): (r: char)
    ensures !IsAsciiUpper(r)
    ensures IsAsciiUpper(c) ==> IsAsciiLower(r)
    ensures !IsAsciiUpper(c) ==> r == c
  {
    if IsAsciiUpper(c) then (c as int + 32) as char else c
  }

  function Upper(c: char): (r: char)
    ensures !IsAsciiLower(r)
    ensures IsAsciiLower(c) ==> IsAsciiUpper(r)
    ensures !IsAsciiLower(c) ==> r == c
  {
    if IsAsciiLower(c) then (c as int - 32) as char else c
  }

  /** `toLowerCase`, restricted to the ASCII letters. */
  function LowerStr(s: string): (r: string)
    ensures |r| == |s|
    ensures forall i :: 0 <= i < |s| ==> r[i] == Lower(s[i])
  {
    if s == [] then [] else [Lower(s[0])] + LowerStr(s[1..])
  }

  /** Lower-casing a string without upper-case letters changes nothing. */
  lemma {:induction false} LowerIdentity(s: string)
    requires forall i :: 0 <= i < |s| ==> !IsAsciiUpper(s[i])
    ensures LowerStr(s) == s
  {
  }

  /** `toUpperCase`, restricted to the ASCII letters. */
  function UpperStr(s: string): (r: string)
    ensures |r| == |s|
    ensures forall i :: 0 <= i < |s| ==> r[i] == Upper(s[i])
  {
    if s == [] then [] else [Upper(s[0])] + UpperStr(s[1..])
  }

  predicate NoSpace(s: string) {
    forall i :: 0 <= i < |s| ==> !IsSpace(s[i])
  }

  /** The number of leading `\s` characters. */
  function LeadingSpaces(s: string): (n: nat)
    ensures n <= |s|
    ensures forall i :: 0 <= i < n ==> IsSpace(s[i])
    ensures n < |s| ==> !IsSpace(s[n])
  {
    if s == [] || !IsSpace(s[0]) then 0 else 1 + LeadingSpaces(s[1..])
  }

  /** The number of trailing `\s` characters. */
  function TrailingSpaces(s: string): (n: nat)
    ensures n <= |s|
    ensures forall i :: |s| - n <= i < |s| ==> IsSpace(s[i])
    ensures n < |s| ==> !IsSpace(s[|s| - 1 - n])
  {
    if s == [] || !IsSpace(s[|s| - 1]) then 0 else 1 + TrailingSpaces(s[..|s| - 1])
  }

  /** `String.prototype.trim`. */
  function Trim(s: string): (r: string)
    ensures r == [] || (!IsSpace(r[0]) && !IsSpace(r[|r| - 1]))
  {
    var t := s[LeadingSpaces(s)..];
    t[..|t| - TrailingSpaces(t)]
  }

  /** The trimmed string is a slice of the original. */
  lemma {:induction false} TrimIsSlice(s: string)
    ensures LeadingSpaces(s) + |Trim(s)| <= |s|
    ensures forall i :: 0 <= i < |Trim(s)| ==> Trim(s)[i] == s[LeadingSpaces(s) + i]
  {
  }

  /** Two adjacent slices make up the slice that spans them. */
  lemma {:induction false} SliceConcat(s: string, i: nat, j: nat, k: nat)
    requires i <= j <= k <= |s|
    ensures s[i..k] == s[i..j] + s[j..k]
  {
  }

  /** `parts.join(sep)`. */
  function Join(parts: seq<string>, sep: string): string {
    if |parts| == 0 then ""
    else if |parts| == 1 then parts[0]
    else parts[0] + sep + Join(parts[1..], sep)
  }

  lemma {:induction false} JoinAppend(a: seq<string>, b: seq<string>, sep: string)
    requires a != [] && b != []
    ensures Join(a + b, sep) == Join(a, sep) + sep + Join(b, sep)
  {
    if |a| == 1 {
      assert a + b == [a[0]] + b;
      assert (a + b)[1..] == b;
    } else {
      assert (a + b)[1..] == a[1..] + b;
      JoinAppend(a[1..], b, sep);
    }
  }

  lemma {:induction false} JoinSingle(x: string, sep: string)
    ensures Join([x], sep) == x
  {
  }

  /** `s.split(c)` for a one-character separator. */
  function SplitOn(s: string, c: char): (r: seq<string>)
    ensures |r| >= 1
  {
    if s == [] then [""]
    else
      var rest := SplitOn(s[1..], c);
      if s[0] == c then [""] + rest else [[s[0]] + rest[0]] + rest[1..]
  }

  lemma {:induction false} SplitOnParts(s: string, c: char)
    ensures forall k :: 0 <= k < |SplitOn(s, c)| ==> c !in SplitOn(s, c)[k]
  {
    if s != [] { SplitOnParts(s[1..], c); }
  }

  /** Joining the parts of a split with the separator gives back the string. */
  lemma {:induction false} JoinSplitOn(s: string, c: char)
    ensures Join(SplitOn(s, c), [c]) == s
  {
    if s != [] {
      var rest := SplitOn(s[1..], c);
      JoinSplitOn(s[1..], c);
      if s[0] == c {
        assert Join([""] + rest, [c]) == "" + [c] + Join(rest, [c]);
      } else {
        var parts := [[s[0]] + rest[0]] + rest[1..];
        if |rest| == 1 {
          assert parts == [[s[0]] + rest[0]];
        } else {
          assert parts[1..] == rest[1..];
          assert Join(rest, [c]) == rest[0] + [c] + Join(rest[1..], [c]);
        }
      }
    }
  }

  /** `s.split(/\s+/)`: every maximal run of `\s` characters separates two fields. */
  function SplitWs(s: string): (r: seq<string>)
    ensures |r| >= 1
    decreases |s|
  {
    if s == [] then [""]
    else if IsSpace(s[0]) then [""] + SplitWs(s[LeadingSpaces(s)..])
    else
      var rest := SplitWs(s[1..]);
      [[s[0]] + rest[0]] + rest[1..]
  }

  lemma {:induction false} SplitWsNoSpace(s: string)
    ensures forall k :: 0 <= k < |SplitWs(s)| ==> NoSpace(SplitWs(s)[k])
    decreases |s|
  {
    if s != [] {
      if IsSpace(s[0]) { SplitWsNoSpace(s[LeadingSpaces(s)..]); }
      else { SplitWsNoSpace(s[1..]); }
    }
  }

  /** Splitting a trimmed, non-empty string yields non-empty words. */
  lemma {:induction false} SplitWsNonEmpty(s: string)
    requires s != [] && !IsSpace(s[0]) && !IsSpace(s[|s| - 1])
    ensures forall k :: 0 <= k < |SplitWs(s)| ==> SplitWs(s)[k] != ""
    decreases |s|
  {
    var t := s[1..];
    if t != [] {
      assert t[|t| - 1] == s[|s| - 1];
      if IsSpace(t[0]) {
        var u := t[LeadingSpaces(t)..];
        assert LeadingSpaces(t) < |t|;
        SplitWsNonEmpty(u);
        assert SplitWs(t) == [""] + SplitWs(u);
      } else {
        SplitWsNonEmpty(t);
      }
    }
  }

  /** `s.startsWith(p)`. */
  predicate StartsWith(s: string, p: string) {
    |p| <= |s| && s[..|p|] == p
  }

  predicate EndsWith(s: string, p: string) {
    |p| <= |s| && s[|s| - |p|..] == p
  }

  /** `p` occurs in `s` at position `i`. */
  predicate OccursAt(s: string, p: string, i: nat) {
    i + |p| <= |s| && s[i..i + |p|] == p
  }

  /** `s.includes(p)`. */
  predicate Includes(s: string, p: string) {
    exists i: nat | i <= |s| :: OccursAt(s, p, i)
  }

  /** The first occurrence of `p` in `s` at or after `from`. */
  function IndexOfFrom(s: string, p: string, from: nat): (r: Option<nat>)
    ensures r.Some? ==> from <= r.value && OccursAt(s, p, r.value)
    ensures r.Some? ==> forall j :: from <= j < r.value ==> !OccursAt(s, p, j)
    ensures r.None? ==> forall j :: from <= j ==> !OccursAt(s, p, j)
    decreases |s| + 1 - from
  {
    if from + |p| > |s| then None
    else if s[from..from + |p|] == p then Some(from)
    else IndexOfFrom(s, p, from + 1)
  }

  /** `s.indexOf(p)`, with `None` for -1. */
  function IndexOf(s: string, p: string): Option<nat> {
    IndexOfFrom(s, p, 0)
  }

  lemma {:induction false} IncludesIndexOf(s: string, p: string)
    ensures Includes(s, p) <==> IndexOf(s, p).Some?
  {
    if IndexOf(s, p).Some? {
      assert OccursAt(s, p, IndexOf(s, p).value);
    }
  }

  /** `s.replace(p, r)` with a string pattern: only the first occurrence is replaced. */
  function ReplaceFirst(s: string, p: string, r: string): (t: string)
    ensures IndexOf(s, p).None? ==> t == s
    ensures IndexOf(s, p).Some? ==>
      var i := IndexOf(s, p).value; t == s[..i] + r + s[i + |p|..]
  {
    match IndexOf(s, p)
    case None => s
    case Some(i) => s[..i] + r + s[i + |p|..]
  }

  /** A string that starts with `p` loses exactly that prefix under `replace(p, "")`. */
  lemma {:induction false} ReplacePrefix(s: string, p: string)
    requires StartsWith(s, p)
    ensures ReplaceFirst(s, p, "") == s[|p|..]
  {
    assert OccursAt(s, p, 0);
  }

  /** `xs.filter(x => x !== y)`. */
  function RemoveAll<T(==)>(xs: seq<T>, y: T): seq<T> {
    if xs == [] then []
    else if xs[0] == y then RemoveAll(xs[1..], y)
    else [xs[0]] + RemoveAll(xs[1..], y)
  }

  /** `a` is `b` with some elements left out, order kept. */
  predicate IsSubsequence<T(==)>(a: seq<T>, b: seq<T>)
    decreases |b|
  {
    if a == [] then true
    else if b == [] then false
    else if a[0] == b[0] then IsSubsequence(a[1..], b[1..])
    else IsSubsequence(a, b[1..])
  }

  lemma {:induction false} RemoveAllSpec<T>(xs: seq<T>, y: T)
    ensures y !in RemoveAll(xs, y)
    ensures forall x :: x != y ==> multiset(RemoveAll(xs, y))[x] == multiset(xs)[x]
    ensures IsSubsequence(RemoveAll(xs, y), xs)
  {
    if xs != [] {
      RemoveAllSpec(xs[1..], y);
      assert xs == [xs[0]] + xs[1..];
      var r := RemoveAll(xs[1..], y);
      if xs[0] != y {
        assert ([xs[0]] + r)[1..] == r;
      } else {
        assert r != [] ==> r[0] in r && r[0] != xs[0];
      }
    }
  }

  /** The decimal digit string of a natural number. */
  function NatToString(n: nat): (r: string)
    ensures |r| >= 1
    ensures forall i :: 0 <= i < |r| ==> IsDigit(r[i])
  {
    if n < 10 then ['0' + n as char] else NatToString(n / 10) + ['0' + (n % 10) as char]
  }

  /** The end of the run of characters satisfying `p` that starts at `from`. */
  function ScanWhile(s: string, from: nat, p: char -> bool): (r: nat)
    requires from <= |s|
    ensures from <= r <= |s|
    ensures forall k :: from <= k < r ==> p(s[k])
    ensures r < |s| ==> !p(s[r])
    decreases |s| - from
  {
    if from == |s| || !p(s[from]) then from else ScanWhile(s, from + 1, p)
  }

  /** A run end is determined by any point inside the run. */
  lemma {:induction false} ScanWhileInside(s: string, from: nat, mid: nat, p: char -> bool)
    requires from <= |s| && from <= mid <= ScanWhile(s, from, p)
    ensures ScanWhile(s, mid, p) == ScanWhile(s, from, p)
    decreases mid - from
  {
    if mid > from { ScanWhileInside(s, from + 1, mid, p); }
  }

  /** Any run of `p` characters from `from` ends no later than the scanned end. */
  lemma {:induction false} ScanWhileMaximal(s: string, from: nat, to: nat, p: char -> bool)
    requires from <= to <= |s|
    requires forall k :: from <= k < to ==> p(s[k])
    ensures to <= ScanWhile(s, from, p)
  {
  }

  /** A run of `p` characters from `from` that stops at `to` is the scanned run. */
  lemma {:induction false} ScanWhileEnd(s: string, from: nat, to: nat, p: char -> bool)
    requires from <= to <= |s|
    requires forall k :: from <= k < to ==> p(s[k])
    requires to == |s| || !p(s[to])
    ensures ScanWhile(s, from, p) == to
  {
    ScanWhileMaximal(s, from, to, p);
  }

  /** `s.replace(/[^...]+/g, rep)`: replaces every maximal run of characters failing `keep` by one `rep`. */
  function ReplaceRuns(s: string, keep: char -> bool, rep: char): (r: string)
    ensures |r| <= |s|
    ensures forall i :: 0 <= i < |r| ==> keep(r[i]) || r[i] == rep
    decreases |s|
  {
    if s == [] then []
    else if keep(s[0]) then [s[0]] + ReplaceRuns(s[1..], keep, rep)
    else [rep] + ReplaceRuns(s[RunLength(s, keep)..], keep, rep)
  }

  /** The length of the leading run of characters failing `keep`. */
  function RunLength(s: string, keep: char -> bool): (n: nat)
    ensures n <= |s|
    ensures s != [] && !keep(s[0]) ==> n >= 1
    ensures forall i :: 0 <= i < n ==> !keep(s[i])
    ensures n < |s| ==> keep(s[n])
  {
    if s == [] || keep(s[0]) then 0 else 1 + RunLength(s[1..], keep)
  }

  lemma {:induction false} ReplaceRunsIdentity(s: string, keep: char -> bool, rep: char)
    requires forall i :: 0 <= i < |s| ==> keep(s[i])
    ensures ReplaceRuns(s, keep, rep) == s
  {
    if s != [] { ReplaceRunsIdentity(s[1..], keep, rep); }
  }

  /** Every `rep` in `r` is followed by a kept character or ends `r`. */
  predicate RepFollowedByKept(r: string, keep: char -> bool, rep: char) {
    forall i :: 0 <= i < |r| - 1 && r[i] == rep ==> keep(r[i + 1])
  }

  /** A replacement is never followed by another replacement. */
  lemma {:induction false} ReplaceRunsSingle(s: string, keep: char -> bool, rep: char)
    requires !keep(rep)
    ensures RepFollowedByKept(ReplaceRuns(s, keep, rep), keep, rep)
    decreases |s|
  {
    if s != [] {
      if keep(s[0]) {
        ReplaceRunsSingle(s[1..], keep, rep);
        var r := ReplaceRuns(s, keep, rep);
        assert forall i :: 1 <= i < |r| ==> r[i] == ReplaceRuns(s[1..], keep, rep)[i - 1];
      } else {
        var n := RunLength(s, keep);
        var t := s[n..];
        ReplaceRunsSingle(t, keep, rep);
        var rt := ReplaceRuns(t, keep, rep);
        var r := ReplaceRuns(s, keep, rep);
        assert r == [rep] + rt;
        if t != [] {
          assert keep(t[0]);
          assert rt == [t[0]] + ReplaceRuns(t[1..], keep, rep);
        }
        forall i | 0 <= i < |r| - 1 && r[i] == rep ensures keep(r[i + 1]) {
          if i > 0 {
            assert r[i] == rt[i - 1] && r[i + 1] == rt[i];
          } else {
            assert t != [];
            assert r[1] == rt[0] == t[0];
          }
        }
      }
    }
  }
}
