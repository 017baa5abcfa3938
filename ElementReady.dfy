/**
 * The element-readiness watcher (`onElementReady`): an initial scan of the
 * document followed by one rescan per mutation batch, each scan delivering
 * the matching nodes that do not yet carry the watch's marker attribute and
 * marking them first.
 *
 * The document is a sequence of nodes in document order, each node given by
 * the set of its attribute names; a node is its index. A selector query is
 * abstracted as the list of matching node indices it returns, in document
 * order. The user callback's return value is a function of the node.
 */
module ElementReady {
  import opened Wrappers
  import opened JsStrings

  // ---------------------------------------------------------------------------
  // Attribute-name derivation
  // ---------------------------------------------------------------------------

  predicate IsAttrChar(c: char) { IsAsciiLower(c) || c == '-' }

  function NonEmptyParts(parts: seq<string>): (r: seq<string>)
    ensures forall k :: 0 <= k < |r| ==> r[k] != "" && r[k] in parts
  {
    if parts == [] then []
    else if parts[0] == "" then NonEmptyParts(parts[1..])
    else [parts[0]] + NonEmptyParts(parts[1..])
  }

  /**
   * `toAttributeName`: lower-case, turn every run of characters outside
   * `[a-z-]` into one space, split on spaces, drop empty pieces, join with "-".
   * `undefined` stays `undefined`.
   */
  function ToAttributeName(key: Option<string>): Option<string> {
    match key
    case None => None
    case Some(s) =>
      var spaced := ReplaceRuns(LowerStr(s), IsAttrChar, ' ');
      Some(Join(NonEmptyParts(SplitOn(spaced, ' ')), "-"))
  }

  lemma {:induction false} JoinChars(parts: seq<string>, sep: string, ok: char -> bool)
    requires forall k, i :: 0 <= k < |parts| && 0 <= i < |parts[k]| ==> ok(parts[k][i])
    requires forall i :: 0 <= i < |sep| ==> ok(sep[i])
    ensures forall i :: 0 <= i < |Join(parts, sep)| ==> ok(Join(parts, sep)[i])
  {
    if |parts| > 1 {
      JoinChars(parts[1..], sep, ok);
      var tail := Join(parts[1..], sep);
      var j := parts[0] + sep + tail;
      forall i | 0 <= i < |j| ensures ok(j[i]) {
        if i < |parts[0]| { assert j[i] == parts[0][i]; }
        else if i < |parts[0]| + |sep| { assert j[i] == sep[i - |parts[0]|]; }
        else { assert j[i] == tail[i - |parts[0]| - |sep|]; }
      }
    }
  }

  /** The derived name holds only `[a-z-]`, so in particular no space. */
  lemma {:induction false} AttributeNameChars(s: string)
    ensures var r := ToAttributeName(Some(s)).value;
      forall i :: 0 <= i < |r| ==> IsAttrChar(r[i])
  {
    var spaced := ReplaceRuns(LowerStr(s), IsAttrChar, ' ');
    var parts := SplitOn(spaced, ' ');
    SplitOnParts(spaced, ' ');
    var kept := NonEmptyParts(parts);
    forall k, i | 0 <= k < |kept| && 0 <= i < |kept[k]| ensures IsAttrChar(kept[k][i]) {
      var p := kept[k];
      assert p in parts;
      var j :| 0 <= j < |parts| && parts[j] == p;
      assert ' ' !in p;
      JoinSplitPartChars(spaced, ' ', j, i);
    }
    JoinChars(kept, "-", IsAttrChar);
  }

  /** Every character of a split piece is a character of the split string. */
  lemma {:induction false} JoinSplitPartChars(s: string, c: char, k: nat, i: nat)
    requires k < |SplitOn(s, c)| && i < |SplitOn(s, c)[k]|
    ensures SplitOn(s, c)[k][i] in s
  {
    var rest := SplitOn(s[1..], c);
    if s[0] == c {
      JoinSplitPartChars(s[1..], c, k - 1, i);
    } else if k == 0 {
      if i > 0 { JoinSplitPartChars(s[1..], c, 0, i - 1); }
    } else {
      JoinSplitPartChars(s[1..], c, k, i);
    }
  }

  lemma {:induction false} SplitOnAbsent(s: string, c: char)
    requires c !in s
    ensures SplitOn(s, c) == [s]
  {
    if s != [] {
      SplitOnAbsent(s[1..], c);
      assert s[0] != c by { assert s[0] in s; }
      assert [s[0]] + s[1..] == s;
    }
  }

  /** Deriving the name of a derived name changes nothing. */
  lemma {:induction false} AttributeNameIdempotent(s: string)
    ensures ToAttributeName(ToAttributeName(Some(s))) == ToAttributeName(Some(s))
  {
    var r := ToAttributeName(Some(s)).value;
    AttributeNameChars(s);
    LowerIdentity(r);
    ReplaceRunsIdentity(r, IsAttrChar, ' ');
    assert !IsAttrChar(' ');
    SplitOnAbsent(r, ' ');
    assert ReplaceRuns(LowerStr(r), IsAttrChar, ' ') == r;
    if r == "" {
      assert NonEmptyParts([r]) == [];
    } else {
      assert NonEmptyParts([r]) == [r];
    }
  }

  /** An empty key derives to the empty name (it does not fall back to the default marker). */
  lemma {:induction false} AttributeNameEmpty()
    ensures ToAttributeName(Some("")) == Some("")
  {
    assert NonEmptyParts([""]) == [];
  }

  lemma {:induction false} ReplaceRunsKeptPrefix(u: string, v: string, keep: char -> bool, rep: char)
    requires forall i :: 0 <= i < |u| ==> keep(u[i])
    ensures ReplaceRuns(u + v, keep, rep) == u + ReplaceRuns(v, keep, rep)
  {
    if u != [] {
      assert (u + v)[0] == u[0] && (u + v)[1..] == u[1..] + v;
      ReplaceRunsKeptPrefix(u[1..], v, keep, rep);
      assert [u[0]] + u[1..] == u;
    } else {
      assert u + v == v;
    }
  }

  lemma {:induction false} ReplaceRunsJunk(j: string, v: string, keep: char -> bool, rep: char)
    requires j != [] && forall i :: 0 <= i < |j| ==> !keep(j[i])
    requires v == [] || keep(v[0])
    ensures ReplaceRuns(j + v, keep, rep) == [rep] + ReplaceRuns(v, keep, rep)
  {
    var n := RunLength(j + v, keep);
    assert forall i :: 0 <= i < |j| ==> (j + v)[i] == j[i];
    assert v != [] ==> (j + v)[|j|] == v[0];
    assert n == |j|;
    assert (j + v)[n..] == v;
  }

  lemma {:induction false} SplitOnWord(w: string, c: char, rest: string)
    requires c !in w
    ensures SplitOn(w + [c] + rest, c) == [w] + SplitOn(rest, c)
  {
    if w == [] {
      assert ([c] + rest)[1..] == rest;
    } else {
      assert (w + [c] + rest)[1..] == w[1..] + [c] + rest;
      SplitOnWord(w[1..], c, rest);
      assert [w[0]] + w[1..] == w;
    }
  }

  lemma {:induction false} MyPluginLower(key: string)
    requires key == "My Plugin!!"
    ensures LowerStr(key) == "my" + ([' '] + ("plugin" + "!!"))
  {
  }

  lemma {:induction false} WordThenJunk(b: string, j: string)
    requires forall i :: 0 <= i < |b| ==> IsAttrChar(b[i])
    requires j != [] && forall i :: 0 <= i < |j| ==> !IsAttrChar(j[i])
    ensures ReplaceRuns(b + j, IsAttrChar, ' ') == b + [' ']
  {
    var e: string := [];
    assert j + e == j;
    ReplaceRunsJunk(j, e, IsAttrChar, ' ');
    ReplaceRunsKeptPrefix(b, j, IsAttrChar, ' ');
  }

  /** Two kept words separated by a space and followed by junk become the words and two single spaces. */
  lemma {:induction false} TwoWordsSpaced(a: string, b: string, j: string)
    requires forall i :: 0 <= i < |a| ==> IsAttrChar(a[i])
    requires b != [] && forall i :: 0 <= i < |b| ==> IsAttrChar(b[i])
    requires j != [] && forall i :: 0 <= i < |j| ==> !IsAttrChar(j[i])
    ensures ReplaceRuns(a + ([' '] + (b + j)), IsAttrChar, ' ') == a + ([' '] + (b + [' ']))
  {
    WordThenJunk(b, j);
    var s2 := b + j;
    var s3 := [' '] + s2;
    ReplaceRunsJunk([' '], s2, IsAttrChar, ' ');
    var s4 := a + s3;
    ReplaceRunsKeptPrefix(a, s3, IsAttrChar, ' ');
  }

  /** The kept pieces of `my plugin ` split at spaces, joined with dashes. */
  lemma {:induction false} JoinPartsExample(parts: seq<string>)
    requires parts == ["my", "plugin", ""]
    ensures Join(NonEmptyParts(parts), "-") == "my-plugin"
  {
    assert parts[2..] == [""];
    assert NonEmptyParts(parts[2..]) == [];
    assert parts[1..][0] == "plugin" && parts[1..][1..] == parts[2..];
    assert NonEmptyParts(parts[1..]) == ["plugin"];
    var kept := NonEmptyParts(parts);
    assert kept == ["my", "plugin"];
    assert kept[1..] == ["plugin"];
    assert Join(kept[1..], "-") == "plugin";
  }

  /** A worked example: `My Plugin!!` derives to `my-plugin`. */
  lemma {:induction false} AttributeNameExample(key: string)
    requires key == "My Plugin!!"
    ensures ToAttributeName(Some(key)) == Some("my-plugin")
  {
    MyPluginLower(key);
    TwoWordsSpaced("my", "plugin", "!!");
    var spaced := ReplaceRuns(LowerStr(key), IsAttrChar, ' ');
    assert spaced == "my" + [' '] + ("plugin" + [' '] + "");
    SplitOnWord("plugin", ' ', "");
    SplitOnWord("my", ' ', "plugin" + [' '] + "");
    assert SplitOn(spaced, ' ') == ["my", "plugin", ""];
    JoinPartsExample(SplitOn(spaced, ' '));
  }

  const DefaultMarker := "was-queried"

  /**
   * The marker attribute a watch uses: the derived name of its key, or
   * `was-queried` when no key is given (the default parameter of
   * `queryForElements` replaces `undefined`). A key deriving to "" keeps "".
   */
  function Marker(key: Option<string>): (m: string)
    ensures key.None? ==> m == DefaultMarker
    ensures key.Some? ==> m == ToAttributeName(key).value
  {
    ToAttributeName(key).GetOr(DefaultMarker)
  }

  // ---------------------------------------------------------------------------
  // One scan: queryForElements
  // ---------------------------------------------------------------------------

  type Marks = seq<set<string>>

  predicate InDocument(marks: Marks, matches: seq<nat>) {
    forall k :: 0 <= k < |matches| ==> matches[k] < |marks|
  }

  predicate NoDup<T(==)>(s: seq<T>) {
    forall i, j :: 0 <= i < j < |s| ==> s[i] != s[j]
  }

  /**
   * The specification of one scan: the matches are visited in order; a node
   * already carrying `attr` is skipped, any other node gets `attr` and is
   * delivered. Returns the new marks and the delivered nodes.
   */
  function Pass(marks: Marks, matches: seq<nat>, attr: string): (res: (Marks, seq<nat>))
    requires InDocument(marks, matches)
    ensures |res.0| == |marks|
    decreases |matches|
  {
    if matches == [] then (marks, [])
    else
      var prev := Pass(marks, matches[..|matches| - 1], attr);
      var n := matches[|matches| - 1];
      if attr in prev.0[n] then prev
      else (prev.0[n := prev.0[n] + {attr}], prev.1 + [n])
  }

  /**
   * What one scan does: exactly the matches that were unmarked are delivered,
   * each once; every match is marked afterwards; a node outside the matches
   * keeps its attributes, and no attribute other than `attr` changes.
   */
  lemma {:induction false} PassEffect(marks: Marks, matches: seq<nat>, attr: string)
    requires InDocument(marks, matches)
    ensures var (m, d) := Pass(marks, matches, attr);
      && (forall n :: 0 <= n < |marks| ==>
            m[n] == if n in matches then marks[n] + {attr} else marks[n])
      && (forall n :: n in d <==> n in matches && attr !in marks[n])
      && NoDup(d)
    decreases |matches|
  {
    if matches != [] {
      var pre := matches[..|matches| - 1];
      PassEffect(marks, pre, attr);
      var n := matches[|matches| - 1];
      assert matches == pre + [n];
      var prev := Pass(marks, pre, attr);
      if attr !in prev.0[n] {
        assert n !in prev.1;
      }
    }
  }

  /** The unmarked matches, in query order. */
  function Unmarked(marks: Marks, matches: seq<nat>, attr: string): seq<nat>
    requires InDocument(marks, matches)
    decreases |matches|
  {
    if matches == [] then []
    else
      var n := matches[|matches| - 1];
      Unmarked(marks, matches[..|matches| - 1], attr) + (if attr in marks[n] then [] else [n])
  }

  /** For a query returning distinct nodes, delivery follows query (document) order. */
  lemma {:induction false} PassOrder(marks: Marks, matches: seq<nat>, attr: string)
    requires InDocument(marks, matches) && NoDup(matches)
    ensures Pass(marks, matches, attr).1 == Unmarked(marks, matches, attr)
    decreases |matches|
  {
    if matches != [] {
      var pre := matches[..|matches| - 1];
      var n := matches[|matches| - 1];
      PassOrder(marks, pre, attr);
      PassEffect(marks, pre, attr);
      assert n !in pre;
    }
  }

  /** Attributes other than the marker are untouched, so watches with different markers do not interfere. */
  lemma {:induction false} PassIndependent(marks: Marks, q1: seq<nat>, a1: string, q2: seq<nat>, a2: string)
    requires InDocument(marks, q1) && InDocument(marks, q2) && a1 != a2
    ensures Pass(Pass(marks, q1, a1).0, q2, a2).1 == Pass(marks, q2, a2).1
  {
    PassEffect(marks, q1, a1);
    var m1 := Pass(marks, q1, a1).0;
    PassSameFor(marks, m1, q2, a2);
  }

  lemma {:induction false} PassSameFor(m1: Marks, m2: Marks, q: seq<nat>, a: string)
    requires |m1| == |m2| && InDocument(m1, q)
    requires forall n :: 0 <= n < |m1| ==> (a in m1[n] <==> a in m2[n])
    ensures Pass(m1, q, a).1 == Pass(m2, q, a).1
    ensures forall n :: 0 <= n < |m1| ==> (a in Pass(m1, q, a).0[n] <==> a in Pass(m2, q, a).0[n])
    decreases |q|
  {
    if q != [] { PassSameFor(m1, m2, q[..|q| - 1], a); }
  }

  /** A scan right after a scan with the same marker delivers nothing it already delivered. */
  lemma {:induction false} RescanDeliversOnlyNew(marks: Marks, q1: seq<nat>, q2: seq<nat>, attr: string)
    requires InDocument(marks, q1) && InDocument(marks, q2)
    ensures var d1 := Pass(marks, q1, attr).1;
      forall n :: n in Pass(Pass(marks, q1, attr).0, q2, attr).1 ==> n !in d1
  {
    PassEffect(marks, q1, attr);
    var m1 := Pass(marks, q1, attr).0;
    PassEffect(m1, q2, attr);
  }

  class Document {
    /** The attribute names of each node, in document order. */
    var marks: Marks

    constructor (nodes: Marks)
      ensures marks == nodes
    {
      marks := nodes;
    }

    /** The host inserts nodes (possibly carrying attributes already, such as clones). */
    method Insert(nodes: Marks)
      modifies this
      ensures marks == old(marks) + nodes
    {
      marks := marks + nodes;
    }

    /**
     * `queryForElements`: skip a node that has the marker, otherwise set the
     * marker and hand the node on; the handed-on nodes are returned in order.
     */
    method QueryForElements(matches: seq<nat>, attr: string) returns (delivered: seq<nat>)
      requires InDocument(marks, matches)
      modifies this
      ensures (marks, delivered) == Pass(old(marks), matches, attr)
    {
      delivered := [];
      var i := 0;
      while i < |matches|
        invariant 0 <= i <= |matches|
        invariant (marks, delivered) == Pass(old(marks), matches[..i], attr)
      {
        assert matches[..i + 1][..i] == matches[..i];
        var element := matches[i];
        if attr !in marks[element] {
          marks := marks[element := marks[element] + {attr}];
          delivered := delivered + [element];
        }
        i := i + 1;
      }
      assert matches[..i] == matches;
    }
  }

  // ---------------------------------------------------------------------------
  // The watch: onElementReady
  // ---------------------------------------------------------------------------

  /**
   * The first delivered node whose callback is truthy, when `findOnce` is set:
   * the node the promise resolves with.
   */
  function FirstAccepted(delivered: seq<nat>, callback: nat -> bool, findOnce: bool): (r: Option<nat>)
    ensures r.Some? ==> findOnce && r.value in delivered && callback(r.value)
    ensures r.None? ==> !findOnce || forall k :: 0 <= k < |delivered| ==> !callback(delivered[k])
    decreases |delivered|
  {
    if !findOnce || delivered == [] then None
    else if callback(delivered[0]) then Some(delivered[0])
    else FirstAccepted(delivered[1..], callback, findOnce)
  }

  lemma {:induction false} FirstAcceptedSnoc(d: seq<nat>, n: nat, callback: nat -> bool, findOnce: bool)
    ensures FirstAccepted(d + [n], callback, findOnce) ==
      if FirstAccepted(d, callback, findOnce).Some? then FirstAccepted(d, callback, findOnce)
      else if findOnce && callback(n) then Some(n) else None
    decreases |d|
  {
    if d != [] {
      assert (d + [n])[1..] == d[1..] + [n];
      FirstAcceptedSnoc(d[1..], n, callback, findOnce);
    }
  }

  /** The observable state of one watch. */
  datatype WatchState = WatchState(
    marks: Marks,          // the document's attributes
    calls: seq<nat>,       // every callback invocation so far, in order
    resolved: Option<nat>, // the value the promise resolved with, if any
    connected: bool)       // whether the mutation observer is still attached

  /** Registration: the initial scan. A success resolves but leaves the observer attached. */
  function Start(marks: Marks, matches: seq<nat>, attr: string, callback: nat -> bool, findOnce: bool): WatchState
    requires InDocument(marks, matches)
  {
    var (m, d) := Pass(marks, matches, attr);
    WatchState(m, d, FirstAccepted(d, callback, findOnce), true)
  }

  /**
   * One mutation batch: the host first inserts `inserted`, then, if the
   * observer is attached, the rescan runs; a success in it resolves (unless
   * already resolved) and detaches the observer, but the remaining nodes of
   * the pass are still marked and delivered.
   */
  function Step(st: WatchState, inserted: Marks, matches: seq<nat>, attr: string,
                callback: nat -> bool, findOnce: bool): WatchState
    requires InDocument(st.marks + inserted, matches)
  {
    var marks := st.marks + inserted;
    if !st.connected then st.(marks := marks)
    else
      var (m, d) := Pass(marks, matches, attr);
      var hit := FirstAccepted(d, callback, findOnce);
      WatchState(m, st.calls + d, if st.resolved.Some? then st.resolved else hit, hit.None?)
  }

  /** A mutation batch: the nodes the host inserts, then the current matches. */
  datatype Batch = Batch(inserted: Marks, matches: seq<nat>)

  /** The matches of every batch lie in the document as it is when that batch runs. */
  predicate BatchesInDocument(size: nat, batches: seq<Batch>)
    decreases |batches|
  {
    batches == [] ||
    (var b := batches[0];
     InDocument(seq(size + |b.inserted|, _ => {}), b.matches) &&
     BatchesInDocument(size + |b.inserted|, batches[1..]))
  }

  lemma {:induction false} InDocumentSize(m1: Marks, m2: Marks, q: seq<nat>)
    requires |m1| == |m2| && InDocument(m1, q)
    ensures InDocument(m2, q)
  {
  }

  /** The state after registration and a sequence of mutation batches. */
  function Run(st: WatchState, batches: seq<Batch>, attr: string, callback: nat -> bool, findOnce: bool): WatchState
    requires BatchesInDocument(|st.marks|, batches)
    decreases |batches|
  {
    if batches == [] then st
    else
      var b := batches[0];
      InDocumentSize(seq(|st.marks| + |b.inserted|, _ => {}), st.marks + b.inserted, b.matches);
      var next := Step(st, b.inserted, b.matches, attr, callback, findOnce);
      Run(next, batches[1..], attr, callback, findOnce)
  }

  /** The invariant of a watch: every delivered node is marked, and none was delivered twice. */
  predicate DeliveredOnce(st: WatchState, attr: string) {
    NoDup(st.calls) && forall n :: n in st.calls ==> n < |st.marks| && attr in st.marks[n]
  }

  lemma {:induction false} StartDeliveredOnce(marks: Marks, matches: seq<nat>, attr: string, callback: nat -> bool, findOnce: bool)
    requires InDocument(marks, matches)
    ensures DeliveredOnce(Start(marks, matches, attr, callback, findOnce), attr)
  {
    PassEffect(marks, matches, attr);
  }

  lemma {:induction false} StepDeliveredOnce(st: WatchState, inserted: Marks, matches: seq<nat>, attr: string,
                          callback: nat -> bool, findOnce: bool)
    requires InDocument(st.marks + inserted, matches) && DeliveredOnce(st, attr)
    ensures DeliveredOnce(Step(st, inserted, matches, attr, callback, findOnce), attr)
  {
    var marks := st.marks + inserted;
    assert forall n :: 0 <= n < |st.marks| ==> marks[n] == st.marks[n];
    if st.connected {
      PassEffect(marks, matches, attr);
      var (m, d) := Pass(marks, matches, attr);
      var calls := st.calls + d;
      forall i, j | 0 <= i < j < |calls| ensures calls[i] != calls[j] {
        if j >= |st.calls| && i < |st.calls| {
          assert calls[i] in st.calls;
          assert calls[j] in d;
        }
      }
    }
  }

  /**
   * At most once: over the whole life of a watch no node reaches the
   * callback twice, whatever the batches insert, and every delivered node
   * carries the marker.
   */
  lemma {:induction false} RunDeliveredOnce(st: WatchState, batches: seq<Batch>, attr: string,
                                            callback: nat -> bool, findOnce: bool)
    requires BatchesInDocument(|st.marks|, batches) && DeliveredOnce(st, attr)
    ensures DeliveredOnce(Run(st, batches, attr, callback, findOnce), attr)
    decreases |batches|
  {
    if batches != [] {
      var b := batches[0];
      InDocumentSize(seq(|st.marks| + |b.inserted|, _ => {}), st.marks + b.inserted, b.matches);
      StepDeliveredOnce(st, b.inserted, b.matches, attr, callback, findOnce);
      RunDeliveredOnce(Step(st, b.inserted, b.matches, attr, callback, findOnce), batches[1..], attr, callback, findOnce);
    }
  }

  /** Without `findOnce`, or with a callback that is never truthy (the default no-op), the promise never resolves. */
  lemma {:induction false} RunNeverResolves(st: WatchState, batches: seq<Batch>, attr: string,
                                            callback: nat -> bool, findOnce: bool)
    requires BatchesInDocument(|st.marks|, batches) && st.resolved.None?
    requires !findOnce || forall n :: !callback(n)
    ensures Run(st, batches, attr, callback, findOnce).resolved.None?
    decreases |batches|
  {
    if batches != [] {
      var b := batches[0];
      InDocumentSize(seq(|st.marks| + |b.inserted|, _ => {}), st.marks + b.inserted, b.matches);
      RunNeverResolves(Step(st, b.inserted, b.matches, attr, callback, findOnce), batches[1..], attr, callback, findOnce);
    }
  }

  /** Without `findOnce` the observer is never detached. */
  lemma {:induction false} RunStaysConnected(st: WatchState, batches: seq<Batch>, attr: string,
                                             callback: nat -> bool)
    requires BatchesInDocument(|st.marks|, batches) && st.connected
    ensures Run(st, batches, attr, callback, false).connected
    decreases |batches|
  {
    if batches != [] {
      var b := batches[0];
      InDocumentSize(seq(|st.marks| + |b.inserted|, _ => {}), st.marks + b.inserted, b.matches);
      RunStaysConnected(Step(st, b.inserted, b.matches, attr, callback, false), batches[1..], attr, callback);
    }
  }

  /** The promise resolves at most once: a resolved value never changes. */
  lemma {:induction false} RunResolvesOnce(st: WatchState, batches: seq<Batch>, attr: string,
                                           callback: nat -> bool, findOnce: bool)
    requires BatchesInDocument(|st.marks|, batches) && st.resolved.Some?
    ensures Run(st, batches, attr, callback, findOnce).resolved == st.resolved
    decreases |batches|
  {
    if batches != [] {
      var b := batches[0];
      InDocumentSize(seq(|st.marks| + |b.inserted|, _ => {}), st.marks + b.inserted, b.matches);
      RunResolvesOnce(Step(st, b.inserted, b.matches, attr, callback, findOnce), batches[1..], attr, callback, findOnce);
    }
  }

  /** A detached watch delivers nothing more; only the document changes. */
  lemma {:induction false} RunDetached(st: WatchState, batches: seq<Batch>, attr: string,
                                       callback: nat -> bool, findOnce: bool)
    requires BatchesInDocument(|st.marks|, batches) && !st.connected
    ensures var r := Run(st, batches, attr, callback, findOnce);
      r.calls == st.calls && r.resolved == st.resolved && !r.connected
    decreases |batches|
  {
    if batches != [] {
      var b := batches[0];
      InDocumentSize(seq(|st.marks| + |b.inserted|, _ => {}), st.marks + b.inserted, b.matches);
      RunDetached(Step(st, b.inserted, b.matches, attr, callback, findOnce), batches[1..], attr, callback, findOnce);
    }
  }

  /**
   * The two find-once quirks: a success in the initial scan resolves but
   * keeps the observer attached, whereas a success in a mutation scan
   * detaches it; in both, every delivered node of that scan still reaches
   * the callback.
   */
  lemma {:induction false} FindOnceQuirks(marks: Marks, matches: seq<nat>, st: WatchState, inserted: Marks, more: seq<nat>,
                       attr: string, callback: nat -> bool)
    requires InDocument(marks, matches) && InDocument(st.marks + inserted, more) && st.connected
    ensures var s0 := Start(marks, matches, attr, callback, true);
      s0.connected && s0.calls == Pass(marks, matches, attr).1
    ensures var d := Pass(st.marks + inserted, more, attr).1;
      var s1 := Step(st, inserted, more, attr, callback, true);
      s1.calls == st.calls + d &&
      (s1.connected <==> forall k :: 0 <= k < |d| ==> !callback(d[k])) &&
      (st.resolved.None? && (exists k :: 0 <= k < |d| && callback(d[k])) ==>
         s1.resolved.Some? && s1.resolved.value in d && callback(s1.resolved.value))
  {
    var d := Pass(st.marks + inserted, more, attr).1;
    if exists k :: 0 <= k < |d| && callback(d[k]) {
      assert FirstAccepted(d, callback, true).Some?;
    }
  }

  class Watch {
    const doc: Document
    const attr: string
    const findOnce: bool
    const callback: nat -> bool
    var calls: seq<nat>
    var resolved: Option<nat>
    var connected: bool

    function State(): WatchState
      reads this, doc
    {
      WatchState(doc.marks, calls, resolved, connected)
    }

    /**
     * `onElementReady(selector, callback, attributeName, findOnce)`: the
     * initial scan over `matches`, then the observer is attached.
     */
    constructor (d: Document, matches: seq<nat>, cb: nat -> bool, attributeName: Option<string>, once: bool)
      requires InDocument(d.marks, matches)
      modifies d
      ensures doc == d && attr == Marker(attributeName) && findOnce == once && callback == cb
      ensures State() == Start(old(d.marks), matches, Marker(attributeName), cb, once)
    {
      doc := d;
      attr := Marker(attributeName);
      findOnce := once;
      callback := cb;
      new;
      var delivered := d.QueryForElements(matches, attr);
      calls := delivered;
      resolved := None;
      var i := 0;
      while i < |delivered|
        invariant 0 <= i <= |delivered|
        invariant doc.marks == Pass(old(d.marks), matches, attr).0
        invariant calls == delivered
        invariant resolved == FirstAccepted(delivered[..i], callback, findOnce)
      {
        FirstAcceptedSnoc(delivered[..i], delivered[i], callback, findOnce);
        assert delivered[..i + 1] == delivered[..i] + [delivered[i]];
        if callback(delivered[i]) && findOnce {
          if resolved.None? { resolved := Some(delivered[i]); }
        }
        i := i + 1;
      }
      assert delivered[..i] == delivered;
      connected := true;
    }

    /** The observer callback for one mutation batch; the host has already inserted its nodes. */
    method OnMutations(matches: seq<nat>)
      requires InDocument(doc.marks, matches)
      modifies this, doc
      ensures State() == Step(old(State()), [], matches, attr, callback, findOnce)
    {
      assert doc.marks + [] == doc.marks;
      if !connected { return; }
      var delivered := doc.QueryForElements(matches, attr);
      calls := calls + delivered;
      DeliverBatch(delivered);
    }

    /**
     * The observer's loop over one batch's delivered nodes: each reaches the
     * callback; with `findOnce`, the first accepted one resolves the promise
     * (unless it already is) and the observer is detached.
     */
    method DeliverBatch(delivered: seq<nat>)
      requires connected
      modifies this`resolved, this`connected
      ensures resolved == if old(resolved).Some? then old(resolved) else FirstAccepted(delivered, callback, findOnce)
      ensures connected == FirstAccepted(delivered, callback, findOnce).None?
    {
      ghost var before := resolved;
      var i := 0;
      while i < |delivered|
        invariant 0 <= i <= |delivered|
        invariant resolved == if before.Some? then before else FirstAccepted(delivered[..i], callback, findOnce)
        invariant connected == FirstAccepted(delivered[..i], callback, findOnce).None?
      {
        FirstAcceptedSnoc(delivered[..i], delivered[i], callback, findOnce);
        assert delivered[..i + 1] == delivered[..i] + [delivered[i]];
        if callback(delivered[i]) && findOnce {
          if resolved.None? { resolved := Some(delivered[i]); }
          connected := false;
        }
        i := i + 1;
      }
      assert delivered[..i] == delivered;
    }
  }
}
