/** Splitting a WATCH_NAMESPACE value into entries: commas separate, except behind a backslash or inside braces. */
module NamespaceEntries {

  import opened GoStrings

  /** Nothing to trim, and something left. */
  predicate Trimmed(s: string) {
    s != "" && !IsSpace(s[0]) && !IsSpace(s[|s| - 1])
  }

  predicate AllTrimmed(entries: seq<string>) {
    forall i :: 0 <= i < |entries| ==> Trimmed(entries[i])
  }

  /** The variables of the loop. */
  datatype Scan = Scan(entries: seq<string>, current: string, depth: nat, escaped: bool) {

    /** The entries, with the current one closed. */
    function Finished(): seq<string> {
      var entry := TrimSpace(current);
      if entry != "" then entries + [entry] else entries
    }

    function Next(r: char): Scan {
      if escaped then this.(current := current + [r], escaped := false)
      else if r == '\\' then this.(escaped := true)
      else if r == ',' && depth == 0 then Scan(Finished(), "", 0, false)
      else this.(current := current + [r], depth := NextDepth(r, depth))
    }

    function Run(value: string): Scan
      decreases |value|
    {
      if value == "" then this else Next(value[0]).Run(value[1..])
    }
  }

  function NextDepth(r: char, depth: nat): nat {
    if r == '{' then depth + 1 else if r == '}' && depth > 0 then depth - 1 else depth
  }

  const START := Scan([], "", 0, false)

  function Split(value: string): seq<string> {
    START.Run(value).Finished()
  }

  method SplitNamespaceEntries(value: string) returns (entries: seq<string>)
    ensures entries == Split(value)
  {
    entries := [];
    var current, depth, escaped := "", 0, false;
    for i := 0 to |value|
      invariant depth >= 0
      invariant Scan(entries, current, depth, escaped).Run(value[i..]) == START.Run(value)
    {
      var r := value[i];
      assert value[i..][0] == r && value[i..][1..] == value[i + 1..];
      if escaped {
        current, escaped := current + [r], false;
      } else if r == '\\' {
        escaped := true;
      } else if r == '{' {
        depth := depth + 1;
        current := current + [r];
      } else if r == '}' {
        if depth > 0 { depth := depth - 1; }
        current := current + [r];
      } else if r == ',' && depth == 0 {
        var entry := TrimSpace(current);
        if entry != "" { entries := entries + [entry]; }
        current := "";
      } else {
        current := current + [r];
      }
    }
    assert value[|value|..] == "";
    var entry := TrimSpace(current);
    if entry != "" { entries := entries + [entry]; }
  }

  lemma {:induction false} RunAppend(st: Scan, a: string, b: string)
    ensures st.Run(a + b) == st.Run(a).Run(b)
    decreases |a|
  {
    if a == "" {
      assert a + b == b;
    } else {
      assert (a + b)[1..] == a[1..] + b;
      RunAppend(st.Next(a[0]), a[1..], b);
    }
  }

  // ---- Escaped entries round-trip ----

  function Escape(e: string): string {
    if e == "" then ""
    else (if e[0] in "\\,{}" then ['\\', e[0]] else [e[0]]) + Escape(e[1..])
  }

  function Join(entries: seq<string>): string {
    if entries == [] then ""
    else if |entries| == 1 then entries[0]
    else entries[0] + "," + Join(entries[1..])
  }

  function EscapeAll(entries: seq<string>): seq<string> {
    seq(|entries|, i requires 0 <= i < |entries| => Escape(entries[i]))
  }

  lemma {:induction false} EscapedRun(st: Scan, e: string)
    requires st.depth == 0 && !st.escaped
    ensures st.Run(Escape(e)) == st.(current := st.current + e)
    decreases |e|
  {
    if e == "" {
      assert st.current + e == st.current;
    } else {
      var c, st' := e[0], st.(current := st.current + [e[0]]);
      EscapedRun(st', e[1..]);
      assert st.current + e == st'.current + e[1..];
      if c in "\\,{}" {
        RunAppend(st, ['\\', c], Escape(e[1..]));
        assert ['\\', c][1..] == [c] && [c][1..] == "";
        assert st.Run(['\\', c]) == st.Next('\\').Run([c]) == st.Next('\\').Next(c) == st';
      } else {
        RunAppend(st, [c], Escape(e[1..]));
        assert [c][1..] == "" && st.Run([c]) == st.Next(c) == st';
      }
    }
  }

  /** What a piece of text between separators yields: an entry, or nothing when it is blank. */
  function Yields(piece: string): seq<string> {
    if TrimSpace(piece) == "" then [] else [TrimSpace(piece)]
  }

  function AllYield(pieces: seq<string>): seq<string> {
    if pieces == [] then [] else Yields(pieces[0]) + AllYield(pieces[1..])
  }

  lemma OneYields(e: string)
    ensures AllYield([e]) == Yields(e)
  {
    assert [e][1..] == [];
  }

  lemma MoreYield(before: seq<string>, pieces: seq<string>)
    requires pieces != []
    ensures before + Yields(pieces[0]) + AllYield(pieces[1..]) == before + AllYield(pieces)
  {
  }

  lemma {:induction false} TrimmedYield(entries: seq<string>)
    requires AllTrimmed(entries)
    ensures AllYield(entries) == entries
    decreases |entries|
  {
    if entries != [] {
      TrimmedYield(entries[1..]);
      assert TrimSpace(entries[0]) == entries[0] && entries == [entries[0]] + entries[1..];
    }
  }

  /** A text that accumulates the piece `e`, a separator, then the rest. */
  lemma PieceRun(before: seq<string>, e: string, text: string, tail: string)
    requires Scan(before, "", 0, false).Run(text) == Scan(before, e, 0, false)
    ensures Scan(before, "", 0, false).Run(text + "," + tail) == Scan(before + Yields(e), "", 0, false).Run(tail)
  {
    var st := Scan(before, "", 0, false);
    assert text + "," + tail == text + ("," + tail);
    RunAppend(st, text, "," + tail);
    assert ("," + tail)[1..] == tail;
    assert before + [] == before;
  }

  lemma LastPieceRun(before: seq<string>, e: string, depth: nat)
    ensures Scan(before, e, depth, false).Finished() == before + Yields(e)
  {
    assert before + [] == before;
  }

  /** For every list of texts, escaping and joining with commas is undone by splitting, up to white space and blank texts. */
  lemma EscapedPieces(pieces: seq<string>)
    ensures Split(Join(EscapeAll(pieces))) == AllYield(pieces)
  {
    EscapedPiecesBehind([], pieces);
    assert [] + AllYield(pieces) == AllYield(pieces);
  }

  /** In particular trimmed entries come back as they are. */
  lemma EscapedRoundTrip(entries: seq<string>)
    requires AllTrimmed(entries)
    ensures Split(Join(EscapeAll(entries))) == entries
  {
    EscapedPieces(entries);
    TrimmedYield(entries);
  }

  lemma EscapedLast(before: seq<string>, e: string)
    ensures Scan(before, "", 0, false).Run(Escape(e)).Finished() == before + Yields(e)
  {
    EscapedRun(Scan(before, "", 0, false), e);
    assert "" + e == e;
    LastPieceRun(before, e, 0);
  }

  lemma EscapedPiece(before: seq<string>, e: string, tail: string)
    ensures Scan(before, "", 0, false).Run(Escape(e) + "," + tail) == Scan(before + Yields(e), "", 0, false).Run(tail)
  {
    EscapedRun(Scan(before, "", 0, false), e);
    assert "" + e == e;
    PieceRun(before, e, Escape(e), tail);
  }

  lemma {:induction false} EscapedPiecesBehind(before: seq<string>, pieces: seq<string>)
    ensures Scan(before, "", 0, false).Run(Join(EscapeAll(pieces))).Finished() == before + AllYield(pieces)
    decreases |pieces|
  {
    if pieces == [] {
      assert before + AllYield(pieces) == before;
    } else if |pieces| == 1 {
      EscapedLast(before, pieces[0]);
      OneYields(pieces[0]);
      assert pieces == [pieces[0]];
    } else {
      assert EscapeAll(pieces)[1..] == EscapeAll(pieces[1..]);
      EscapedPiece(before, pieces[0], Join(EscapeAll(pieces[1..])));
      EscapedPiecesBehind(before + Yields(pieces[0]), pieces[1..]);
      MoreYield(before, pieces);
    }
  }

  /** Every entry the splitter yields is trimmed and non-empty. */
  lemma {:induction false} SplitTrims(st: Scan, value: string)
    requires AllTrimmed(st.entries)
    ensures AllTrimmed(st.Run(value).Finished())
    decreases |value|
  {
    if value != "" {
      SplitTrims(st.Next(value[0]), value[1..]);
    }
  }

  /** So any value can be rewritten in escaped form without changing what it denotes. */
  lemma Canonical(value: string)
    ensures Split(Join(EscapeAll(Split(value)))) == Split(value)
  {
    SplitTrims(START, value);
    EscapedRoundTrip(Split(value));
  }

  // ---- When entries need no escaping ----

  datatype Depth = Broken | Reached(depth: nat)

  /** The brace depth after `e`, or Broken when `e` has a backslash or a comma outside braces. */
  function DepthAfter(e: string, depth: nat): Depth {
    if e == "" then Reached(depth)
    else if e[0] == '\\' || (e[0] == ',' && depth == 0) then Broken
    else DepthAfter(e[1..], NextDepth(e[0], depth))
  }

  /** No backslash, commas only inside braces, and braces closed again before the next entry. */
  predicate Plain(entries: seq<string>) {
    entries == [] ||
    (if |entries| == 1 then DepthAfter(entries[0], 0).Reached?
     else DepthAfter(entries[0], 0) == Reached(0) && Plain(entries[1..]))
  }

  lemma {:induction false} PlainRun(st: Scan, e: string)
    requires !st.escaped && DepthAfter(e, st.depth).Reached?
    ensures st.Run(e) == st.(current := st.current + e, depth := DepthAfter(e, st.depth).depth)
    decreases |e|
  {
    if e == "" {
      assert st.current + e == st.current;
    } else {
      PlainRun(st.Next(e[0]), e[1..]);
      assert st.current + e == st.current + [e[0]] + e[1..];
    }
  }

  lemma PlainLast(before: seq<string>, e: string)
    requires DepthAfter(e, 0).Reached?
    ensures Scan(before, "", 0, false).Run(e).Finished() == before + Yields(e)
  {
    PlainRun(Scan(before, "", 0, false), e);
    assert "" + e == e;
    LastPieceRun(before, e, DepthAfter(e, 0).depth);
  }

  lemma PlainPiece(before: seq<string>, e: string, tail: string)
    requires DepthAfter(e, 0) == Reached(0)
    ensures Scan(before, "", 0, false).Run(e + "," + tail) == Scan(before + Yields(e), "", 0, false).Run(tail)
  {
    PlainRun(Scan(before, "", 0, false), e);
    assert "" + e == e;
    PieceRun(before, e, e, tail);
  }

  lemma {:induction false} PlainPiecesBehind(before: seq<string>, pieces: seq<string>)
    requires Plain(pieces)
    ensures Scan(before, "", 0, false).Run(Join(pieces)).Finished() == before + AllYield(pieces)
    decreases |pieces|
  {
    if pieces == [] {
      assert before + AllYield(pieces) == before;
    } else if |pieces| == 1 {
      PlainLast(before, pieces[0]);
      OneYields(pieces[0]);
      assert pieces == [pieces[0]];
    } else {
      PlainPiece(before, pieces[0], Join(pieces[1..]));
      PlainPiecesBehind(before + Yields(pieces[0]), pieces[1..]);
      MoreYield(before, pieces);
    }
  }

  /** Plain texts joined with commas are trimmed, and the blank ones left out. */
  lemma PlainPieces(pieces: seq<string>)
    requires Plain(pieces)
    ensures Split(Join(pieces)) == AllYield(pieces)
  {
    PlainPiecesBehind([], pieces);
    assert [] + AllYield(pieces) == AllYield(pieces);
  }

  /** `padded` is `entry` with white space around it. */
  ghost predicate Pads(padded: string, entry: string) {
    exists before, after :: Blank(before) && Blank(after) && padded == before + entry + after
  }

  ghost predicate PadsAll(padded: seq<string>, entries: seq<string>) {
    |padded| == |entries| && forall i :: 0 <= i < |entries| ==> Pads(padded[i], entries[i])
  }

  lemma {:induction false} DepthAppend(a: string, b: string, depth: nat)
    ensures DepthAfter(a + b, depth) ==
      if DepthAfter(a, depth).Reached? then DepthAfter(b, DepthAfter(a, depth).depth) else Broken
    decreases |a|
  {
    if a == "" {
      assert a + b == b;
    } else {
      assert (a + b)[1..] == a[1..] + b;
      DepthAppend(a[1..], b, NextDepth(a[0], depth));
    }
  }

  lemma {:induction false} BlankDepth(s: string, depth: nat)
    requires Blank(s)
    ensures DepthAfter(s, depth) == Reached(depth)
    decreases |s|
  {
    if s != "" { BlankDepth(s[1..], depth); }
  }

  lemma PaddedDepth(padded: string, entry: string, depth: nat)
    requires Pads(padded, entry)
    ensures DepthAfter(padded, depth) == DepthAfter(entry, depth)
  {
    var before, after :| Blank(before) && Blank(after) && padded == before + entry + after;
    DepthAppend(before + entry, after, depth);
    DepthAppend(before, entry, depth);
    BlankDepth(before, depth);
    if DepthAfter(entry, depth).Reached? {
      BlankDepth(after, DepthAfter(entry, depth).depth);
    }
  }

  lemma PaddedYields(padded: string, entry: string)
    requires Pads(padded, entry) && Trimmed(entry)
    ensures Yields(padded) == [entry]
  {
    var before, after :| Blank(before) && Blank(after) && padded == before + entry + after;
    TrimAfter(before + entry, after);
    TrimBefore(before, entry);
    assert TrimSpace(entry) == entry;
  }

  lemma {:induction false} PaddedPieces(padded: seq<string>, entries: seq<string>)
    requires PadsAll(padded, entries) && AllTrimmed(entries) && Plain(entries)
    ensures Plain(padded) && AllYield(padded) == entries
    decreases |entries|
  {
    if entries != [] {
      PaddedDepth(padded[0], entries[0], 0);
      PaddedYields(padded[0], entries[0]);
      PaddedPieces(padded[1..], entries[1..]);
      assert entries == [entries[0]] + entries[1..];
    }
  }

  /** Plain entries with any white space around each, joined with commas, split into exactly the entries. */
  lemma PaddedEntries(padded: seq<string>, entries: seq<string>)
    requires PadsAll(padded, entries) && AllTrimmed(entries) && Plain(entries)
    ensures Split(Join(padded)) == entries
  {
    PaddedPieces(padded, entries);
    PlainPieces(padded);
  }

  lemma {:induction false} LeadingSpace(st: Scan, space: string, value: string)
    requires Blank(space)
    ensures st.(current := space + st.current).Run(value).Finished() == st.Run(value).Finished()
    decreases |value|
  {
    var padded := st.(current := space + st.current);
    TrimBefore(space, st.current);
    if value != "" {
      LeadingSpaceNext(st, space, value[0]);
      if padded.Next(value[0]) != st.Next(value[0]) {
        LeadingSpace(st.Next(value[0]), space, value[1..]);
      }
    }
  }

  lemma LeadingSpaceNext(st: Scan, space: string, r: char)
    requires Blank(space)
    ensures var padded, next := st.(current := space + st.current).Next(r), st.Next(r);
      padded == next || padded == next.(current := space + next.current)
  {
    if !st.escaped && r == ',' && st.depth == 0 {
      TrimBefore(space, st.current);
    } else {
      assert space + (st.current + [r]) == space + st.current + [r];
    }
  }

  lemma {:induction false} BlankRun(st: Scan, space: string)
    requires Blank(space)
    ensures st.Run(space).entries == st.entries && st.Run(space).current == st.current + space
    ensures !st.escaped ==> st.Run(space) == st.(current := st.current + space)
    decreases |space|
  {
    if space == "" {
      assert st.current + space == st.current;
    } else {
      BlankRun(st.Next(space[0]), space[1..]);
      assert st.current + space == st.current + [space[0]] + space[1..];
    }
  }

  lemma SplitBehindSpace(space: string, value: string)
    requires Blank(space)
    ensures Split(space + value) == Split(value)
  {
    RunAppend(START, space, value);
    BlankRun(START, space);
    assert "" + space == space + "";
    LeadingSpace(START, space, value);
  }

  lemma SplitBeforeSpace(value: string, space: string)
    requires Blank(space)
    ensures Split(value + space) == Split(value)
  {
    RunAppend(START, value, space);
    var st := START.Run(value);
    BlankRun(st, space);
    TrimAfter(st.current, space);
  }

  lemma SplitWithinSpace(before: string, core: string, after: string, value: string)
    requires Blank(before) && Blank(after) && value == before + core + after
    ensures Split(value) == Split(core)
  {
    SplitBehindSpace(before, core);
    SplitBeforeSpace(before + core, after);
  }

  lemma ThreeParts(s: string, i: nat, k: nat)
    requires i <= k <= |s|
    ensures s == s[..i] + s[i..k] + s[k..]
  {
  }

  /** Trimming the value before it is split, as the parser does, makes no difference. */
  lemma SplitIgnoresOuterSpace(value: string)
    ensures Split(TrimSpace(value)) == Split(value)
  {
    var i, k := TrimSpaceIs(value);
    ThreeParts(value, i, k);
    SplitWithinSpace(value[..i], value[i..k], value[k..], value);
  }

  function Total(entries: seq<string>): nat {
    if entries == [] then 0 else Total(entries[..|entries| - 1]) + |entries[|entries| - 1]| + 1
  }

  lemma TotalFinished(st: Scan)
    ensures Total(st.Finished()) <= Total(st.entries) + |st.current| + 1
    ensures Total(st.Finished()) == Total(st.entries) + |st.current| + 1 ==> st.Finished() == st.entries + [st.current]
  {
    assert st.Finished() != st.entries ==> st.Finished()[..|st.entries|] == st.entries;
  }

  /** The entries, each with a separator, are together no longer than the input with one. */
  lemma {:induction false} NothingGained(st: Scan, value: string)
    ensures Total(st.Run(value).Finished()) <= Total(st.entries) + |st.current| + |value| + 1
    decreases |value|
  {
    TotalFinished(st);
    if value != "" {
      NothingGained(st.Next(value[0]), value[1..]);
    }
  }

  /** Every character of `value` but the separators ends up in an entry. */
  predicate NothingLost(st: Scan, value: string) {
    Total(st.Run(value).Finished()) == Total(st.entries) + |st.current| + |value| + 1
  }

  /** The first `n` characters are plain and make up the first entry; a separator follows or nothing does. */
  predicate IsFirst(st: Scan, value: string, n: nat) {
    && n <= |value| && DepthAfter(value[..n], st.depth).Reached?
    && (n == |value| ==> st.Run(value).Finished() == st.entries + [st.current + value])
    && (n < |value| ==>
          && value[n] == ',' && DepthAfter(value[..n], st.depth) == Reached(0)
          && st.Run(value) == Scan(st.entries + [st.current + value[..n]], "", 0, false).Run(value[n + 1..]))
  }

  lemma IsFirstStep(st: Scan, value: string, n: nat)
    requires value != "" && !st.escaped && value[0] != '\\' && !(value[0] == ',' && st.depth == 0)
    requires IsFirst(st.Next(value[0]), value[1..], n)
    ensures IsFirst(st, value, n + 1)
  {
    FirstEntryStep(st.current, value, n);
  }

  /** When nothing is lost, the first entry is the text up to the first separator, and that text is plain. */
  lemma {:induction false} FirstEntry(st: Scan, value: string) returns (n: nat)
    requires NothingLost(st, value) && !st.escaped
    ensures IsFirst(st, value, n)
    decreases |value|
  {
    n := 0;
    TotalFinished(st);
    if value == "" {
      assert st.current + value == st.current;
    } else {
      var r, rest := value[0], value[1..];
      NothingGained(st.Next(r), rest);
      if r == ',' && st.depth == 0 {
        assert st.current + value[..0] == st.current;
      } else {
        n := FirstEntry(st.Next(r), rest);
        IsFirstStep(st, value, n);
        n := n + 1;
      }
    }
  }

  lemma FirstEntryStep(current: string, value: string, n: nat)
    requires value != "" && n < |value|
    ensures value[..n + 1][1..] == value[1..][..n] && value[..n + 1][0] == value[0]
    ensures current + [value[0]] + value[1..][..n] == current + value[..n + 1]
    ensures current + [value[0]] + value[1..] == current + value
    ensures n + 1 < |value| ==> value[1..][n + 1..] == value[n + 2..]
  {
  }

  lemma {:induction false} EntriesGrow(st: Scan, value: string)
    ensures st.entries <= st.Run(value).Finished()
    decreases |value|
  {
    if value != "" { EntriesGrow(st.Next(value[0]), value[1..]); }
  }

  lemma {:induction false} TotalAppend(a: seq<string>, b: seq<string>)
    ensures Total(a + b) == Total(a) + Total(b)
    decreases |b|
  {
    if b == [] {
      assert a + b == a;
    } else {
      assert (a + b)[..|a + b| - 1] == a + b[..|b| - 1];
      TotalAppend(a, b[..|b| - 1]);
    }
  }

  lemma {:induction false} JoinLength(entries: seq<string>)
    requires entries != []
    ensures |Join(entries)| + 1 == Total(entries)
    decreases |entries|
  {
    assert Total([]) == 0 && Total([entries[0]]) == |entries[0]| + 1;
    if |entries| > 1 {
      JoinLength(entries[1..]);
      TotalAppend([entries[0]], entries[1..]);
      assert [entries[0]] + entries[1..] == entries;
    } else {
      assert entries == [entries[0]];
    }
  }

  lemma {:induction false} OnlyPlainEntries(before: seq<string>, entries: seq<string>)
    requires entries != [] && Scan(before, "", 0, false).Run(Join(entries)).Finished() == before + entries
    ensures Plain(entries)
    decreases |entries|
  {
    var st, v, e := Scan(before, "", 0, false), Join(entries), entries[0];
    JoinLength(entries);
    TotalAppend(before, entries);
    var n := FirstEntry(st, v);
    if n < |v| {
      var first := "" + v[..n];
      EntriesGrow(Scan(before + [first], "", 0, false), v[n + 1..]);
      PrefixElement(before, first, entries);
      JoinTail(entries, n);
      OnlyPlainEntries(before + [e], entries[1..]);
    } else {
      assert (before + ["" + v])[|before|] == "" + v;
      assert |entries| == 1 && v == e && v[..n] == v;
    }
  }

  lemma PrefixElement(before: seq<string>, first: string, entries: seq<string>)
    requires entries != [] && before + [first] <= before + entries
    ensures first == entries[0] && before + entries == before + [first] + entries[1..]
  {
    assert (before + [first])[|before|] == (before + entries)[|before|];
  }

  lemma JoinTail(entries: seq<string>, n: nat)
    requires entries != [] && n == |entries[0]| < |Join(entries)|
    ensures |entries| > 1 && Join(entries)[n + 1..] == Join(entries[1..]) && Join(entries)[..n] == entries[0]
  {
  }

  /** Trimmed entries joined with commas, unescaped, come back as they were exactly when they are plain. */
  lemma RoundTripIffPlain(entries: seq<string>)
    requires AllTrimmed(entries)
    ensures Split(Join(entries)) == entries <==> Plain(entries)
  {
    assert [] + entries == entries;
    if Plain(entries) {
      PlainPieces(entries);
      TrimmedYield(entries);
    } else if Split(Join(entries)) == entries {
      OnlyPlainEntries([], entries);
    }
  }
}
