/** The parts of Go's strings package that several components rely on. */
module GoStrings {

  /** unicode.IsSpace. */
  predicate IsSpace(c: char) {
    || '\t' <= c <= '\r' || c == ' ' || c == '\U{0085}' || c == '\U{00A0}' || c == '\U{1680}'
    || '\U{2000}' <= c <= '\U{200A}' || c == '\U{2028}' || c == '\U{2029}' || c == '\U{202F}'
    || c == '\U{205F}' || c == '\U{3000}'
  }

  /** strings.TrimSpace. */
  function TrimSpace(s: string): (r: string)
    ensures r == s || |r| < |s|
    ensures r != "" ==> !IsSpace(r[0]) && !IsSpace(r[|r| - 1])
  {
    if s == "" then ""
    else if IsSpace(s[0]) then TrimSpace(s[1..])
    else if IsSpace(s[|s| - 1]) then TrimSpace(s[..|s| - 1])
    else s
  }

  /** The code points with the White_Space property. */
  lemma WhiteSpace(c: char)
    ensures IsSpace(c) <==> var n := c as int;
      || 9 <= n <= 13 || n == 32 || n == 133 || n == 160 || n == 5760 || 8192 <= n <= 8202
      || n == 8232 || n == 8233 || n == 8239 || n == 8287 || n == 12288
  {
  }

  predicate Blank(s: string) {
    forall i :: 0 <= i < |s| ==> IsSpace(s[i])
  }

  /** Nothing but white space is cut off. */
  lemma {:induction false} TrimSpaceIs(s: string) returns (i: nat, k: nat)
    ensures i <= k <= |s| && TrimSpace(s) == s[i..k]
    ensures Blank(s[..i]) && Blank(s[k..])
    decreases |s|
  {
    i, k := 0, |s|;
    if s != "" && IsSpace(s[0]) {
      i, k := TrimSpaceIs(s[1..]);
      CutFirst(s, i, k);
      i, k := i + 1, k + 1;
    } else if s != "" && IsSpace(s[|s| - 1]) {
      i, k := TrimSpaceIs(s[..|s| - 1]);
      CutLast(s, i, k);
    }
  }

  lemma CutFirst(s: string, i: nat, k: nat)
    requires s != "" && IsSpace(s[0]) && i <= k < |s| && Blank(s[1..][..i]) && Blank(s[1..][k..])
    ensures s[1..][i..k] == s[i + 1..k + 1] && Blank(s[..i + 1]) && Blank(s[k + 1..])
  {
    assert s[..i + 1] == [s[0]] + s[1..][..i] && s[k + 1..] == s[1..][k..];
  }

  lemma CutLast(s: string, i: nat, k: nat)
    requires s != "" && IsSpace(s[|s| - 1]) && i <= k < |s|
    requires Blank(s[..|s| - 1][..i]) && Blank(s[..|s| - 1][k..])
    ensures s[..|s| - 1][i..k] == s[i..k] && Blank(s[..i]) && Blank(s[k..])
  {
    assert s[..i] == s[..|s| - 1][..i] && s[k..] == s[..|s| - 1][k..] + [s[|s| - 1]];
  }

  lemma TrimFirst(c: char, s: string)
    requires IsSpace(c)
    ensures TrimSpace([c] + s) == TrimSpace(s)
  {
    assert ([c] + s)[1..] == s;
  }

  lemma {:induction false} TrimLast(s: string, c: char)
    requires IsSpace(c)
    ensures TrimSpace(s + [c]) == TrimSpace(s)
    decreases |s|
  {
    if s == "" {
      assert s + [c] == [c] + "";
      TrimFirst(c, "");
    } else if IsSpace(s[0]) {
      TrimLast(s[1..], c);
      assert s + [c] == [s[0]] + (s[1..] + [c]);
      TrimFirst(s[0], s[1..] + [c]);
    } else {
      assert (s + [c])[..|s|] == s;
    }
  }

  lemma {:induction false} TrimBefore(before: string, s: string)
    requires Blank(before)
    ensures TrimSpace(before + s) == TrimSpace(s)
    decreases |before|
  {
    if before == "" {
      assert before + s == s;
    } else {
      TrimBefore(before[1..], s);
      TrimFirst(before[0], before[1..] + s);
      assert before + s == [before[0]] + (before[1..] + s);
    }
  }

  lemma {:induction false} TrimAfter(s: string, after: string)
    requires Blank(after)
    ensures TrimSpace(s + after) == TrimSpace(s)
    decreases |after|
  {
    if after == "" {
      assert s + after == s;
    } else {
      var n := |after| - 1;
      TrimAfter(s, after[..n]);
      TrimLast(s + after[..n], after[n]);
      assert s + after == (s + after[..n]) + [after[n]];
    }
  }

  // ---- strings.Fields ----

  predicate NoSpace(s: string) {
    forall i :: 0 <= i < |s| ==> !IsSpace(s[i])
  }

  /** A field: something without white space. */
  predicate IsWord(w: string) {
    w != "" && NoSpace(w)
  }

  function Closed(current: string): seq<string> {
    if current == "" then [] else [current]
  }

  /** The fields still to come when `current` has been read of the first of them. */
  function FieldsFrom(s: string, current: string): seq<string> {
    if s == "" then Closed(current)
    else if IsSpace(s[0]) then Closed(current) + FieldsFrom(s[1..], "")
    else FieldsFrom(s[1..], current + [s[0]])
  }

  function Fields(s: string): seq<string> {
    FieldsFrom(s, "")
  }

  lemma {:induction false} FieldsAreWords(s: string, current: string)
    requires NoSpace(current)
    ensures forall i :: 0 <= i < |FieldsFrom(s, current)| ==> IsWord(FieldsFrom(s, current)[i])
    decreases |s|
  {
    if s != "" {
      FieldsAreWords(s[1..], if IsSpace(s[0]) then "" else current + [s[0]]);
    }
  }

  lemma {:induction false} WordRun(w: string, rest: string, current: string)
    requires NoSpace(w)
    ensures FieldsFrom(w + rest, current) == FieldsFrom(rest, current + w)
    decreases |w|
  {
    if w == "" {
      assert w + rest == rest && current + w == current;
    } else {
      WordRun(w[1..], rest, current + [w[0]]);
      assert (w + rest)[1..] == w[1..] + rest && current + w == current + [w[0]] + w[1..];
    }
  }

  lemma {:induction false} SpaceRun(spaces: string, rest: string, current: string)
    requires spaces != "" && forall i :: 0 <= i < |spaces| ==> IsSpace(spaces[i])
    ensures FieldsFrom(spaces + rest, current) == Closed(current) + Fields(rest)
    decreases |spaces|
  {
    assert (spaces + rest)[1..] == spaces[1..] + rest;
    if |spaces| == 1 {
      assert spaces[1..] + rest == rest;
    } else {
      SpaceRun(spaces[1..], rest, "");
    }
  }

  /** Fields of two texts with white space between them. */
  lemma {:induction false} FieldsAppend(a: string, spaces: string, b: string, current: string)
    requires spaces != "" && forall i :: 0 <= i < |spaces| ==> IsSpace(spaces[i])
    ensures FieldsFrom(a + spaces + b, current) == FieldsFrom(a, current) + Fields(b)
    decreases |a|
  {
    if a == "" {
      assert a + spaces + b == spaces + b;
      SpaceRun(spaces, b, current);
    } else {
      assert (a + spaces + b)[1..] == a[1..] + spaces + b;
      FieldsAppend(a[1..], spaces, b, if IsSpace(a[0]) then "" else current + [a[0]]);
    }
  }
}
