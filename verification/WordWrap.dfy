/** Soft wrapping of diagnosis text at 78 columns, continuation lines indented. */
module WordWrap {
  import opened GoStrings

  const WIDTH: nat := 78

  /** Go's len counts the bytes of the UTF-8 encoding. */
  function Bytes(c: char): nat {
    if c < '\U{0080}' then 1 else if c < '\U{0800}' then 2 else if c < '\U{10000}' then 3 else 4
  }

  function Len(s: string): nat {
    if s == "" then 0 else Len(s[..|s| - 1]) + Bytes(s[|s| - 1])
  }

  /** Section 3 of RFC 3629. */
  function Utf8(c: char): seq<int> {
    var n := c as int;
    if n <= 0x7F then [n]
    else if n <= 0x7FF then [0xC0 + n / 64, 0x80 + n % 64]
    else if n <= 0xFFFF then [0xE0 + n / 4096, 0x80 + n / 64 % 64, 0x80 + n % 64]
    else [0xF0 + n / 262144, 0x80 + n / 4096 % 64, 0x80 + n / 64 % 64, 0x80 + n % 64]
  }

  function EncodedLength(s: string): nat {
    if s == "" then 0 else |Utf8(s[0])| + EncodedLength(s[1..])
  }

  lemma {:induction false} LenIsEncodedLength(s: string)
    ensures Len(s) == EncodedLength(s)
    decreases |s|
  {
    if s != "" {
      LenIsEncodedLength(s[1..]);
      LenAppend([s[0]], s[1..]);
      assert s == [s[0]] + s[1..] && [s[0]][..0] == "";
    }
  }

  lemma {:induction false} LenAppend(a: string, b: string)
    ensures Len(a + b) == Len(a) + Len(b)
    decreases |b|
  {
    if b == "" {
      assert a + b == a;
    } else {
      assert (a + b)[..|a + b| - 1] == a + b[..|b| - 1];
      LenAppend(a, b[..|b| - 1]);
    }
  }

  // ---- Lines of words ----

  type Line = seq<string>

  function JoinWords(words: Line): string {
    if words == [] then ""
    else if |words| == 1 then words[0]
    else JoinWords(words[..|words| - 1]) + (" " + words[|words| - 1])
  }

  /** The columns a line of words takes. */
  function Columns(words: Line): nat {
    if words == [] then 0
    else if |words| == 1 then Len(words[0])
    else Columns(words[..|words| - 1]) + 1 + Len(words[|words| - 1])
  }

  lemma {:induction false} LenOfJoined(words: Line)
    ensures Len(JoinWords(words)) == Columns(words)
    decreases |words|
  {
    if |words| > 1 {
      var front, last := words[..|words| - 1], words[|words| - 1];
      LenOfJoined(front);
      LenAppend(JoinWords(front), " " + last);
      LenAppend(" ", last);
      assert " "[..0] == "" && Len(" ") == 1;
    }
  }

  function Flatten(lines: seq<Line>): Line {
    if lines == [] then [] else Flatten(lines[..|lines| - 1]) + lines[|lines| - 1]
  }

  /** The newline and indent that begin a continuation line. */
  function Break(indent: nat): string {
    "\n" + seq(indent, _ => ' ')
  }

  /** The text: words separated by blanks, lines by a newline and the indent. */
  function Render(lines: seq<Line>, indent: nat): string {
    if lines == [] then ""
    else if |lines| == 1 then JoinWords(lines[0])
    else Render(lines[..|lines| - 1], indent) + (Break(indent) + JoinWords(lines[|lines| - 1]))
  }

  // ---- What the loop computes ----

  /** The lines so far and the columns used on the last of them. */
  datatype Wrap = Wrap(lines: seq<Line>, used: nat) {

    function Add(word: string, indent: nat): Wrap {
      if lines == [] then Wrap([[word]], indent + Len(word))
      else if used + 1 + Len(word) > WIDTH then Wrap(lines + [[word]], indent + Len(word))
      else Wrap(lines[|lines| - 1 := lines[|lines| - 1] + [word]], used + 1 + Len(word))
    }
  }

  function Wrapped(words: Line, indent: nat): Wrap {
    if words == [] then Wrap([], 0) else Wrapped(words[..|words| - 1], indent).Add(words[|words| - 1], indent)
  }

  /** What holds of the lines whenever the loop has read `words`. */
  ghost predicate Filled(st: Wrap, words: Line, indent: nat) {
    && NonEmptyLines(st.lines) && Flatten(st.lines) == words && EachFits(st.lines, indent) && Maximal(st.lines, indent)
    && (st.lines != [] ==> st.used == indent + Columns(st.lines[|st.lines| - 1]))
  }

  predicate NonEmptyLines(lines: seq<Line>) {
    forall i :: 0 <= i < |lines| ==> lines[i] != []
  }

  /** Every line of two or more words stays within the width, indent included. */
  predicate EachFits(lines: seq<Line>, indent: nat) {
    forall i :: 0 <= i < |lines| && |lines[i]| > 1 ==> indent + Columns(lines[i]) <= WIDTH
  }

  /** No line could take the first word of the next. */
  predicate Maximal(lines: seq<Line>, indent: nat) {
    forall i :: 0 < i < |lines| && lines[i] != [] ==> indent + Columns(lines[i - 1]) + 1 + Len(lines[i][0]) > WIDTH
  }

  lemma JoinAdd(line: Line, word: string)
    requires line != []
    ensures JoinWords(line + [word]) == JoinWords(line) + (" " + word)
    ensures Columns(line + [word]) == Columns(line) + 1 + Len(word)
  {
    assert (line + [word])[..|line|] == line;
  }

  lemma RenderNewLine(lines: seq<Line>, word: string, indent: nat)
    requires lines != []
    ensures Render(lines + [[word]], indent) == Render(lines, indent) + (Break(indent) + word)
  {
    assert (lines + [[word]])[..|lines|] == lines;
  }

  lemma RenderSameLine(lines: seq<Line>, word: string, indent: nat)
    requires lines != [] && lines[|lines| - 1] != []
    ensures Render(lines[|lines| - 1 := lines[|lines| - 1] + [word]], indent) == Render(lines, indent) + (" " + word)
  {
    var n := |lines| - 1;
    JoinAdd(lines[n], word);
    var longer := lines[n := lines[n] + [word]];
    assert longer[..n] == lines[..n];
    if n > 0 {
      Associate(Render(lines[..n], indent), Break(indent), JoinWords(lines[n]), " " + word);
    }
  }

  lemma Associate(a: string, b: string, c: string, d: string)
    ensures a + (b + (c + d)) == (a + (b + c)) + d
  {
  }

  lemma FilledAdd(st: Wrap, words: Line, word: string, indent: nat)
    requires Filled(st, words, indent)
    ensures Filled(st.Add(word, indent), words + [word], indent)
  {
    if st.lines == [] {
      assert [[word]][..0] == [] && Flatten([[word]]) == [] + [word];
    } else if st.used + 1 + Len(word) > WIDTH {
      FilledNewLine(st, words, word, indent);
    } else {
      FilledSameLine(st, words, word, indent);
    }
  }

  lemma FilledNewLine(st: Wrap, words: Line, word: string, indent: nat)
    requires Filled(st, words, indent) && st.lines != [] && st.used + 1 + Len(word) > WIDTH
    ensures Filled(Wrap(st.lines + [[word]], indent + Len(word)), words + [word], indent)
  {
    var lines := st.lines + [[word]];
    assert lines[..|st.lines|] == st.lines;
    assert Columns([word]) == Len(word);
    MaximalAppend(st.lines, word, indent);
  }

  lemma MaximalAppend(lines: seq<Line>, word: string, indent: nat)
    requires lines != [] && Maximal(lines, indent) && indent + Columns(lines[|lines| - 1]) + 1 + Len(word) > WIDTH
    ensures Maximal(lines + [[word]], indent)
  {
    var more := lines + [[word]];
    forall i | 0 < i < |more| && more[i] != [] ensures indent + Columns(more[i - 1]) + 1 + Len(more[i][0]) > WIDTH {
      assert more[i - 1] == lines[i - 1];
      if i < |lines| {
        assert more[i] == lines[i];
      }
    }
  }

  lemma FilledSameLine(st: Wrap, words: Line, word: string, indent: nat)
    requires Filled(st, words, indent) && st.lines != [] && st.used + 1 + Len(word) <= WIDTH
    ensures Filled(st.Add(word, indent), words + [word], indent)
  {
    var n := |st.lines| - 1;
    var lines, last := st.Add(word, indent).lines, st.lines[n];
    JoinAdd(last, word);
    FlattenSameLine(st.lines, word);
    MaximalSameLine(st.lines, word, indent);
    assert forall i :: 0 <= i < n ==> lines[i] == st.lines[i];
  }

  lemma FlattenSameLine(lines: seq<Line>, word: string)
    requires lines != []
    ensures Flatten(lines[|lines| - 1 := lines[|lines| - 1] + [word]]) == Flatten(lines) + [word]
  {
    var n := |lines| - 1;
    var longer := lines[n := lines[n] + [word]];
    assert longer[..n] == lines[..n] && longer[n] == lines[n] + [word];
    assert Flatten(lines[..n]) + (lines[n] + [word]) == Flatten(lines[..n]) + lines[n] + [word];
  }

  lemma MaximalSameLine(lines: seq<Line>, word: string, indent: nat)
    requires lines != [] && NonEmptyLines(lines) && Maximal(lines, indent)
    ensures Maximal(lines[|lines| - 1 := lines[|lines| - 1] + [word]], indent)
  {
    var n := |lines| - 1;
    var longer := lines[n := lines[n] + [word]];
    assert forall i :: 0 <= i <= n ==> longer[i][0] == lines[i][0];
    assert forall i :: 0 <= i < n ==> longer[i] == lines[i];
  }

  lemma {:induction false} WrappedFilled(words: Line, indent: nat)
    ensures Filled(Wrapped(words, indent), words, indent)
    decreases |words|
  {
    if words != [] {
      var front := words[..|words| - 1];
      WrappedFilled(front, indent);
      FilledAdd(Wrapped(front, indent), front, words[|words| - 1], indent);
      assert front + [words[|words| - 1]] == words;
    }
  }

  /** Words that fit on one line stay on one line. */
  lemma {:induction false} OneLine(words: Line, indent: nat)
    requires words != [] && indent + Columns(words) <= WIDTH
    ensures Wrapped(words, indent) == Wrap([words], indent + Columns(words))
    decreases |words|
  {
    var front, last := words[..|words| - 1], words[|words| - 1];
    assert front + [last] == words;
    if |words| > 1 {
      OneLine(front, indent);
    }
  }

  lemma WrappedStep(words: Line, i: nat, indent: nat, st: Wrap)
    requires i < |words| && st == Wrapped(words[..i], indent)
    ensures Wrapped(words[..i + 1], indent) == st.Add(words[i], indent) && (st.lines == [] <==> i == 0)
    ensures Render(st.Add(words[i], indent).lines, indent) ==
      if i == 0 then words[i]
      else if st.used + 1 + Len(words[i]) > WIDTH then Render(st.lines, indent) + (Break(indent) + words[i])
      else Render(st.lines, indent) + (" " + words[i])
  {
    assert words[..i + 1][..i] == words[..i];
    WrappedFilled(words[..i], indent);
    if i > 0 {
      assert st.lines != [];
      RenderNewLine(st.lines, words[i], indent);
      RenderSameLine(st.lines, words[i], indent);
    }
  }

  /** wrapIndent; the early return and the loop give the same text. */
  method WrapIndent(s: string, indent: nat) returns (r: string)
    ensures r == Render(Wrapped(Fields(s), indent).lines, indent)
  {
    FieldsAreWords(s, "");
    FieldsOfJoined(Fields(s));
    LenOfJoined(Fields(s));
    var joined := JoinWords(Fields(s));
    if Len(joined) + indent <= WIDTH {
      if Fields(s) != [] { OneLine(Fields(s), indent); }
      return joined;
    }
    var words := Fields(joined);
    r := WrapWords(words, indent);
  }

  method WrapWords(words: Line, indent: nat) returns (r: string)
    ensures r == Render(Wrapped(words, indent).lines, indent)
  {
    r := "";
    var line := 0;
    ghost var st := Wrap([], 0);
    for i := 0 to |words|
      invariant st == Wrapped(words[..i], indent)
      invariant r == Render(st.lines, indent) && line == st.used
    {
      var word := words[i];
      WrappedStep(words, i, indent, st);
      st := st.Add(word, indent);
      if i == 0 {
        r := word;
        line := indent + Len(word);
      } else if line + 1 + Len(word) > WIDTH {
        r := r + (Break(indent) + word);
        line := indent + Len(word);
      } else {
        r := r + (" " + word);
        line := line + 1 + Len(word);
      }
    }
    assert words[..|words|] == words;
  }

  // ---- Nothing is lost ----

  predicate AllWords(words: Line) {
    forall i :: 0 <= i < |words| ==> IsWord(words[i])
  }

  lemma AllWordsOf(front: seq<Line>, last: Line, words: Line)
    requires words == Flatten(front) + last && AllWords(words)
    ensures AllWords(Flatten(front)) && AllWords(last)
  {
    assert forall i :: 0 <= i < |Flatten(front)| ==> Flatten(front)[i] == words[i];
    assert forall i :: 0 <= i < |last| ==> last[i] == words[|Flatten(front)| + i];
  }

  lemma FieldsOfWord(w: string)
    requires IsWord(w)
    ensures Fields(w) == [w]
  {
    WordRun(w, "", "");
    assert w + "" == w && "" + w == w;
  }

  lemma {:induction false} FieldsOfJoined(words: Line)
    requires AllWords(words)
    ensures Fields(JoinWords(words)) == words
    decreases |words|
  {
    if |words| == 1 {
      FieldsOfWord(words[0]);
    } else if words != [] {
      var front, last := words[..|words| - 1], words[|words| - 1];
      FieldsOfJoined(front);
      FieldsOfWord(last);
      FieldsAppend(JoinWords(front), " ", last, "");
      assert JoinWords(front) + (" " + last) == JoinWords(front) + " " + last;
      assert front + [last] == words;
    }
  }

  lemma {:induction false} FieldsOfRendered(lines: seq<Line>, indent: nat)
    requires NonEmptyLines(lines) && AllWords(Flatten(lines))
    ensures Fields(Render(lines, indent)) == Flatten(lines)
    decreases |lines|
  {
    if lines != [] {
      var front, last := lines[..|lines| - 1], lines[|lines| - 1];
      AllWordsOf(front, last, Flatten(lines));
      FieldsOfJoined(last);
      if |lines| > 1 {
        FieldsOfRendered(front, indent);
        FieldsAppend(Render(front, indent), Break(indent), JoinWords(last), "");
        assert Render(front, indent) + (Break(indent) + JoinWords(last)) == Render(front, indent) + Break(indent) + JoinWords(last);
      }
    }
  }

  /** The words of the wrapped text are the words of the input; every line is one word or fits. */
  lemma NothingLost(s: string, indent: nat)
    ensures var lines := Wrapped(Fields(s), indent).lines;
      Fields(Render(lines, indent)) == Fields(s) && Flatten(lines) == Fields(s) && EachFits(lines, indent)
  {
    FieldsAreWords(s, "");
    WrappedFilled(Fields(s), indent);
    FieldsOfRendered(Wrapped(Fields(s), indent).lines, indent);
  }

  // ---- No split uses fewer lines ----

  lemma {:induction false} FlattenCons(lines: seq<Line>)
    requires lines != []
    ensures Flatten(lines) == lines[0] + Flatten(lines[1..])
    decreases |lines|
  {
    var front, tail := lines[..|lines| - 1], lines[1..];
    if |lines| == 1 {
      assert front == [] && tail == [] && Flatten(lines) == [] + lines[0] == lines[0] + [];
    } else {
      FlattenCons(front);
      var middle, last := Flatten(front[1..]), lines[|lines| - 1];
      assert front[1..] == tail[..|tail| - 1];
      assert Flatten(tail) == middle + last;
      assert Flatten(lines) == (lines[0] + middle) + last == lines[0] + (middle + last);
    }
  }

  lemma {:induction false} ColumnsTail(words: Line)
    requires words != []
    ensures Columns(words[1..]) <= Columns(words)
    decreases |words|
  {
    if |words| > 2 {
      var front := words[..|words| - 1];
      ColumnsTail(front);
      assert front[1..] == words[1..][..|words| - 2];
    }
  }

  lemma {:induction false} ColumnsPart(words: Line, from: nat, to: nat, part: Line)
    requires from <= to <= |words| && part == words[from..to]
    ensures Columns(part) <= Columns(words)
    decreases |words|
  {
    if to < |words| {
      ColumnsPart(words[..|words| - 1], from, to, part);
    } else if from > 0 {
      ColumnsTail(words);
      ColumnsPart(words[1..], from - 1, to - 1, part);
    } else {
      assert part == words;
    }
  }

  /** A line that fits cannot hold a full line and the word after it. */
  lemma NotLonger(line: Line, k: nat, lines: seq<Line>, indent: nat)
    requires k < |line| && lines != [] && NonEmptyLines(lines) && Maximal(lines, indent)
    requires |line| > 1 ==> indent + Columns(line) <= WIDTH
    requires line[k..] <= Flatten(lines)
    ensures |line| - k <= |lines[0]|
  {
    var first, n := lines[0], k + |lines[0]|;
    FirstWords(lines);
    assert |line[k..]| == |line| - k;
    if |lines| > 1 && n < |line| {
      WordAt(line, k, first, lines[1][0], lines);
      FullAndMore(line, k, first, lines[1][0]);
    }
  }

  lemma FullAndMore(line: Line, k: nat, first: Line, next: string)
    requires first != [] && k + |first| < |line| && line[k..k + |first| + 1] == first + [next]
    ensures Columns(first) + 1 + Len(next) <= Columns(line)
  {
    ColumnsPart(line, k, k + |first| + 1, first + [next]);
    JoinAdd(first, next);
  }

  lemma FirstWords(lines: seq<Line>)
    requires lines != [] && NonEmptyLines(lines)
    ensures |lines| == 1 ==> Flatten(lines) == lines[0]
    ensures |lines| > 1 ==>
      |lines[0]| < |Flatten(lines)| && Flatten(lines)[..|lines[0]|] == lines[0] && Flatten(lines)[|lines[0]|] == lines[1][0]
  {
    FlattenCons(lines);
    if |lines| == 1 {
      assert lines[1..] == [] && lines[0] + [] == lines[0];
    } else {
      FlattenCons(lines[1..]);
      var rest := lines[1] + Flatten(lines[1..][1..]);
      assert rest[0] == lines[1][0];
    }
  }

  lemma WordAt(line: Line, k: nat, first: Line, next: string, lines: seq<Line>)
    requires k + |first| < |line| && line[k..] <= Flatten(lines)
    requires |first| < |Flatten(lines)| && Flatten(lines)[..|first|] == first && Flatten(lines)[|first|] == next
    ensures line[k..k + |first| + 1] == first + [next]
  {
    var all := Flatten(lines);
    forall i | 0 <= i <= |first| ensures line[k..k + |first| + 1][i] == (first + [next])[i] {
      assert line[k..][i] == all[i] && line[k..k + |first| + 1][i] == line[k + i] == line[k..][i];
      assert i < |first| ==> all[i] == all[..|first|][i];
    }
  }

  /** Lines that could take nothing more, over the words from `k` on, are no more than any lines that fit over all of them. */
  lemma {:induction false} Fewest(lines: seq<Line>, split: seq<Line>, k: nat, indent: nat)
    requires NonEmptyLines(lines) && Maximal(lines, indent) && EachFits(split, indent)
    requires k <= |Flatten(split)| && Flatten(lines) == Flatten(split)[k..]
    ensures |lines| <= |split|
    decreases |split|
  {
    if lines != [] {
      FlattenCons(lines);
      if split != [] {
        FlattenCons(split);
        var line, rest := split[0], split[1..];
        if |line| <= k {
          assert Flatten(split)[k..] == Flatten(rest)[k - |line|..];
          Fewest(lines, rest, k - |line|, indent);
        } else {
          assert line[k..] <= Flatten(lines);
          NotLonger(line, k, lines, indent);
          var k' := k + |lines[0]| - |line|;
          assert Flatten(lines)[|lines[0]|..] == Flatten(lines[1..]);
          assert Flatten(split)[k..][|lines[0]|..] == Flatten(rest)[k'..];
          Fewest(lines[1..], rest, k', indent);
        }
      }
    }
  }

  /** wrapIndent uses the fewest lines of any split in which every line of two or more words fits. */
  lemma Optimal(words: Line, indent: nat, split: seq<Line>)
    requires Flatten(split) == words && EachFits(split, indent)
    ensures |Wrapped(words, indent).lines| <= |split|
  {
    WrappedFilled(words, indent);
    assert words[0..] == words;
    Fewest(Wrapped(words, indent).lines, split, 0, indent);
  }

  // ---- Lines of the text ----

  function Newlines(text: string): nat {
    multiset(text)['\n']
  }

  lemma {:induction false} NoNewlineInJoined(words: Line)
    requires AllWords(words)
    ensures Newlines(JoinWords(words)) == 0
    decreases |words|
  {
    if words != [] {
      var front, last := words[..|words| - 1], words[|words| - 1];
      assert IsWord(last) && '\n' !in last;
      NoNewlineInJoined(front);
    }
  }

  lemma OneNewlineInBreak(indent: nat)
    ensures Newlines(Break(indent)) == 1
  {
    assert '\n' !in seq(indent, _ => ' ');
  }

  /** The text of some lines has one newline between any two of them and no other. */
  lemma {:induction false} NewlinesOfRendered(lines: seq<Line>, indent: nat)
    requires AllWords(Flatten(lines))
    ensures Newlines(Render(lines, indent)) == if lines == [] then 0 else |lines| - 1
    decreases |lines|
  {
    if lines != [] {
      var front, last := lines[..|lines| - 1], lines[|lines| - 1];
      AllWordsOf(front, last, Flatten(lines));
      NewlinesOfRendered(front, indent);
      NoNewlineInJoined(last);
      OneNewlineInBreak(indent);
    }
  }

  /** So no way of writing the same words, with every line of two or more words fitting, takes fewer lines of text. */
  lemma FewestLinesOfText(s: string, indent: nat, split: seq<Line>)
    requires Flatten(split) == Fields(s) && EachFits(split, indent)
    ensures Newlines(Render(Wrapped(Fields(s), indent).lines, indent)) <= Newlines(Render(split, indent))
  {
    FieldsAreWords(s, "");
    NothingLost(s, indent);
    Optimal(Fields(s), indent, split);
    NewlinesOfRendered(Wrapped(Fields(s), indent).lines, indent);
    NewlinesOfRendered(split, indent);
  }

  // ---- The text, line by line ----

  /** The text cut at its newlines. */
  function Pieces(text: string): (pieces: seq<string>)
    ensures pieces != []
  {
    if text == "" then [""]
    else
      var rest := Pieces(text[1..]);
      if text[0] == '\n' then [""] + rest else [[text[0]] + rest[0]] + rest[1..]
  }

  lemma {:induction false} PiecesOfOne(text: string)
    requires '\n' !in text
    ensures Pieces(text) == [text]
    decreases |text|
  {
    if text != "" {
      PiecesOfOne(text[1..]);
      assert text == [text[0]] + text[1..];
    }
  }

  /** The pieces once `c` stands in front of the text. */
  function InFront(c: char, pieces: seq<string>): seq<string>
    requires pieces != []
  {
    if c == '\n' then [""] + pieces else [[c] + pieces[0]] + pieces[1..]
  }

  lemma PiecesCons(c: char, text: string)
    ensures Pieces([c] + text) == InFront(c, Pieces(text))
  {
    assert ([c] + text)[1..] == text;
  }

  lemma InFrontAppend(c: char, a: seq<string>, b: seq<string>)
    requires a != []
    ensures InFront(c, a + b) == InFront(c, a) + b
  {
  }

  lemma {:induction false} PiecesAppend(a: string, b: string)
    ensures Pieces(a + ("\n" + b)) == Pieces(a) + Pieces(b)
    decreases |a|
  {
    if a == "" {
      assert a + ("\n" + b) == ['\n'] + b;
      PiecesCons('\n', b);
    } else {
      PiecesAppend(a[1..], b);
      assert a == [a[0]] + a[1..] && a + ("\n" + b) == [a[0]] + (a[1..] + ("\n" + b));
      PiecesCons(a[0], a[1..]);
      PiecesCons(a[0], a[1..] + ("\n" + b));
      InFrontAppend(a[0], Pieces(a[1..]), Pieces(b));
    }
  }

  function Blanks(n: nat): (s: string)
    ensures |s| == n && forall i :: 0 <= i < n ==> s[i] == ' '
  {
    if n == 0 then "" else " " + Blanks(n - 1)
  }

  lemma {:induction false} LenOfBlanks(n: nat)
    ensures Len(Blanks(n)) == n
  {
    if n > 0 {
      LenOfBlanks(n - 1);
      LenAppend(" ", Blanks(n - 1));
      assert " "[..0] == "" && Len(" ") == 1;
    }
  }

  /** Line `i` as it stands in the text. */
  function LineOfText(lines: seq<Line>, i: nat, indent: nat): string
    requires i < |lines|
  {
    if i == 0 then JoinWords(lines[0]) else Blanks(indent) + JoinWords(lines[i])
  }

  lemma NewlineFree(words: Line)
    requires AllWords(words)
    ensures '\n' !in JoinWords(words)
  {
    NoNewlineInJoined(words);
  }

  lemma LastLine(last: Line, indent: nat)
    requires AllWords(last)
    ensures Break(indent) + JoinWords(last) == "\n" + (Blanks(indent) + JoinWords(last))
    ensures Pieces(Blanks(indent) + JoinWords(last)) == [Blanks(indent) + JoinWords(last)]
  {
    NewlineFree(last);
    assert Break(indent) == "\n" + Blanks(indent);
    PiecesOfOne(Blanks(indent) + JoinWords(last));
  }

  function LinesOfText(lines: seq<Line>, indent: nat): (pieces: seq<string>)
    ensures |pieces| == |lines| && forall i :: 0 <= i < |lines| ==> pieces[i] == LineOfText(lines, i, indent)
  {
    seq(|lines|, i requires 0 <= i < |lines| => LineOfText(lines, i, indent))
  }

  lemma {:induction false} PiecesOfRendered(lines: seq<Line>, indent: nat)
    requires lines != [] && AllWords(Flatten(lines))
    ensures Pieces(Render(lines, indent)) == LinesOfText(lines, indent)
    decreases |lines|
  {
    var front, last := lines[..|lines| - 1], lines[|lines| - 1];
    AllWordsOf(front, last, Flatten(lines));
    if |lines| == 1 {
      NewlineFree(last);
      PiecesOfOne(JoinWords(last));
    } else {
      PiecesOfRendered(front, indent);
      LastLine(last, indent);
      PiecesAppend(Render(front, indent), Blanks(indent) + JoinWords(last));
      LinesOfTextStep(lines, indent);
    }
  }

  lemma LinesOfTextStep(lines: seq<Line>, indent: nat)
    requires |lines| > 1
    ensures LinesOfText(lines, indent)
         == LinesOfText(lines[..|lines| - 1], indent) + [Blanks(indent) + JoinWords(lines[|lines| - 1])]
  {
  }

  /** Words joined: one blank between any two. */
  lemma {:induction false} JoinedFromTheFront(word: string, words: Line)
    requires words != []
    ensures JoinWords([word]) == word && JoinWords([word] + words) == word + " " + JoinWords(words)
    decreases |words|
  {
    var front, last := words[..|words| - 1], words[|words| - 1];
    JoinAdd([word] + front, last);
    assert [word] + words == [word] + front + [last];
    if front == [] {
      assert [word] + front == [word] && words == [last];
      Associate(word, "", " ", last);
    } else {
      JoinedFromTheFront(word, front);
      Associate(word, " ", JoinWords(front), " " + last);
      assert word + (" " + JoinWords(front)) == word + " " + JoinWords(front);
    }
  }

  /**
    The wrapped text, cut at its newlines: the words of the first line, then for
    every further line `indent` blanks and its words. Together they are the words
    of the input. A line of two or more words takes at most 78 bytes, the
    first counted with the indent it stands behind, and no line has room for the
    first word of the next.
   */
  lemma TextOfLines(s: string, indent: nat)
    requires Fields(s) != []
    ensures var lines := Wrapped(Fields(s), indent).lines;
      var pieces := Pieces(Render(lines, indent));
      && Flatten(lines) == Fields(s) && |pieces| == |lines|
      && (forall i :: 0 <= i < |lines| ==>
            && lines[i] != []
            && pieces[i] == (if i == 0 then JoinWords(lines[i]) else Blanks(indent) + JoinWords(lines[i]))
            && (|lines[i]| >= 2 ==> EncodedLength(pieces[i]) + (if i == 0 then indent else 0) <= 78))
      && (forall i :: 0 < i < |lines| && lines[i] != [] ==>
            EncodedLength(pieces[i - 1]) + (if i == 1 then indent else 0) + 1 + EncodedLength(lines[i][0]) > 78)
  {
    var lines := Wrapped(Fields(s), indent).lines;
    FieldsAreWords(s, "");
    WrappedFilled(Fields(s), indent);
    assert lines != [];
    PiecesOfRendered(lines, indent);
    forall i | 0 <= i < |lines|
      ensures EncodedLength(LineOfText(lines, i, indent)) + (if i == 0 then indent else 0) == indent + Columns(lines[i])
    {
      LengthOfLine(lines, i, indent);
    }
    forall i | 0 <= i < |lines| && lines[i] != [] ensures EncodedLength(lines[i][0]) == Len(lines[i][0]) {
      LenIsEncodedLength(lines[i][0]);
    }
  }

  lemma LengthOfLine(lines: seq<Line>, i: nat, indent: nat)
    requires i < |lines|
    ensures EncodedLength(LineOfText(lines, i, indent)) + (if i == 0 then indent else 0) == indent + Columns(lines[i])
  {
    LenIsEncodedLength(LineOfText(lines, i, indent));
    LenOfJoined(lines[i]);
    LenAppend(Blanks(indent), JoinWords(lines[i]));
    LenOfBlanks(indent);
  }
}
