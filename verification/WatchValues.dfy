/** Which entries and configurations a WATCH_NAMESPACE value can denote: each has a written form that parses back to it. */
module WatchValues {
  import opened GoStrings
  import opened NamespaceEntries
  import opened StringOrder
  import opened WatchConfig

  // ---- One entry ----

  predicate HasTagPrefix(entry: string) {
    HasPrefix(entry, "glob:") || HasPrefix(entry, "regex:") || HasPrefix(entry, "re:") || HasPrefix(entry, "label:")
  }

  /** A namespace that is written as itself. */
  predicate PlainName(name: string) {
    Trimmed(name) && !HasTagPrefix(name) && !HasGlobChars(name)
  }

  function Tagged(tag: Tag, text: string): string {
    match tag
    case Glob => "glob:" + text
    case Regex => "regex:" + text
    case Label => "label:{" + text + "}"
  }

  function Written(m: Meaning): string {
    match m
    case Empty => ""
    case Star => "*"
    case Explicit(name) => name
    case Pattern(tag, text) => Tagged(tag, text)
    case Bad(EmptyPattern(tag)) => Tagged(tag, "")
    case Bad(InvalidPattern(tag, text)) => Tagged(tag, text)
  }

  /** The meanings a trimmed entry can have. */
  predicate Writable(lib: Library, m: Meaning) {
    match m
    case Empty => false
    case Star => true
    case Explicit(name) => PlainName(name)
    case Pattern(tag, text) => Trimmed(text) && lib.valid(tag, text)
    case Bad(EmptyPattern(_)) => true
    case Bad(InvalidPattern(tag, text)) => Trimmed(text) && !lib.valid(tag, text)
  }

  /**
    A prefix in any letter case decides the kind, and the text behind it is
    trimmed; without one, a glob character makes the whole entry a glob.
   */
  lemma PrefixDecides(lib: Library, entry: string)
    ensures HasPrefix(entry, "glob:") ==> Meant(lib, entry) == Checked(lib, Glob, TrimSpace(entry[5..]))
    ensures HasPrefix(entry, "regex:") ==> Meant(lib, entry) == Checked(lib, Regex, TrimSpace(entry[6..]))
    ensures HasPrefix(entry, "re:") ==> Meant(lib, entry) == Checked(lib, Regex, TrimSpace(entry[3..]))
    ensures HasPrefix(entry, "label:") ==> Meant(lib, entry) == Checked(lib, Label, Unbraced(TrimSpace(entry[6..])))
    ensures !HasTagPrefix(entry) && HasGlobChars(entry) && entry != "*" ==> Meant(lib, entry) == Checked(lib, Glob, entry)
  {
    PrefixesDiffer(entry);
  }

  /** No two prefixes fit the same entry. */
  lemma PrefixesDiffer(entry: string)
    ensures HasPrefix(entry, "glob:") ==> Lower(entry[0]) == 'g'
    ensures HasPrefix(entry, "regex:") ==> Lower(entry[0]) == 'r' && Lower(entry[2]) == 'g'
    ensures HasPrefix(entry, "re:") ==> Lower(entry[0]) == 'r' && Lower(entry[2]) == ':'
    ensures HasPrefix(entry, "label:") ==> Lower(entry[0]) == 'l'
  {
  }

  lemma OwnPrefix(prefix: string, text: string)
    requires forall i :: 0 <= i < |prefix| ==> Lower(prefix[i]) == prefix[i]
    ensures HasPrefix(prefix + text, prefix) && (prefix + text)[|prefix|..] == text
  {
  }

  /** `text` is `lower`, or `upper`, or a mixture. */
  predicate Spells(text: string, lower: string, upper: string)
    requires |lower| == |upper|
  {
    |text| == |lower| && forall i :: 0 <= i < |text| ==> text[i] == lower[i] || text[i] == upper[i]
  }

  /** The same letters in both cases; the colon has none. */
  predicate Cases(lower: string, upper: string) {
    |lower| == |upper| && forall i :: 0 <= i < |lower| ==>
      ('a' <= lower[i] <= 'z' && upper[i] as int == lower[i] as int - 32) || lower[i] == upper[i] == ':'
  }

  lemma PrefixSpelled(entry: string, lower: string, upper: string)
    requires Cases(lower, upper)
    ensures HasPrefix(entry, lower) <==> |lower| <= |entry| && Spells(entry[..|lower|], lower, upper)
  {
    if |lower| <= |entry| {
      forall i | 0 <= i < |lower| ensures Lower(entry[i]) == lower[i] <==> entry[i] == lower[i] || entry[i] == upper[i] {}
      if Spells(entry[..|lower|], lower, upper) {
        assert forall i :: 0 <= i < |lower| ==> entry[i] == entry[..|lower|][i];
      }
    }
  }

  /** The entry begins with one of the four prefixes, in any letter case. */
  predicate Prefixed(entry: string) {
    || (|entry| >= 5 && Spells(entry[..5], "glob:", "GLOB:")) || (|entry| >= 6 && Spells(entry[..6], "regex:", "REGEX:"))
    || (|entry| >= 3 && Spells(entry[..3], "re:", "RE:")) || (|entry| >= 6 && Spells(entry[..6], "label:", "LABEL:"))
  }

  lemma PrefixedIff(entry: string)
    ensures HasPrefix(entry, "glob:") <==> |entry| >= 5 && Spells(entry[..5], "glob:", "GLOB:")
    ensures HasPrefix(entry, "regex:") <==> |entry| >= 6 && Spells(entry[..6], "regex:", "REGEX:")
    ensures HasPrefix(entry, "re:") <==> |entry| >= 3 && Spells(entry[..3], "re:", "RE:")
    ensures HasPrefix(entry, "label:") <==> |entry| >= 6 && Spells(entry[..6], "label:", "LABEL:")
  {
    PrefixSpelled(entry, "glob:", "GLOB:");
    PrefixSpelled(entry, "regex:", "REGEX:");
    PrefixSpelled(entry, "re:", "RE:");
    PrefixSpelled(entry, "label:", "LABEL:");
  }

  /** An entry with a prefix, in any letter case: the text behind it, trimmed, is the pattern; a selector may stand in braces. */
  lemma PrefixedEntry(lib: Library, prefix: string, text: string)
    ensures Spells(prefix, "glob:", "GLOB:") ==> Meant(lib, prefix + text) == Checked(lib, Glob, TrimSpace(text))
    ensures Spells(prefix, "regex:", "REGEX:") || Spells(prefix, "re:", "RE:") ==>
      Meant(lib, prefix + text) == Checked(lib, Regex, TrimSpace(text))
    ensures Spells(prefix, "label:", "LABEL:") ==>
      Meant(lib, prefix + text) == Checked(lib, Label, Unbraced(TrimSpace(text)))
  {
    var entry := prefix + text;
    assert entry[..|prefix|] == prefix && entry[|prefix|..] == text;
    PrefixedIff(entry);
    PrefixDecides(lib, entry);
  }

  /** A pair of braces is taken off a selector and its inside trimmed; any other text is the selector itself. */
  lemma SelectorIs(inner: string, raw: string)
    ensures Unbraced("{" + inner + "}") == TrimSpace(inner)
    ensures raw == "" || raw[0] != '{' || raw[|raw| - 1] != '}' ==> Unbraced(raw) == raw
  {
    var braced := "{" + inner + "}";
    assert braced[1..|braced| - 1] == inner;
  }

  /** An entry without one: the star, a glob when it has one of the characters *, ? and [, else the name of a namespace. */
  lemma BareEntry(lib: Library, entry: string)
    requires entry != "" && !Prefixed(entry)
    ensures Meant(lib, entry) ==
      if entry == "*" then Star
      else if '*' in entry || '?' in entry || '[' in entry then Checked(lib, Glob, entry)
      else Explicit(entry)
  {
    PrefixedIff(entry);
    GlobCharsAre(entry);
    PrefixDecides(lib, entry);
    BareIsExplicit(lib, entry);
  }

  lemma GlobCharsAre(entry: string)
    ensures HasGlobChars(entry) <==> '*' in entry || '?' in entry || '[' in entry
  {
    forall c ensures c in "*?[" <==> c == '*' || c == '?' || c == '[' {
      assert "*?["[0] == '*' && "*?["[1] == '?' && "*?["[2] == '[';
    }
  }

  lemma BareIsExplicit(lib: Library, entry: string)
    requires entry != ""
    ensures entry == "*" ==> Meant(lib, entry) == Star
    ensures entry != "*" && !HasTagPrefix(entry) && !HasGlobChars(entry) ==> Meant(lib, entry) == Explicit(entry)
  {
  }

  /** Empty or trimmed. */
  predicate Tight(text: string) {
    text == "" || Trimmed(text)
  }

  lemma TightStays(text: string)
    requires Tight(text)
    ensures TrimSpace(text) == text
  {
  }

  lemma TaggedMeans(lib: Library, tag: Tag, text: string)
    requires Tight(text)
    ensures Meant(lib, Tagged(tag, text)) == Checked(lib, tag, text) && Trimmed(Tagged(tag, text))
  {
    TaggedIsTrimmed(tag, text);
    match tag {
      case Glob => GlobMeans(lib, text);
      case Regex => RegexMeans(lib, text);
      case Label => LabelMeans(lib, text);
    }
  }

  lemma GlobMeans(lib: Library, text: string)
    requires Tight(text)
    ensures Meant(lib, "glob:" + text) == Checked(lib, Glob, text)
  {
    OwnPrefix("glob:", text);
    PrefixDecides(lib, "glob:" + text);
    TightStays(text);
  }

  lemma RegexMeans(lib: Library, text: string)
    requires Tight(text)
    ensures Meant(lib, "regex:" + text) == Checked(lib, Regex, text)
  {
    OwnPrefix("regex:", text);
    PrefixDecides(lib, "regex:" + text);
    TightStays(text);
  }

  lemma LabelMeans(lib: Library, text: string)
    requires Tight(text)
    ensures Meant(lib, "label:{" + text + "}") == Checked(lib, Label, text)
  {
    var raw := "{" + text + "}";
    LabelWithBraces(text);
    OwnPrefix("label:", raw);
    PrefixDecides(lib, "label:" + raw);
    BracesComeOff(text);
  }

  lemma LabelWithBraces(text: string)
    ensures "label:{" + text + "}" == "label:" + ("{" + text + "}")
  {
  }

  lemma BracesComeOff(text: string)
    requires Tight(text)
    ensures Unbraced(TrimSpace("{" + text + "}")) == text
  {
    var raw := "{" + text + "}";
    TightStays(raw);
    TightStays(text);
    assert raw[1..|raw| - 1] == text;
  }

  lemma TaggedIsTrimmed(tag: Tag, text: string)
    requires Tight(text)
    ensures Trimmed(Tagged(tag, text))
  {
  }

  /** Writing a meaning down and reading it gives it back. */
  lemma WrittenMeans(lib: Library, m: Meaning)
    requires Writable(lib, m)
    ensures Meant(lib, Written(m)) == m && Trimmed(Written(m))
  {
    match m {
      case Star =>
      case Explicit(name) => StarIsGlob(name);
      case Pattern(tag, text) => TaggedMeans(lib, tag, text);
      case Bad(EmptyPattern(tag)) => TaggedMeans(lib, tag, "");
      case Bad(InvalidPattern(tag, text)) => TaggedMeans(lib, tag, text);
    }
  }

  lemma StarIsGlob(name: string)
    requires !HasGlobChars(name)
    ensures name != "*"
  {
    assert "*"[0] in "*?[" && HasGlobChars("*");
  }

  lemma CheckedIsWritable(lib: Library, tag: Tag, text: string)
    requires Tight(text)
    ensures Writable(lib, Checked(lib, tag, text))
  {
  }

  lemma TrimmingTightens(text: string)
    ensures Tight(TrimSpace(text)) && Tight(Unbraced(TrimSpace(text)))
  {
  }

  lemma MeantIsWritable(lib: Library, entry: string)
    requires Trimmed(entry)
    ensures Writable(lib, Meant(lib, entry))
  {
    forall tag, text | Tight(text) ensures Writable(lib, Checked(lib, tag, text)) {
      CheckedIsWritable(lib, tag, text);
    }
    forall text ensures Tight(TrimSpace(text)) && Tight(Unbraced(TrimSpace(text))) {
      TrimmingTightens(text);
    }
    PrefixDecides(lib, entry);
  }

  /** The meanings of trimmed entries are exactly the writable ones. */
  lemma MeaningIff(lib: Library, m: Meaning)
    ensures (exists entry :: Trimmed(entry) && Meant(lib, entry) == m) <==> Writable(lib, m)
  {
    if Writable(lib, m) {
      WrittenMeans(lib, m);
    }
    forall entry | Trimmed(entry) ensures Writable(lib, Meant(lib, entry)) {
      MeantIsWritable(lib, entry);
    }
  }

  // ---- A whole value ----

  /** The configurations some value denotes. */
  ghost predicate Denotable(lib: Library, cfg: Config) {
    && (forall tag, text :: text in cfg.Patterns(tag) ==> Writable(lib, Pattern(tag, text)))
    && StrictlySorted(cfg.explicit) && (forall name :: name in cfg.explicit ==> PlainName(name))
    && (if cfg.all then cfg.explicit == [] else cfg.explicit != [] || cfg.HasPatterns())
  }

  /** The value parses to the configuration. */
  ghost predicate Denotes(lib: Library, value: string, cfg: Config) {
    Means(Meanings(lib, Split(TrimSpace(value))), Parsed(cfg))
  }

  function PatternsOf(tag: Tag, texts: seq<string>): (ms: seq<Meaning>)
    ensures |ms| == |texts| && forall i :: 0 <= i < |ms| ==> ms[i] == Pattern(tag, texts[i])
  {
    seq(|texts|, i requires 0 <= i < |texts| => Pattern(tag, texts[i]))
  }

  function ExplicitOf(names: seq<string>): (ms: seq<Meaning>)
    ensures |ms| == |names| && forall i :: 0 <= i < |ms| ==> ms[i] == Explicit(names[i])
  {
    seq(|names|, i requires 0 <= i < |names| => Explicit(names[i]))
  }

  /** The entries of a configuration, up to a star. */
  function Body(cfg: Config): seq<Meaning> {
    PatternsOf(Glob, cfg.globs) + PatternsOf(Regex, cfg.regexes) + PatternsOf(Label, cfg.labels) + ExplicitOf(cfg.explicit)
  }

  function Listing(cfg: Config): seq<Meaning> {
    Body(cfg) + if cfg.all then [Star] else []
  }

  function WrittenAll(ms: seq<Meaning>): (entries: seq<string>)
    ensures |entries| == |ms| && forall i :: 0 <= i < |ms| ==> entries[i] == Written(ms[i])
  {
    seq(|ms|, i requires 0 <= i < |ms| => Written(ms[i]))
  }

  /** A value for the configuration: its written entries, escaped and joined with commas. */
  function Value(cfg: Config): string {
    Join(EscapeAll(WrittenAll(Listing(cfg))))
  }

  lemma {:induction false} TextsAppend(a: seq<Meaning>, b: seq<Meaning>, tag: Tag)
    ensures Texts(a + b, tag) == Texts(a, tag) + Texts(b, tag)
    decreases |b|
  {
    if b == [] {
      assert a + b == a;
    } else {
      var front := b[..|b| - 1];
      TextsAppend(a, front, tag);
      assert (a + b)[..|a + b| - 1] == a + front;
    }
  }

  lemma {:induction false} TextsOfPatterns(tag: Tag, texts: seq<string>, tag': Tag)
    ensures Texts(PatternsOf(tag, texts), tag') == if tag == tag' then texts else []
    decreases |texts|
  {
    if texts != [] {
      var front := texts[..|texts| - 1];
      TextsOfPatterns(tag, front, tag');
      assert PatternsOf(tag, texts)[..|texts| - 1] == PatternsOf(tag, front);
      assert texts == front + [texts[|texts| - 1]];
    }
  }

  lemma TextsOfNames(names: seq<string>, tag: Tag)
    ensures Texts(ExplicitOf(names), tag) == []
  {
    TextsNone(ExplicitOf(names), tag);
  }

  /** Four parts, of which only the one of the kind asked for has texts of that kind. */
  lemma TextsOfFour(a: seq<Meaning>, b: seq<Meaning>, c: seq<Meaning>, d: seq<Meaning>, cfg: Config, tag: Tag)
    requires Texts(a, tag) == (if tag == Glob then cfg.globs else [])
    requires Texts(b, tag) == (if tag == Regex then cfg.regexes else [])
    requires Texts(c, tag) == (if tag == Label then cfg.labels else [])
    requires Texts(d, tag) == []
    ensures Texts(a + b + c + d, tag) == cfg.Patterns(tag)
  {
    TextsAppend(a, b, tag);
    TextsAppend(a + b, c, tag);
    TextsAppend(a + b + c, d, tag);
  }

  lemma BodyTexts(cfg: Config, tag: Tag)
    ensures Texts(Body(cfg), tag) == cfg.Patterns(tag)
  {
    TextsOfPatterns(Glob, cfg.globs, tag);
    TextsOfPatterns(Regex, cfg.regexes, tag);
    TextsOfPatterns(Label, cfg.labels, tag);
    TextsOfNames(cfg.explicit, tag);
    TextsOfFour(PatternsOf(Glob, cfg.globs), PatternsOf(Regex, cfg.regexes), PatternsOf(Label, cfg.labels),
                ExplicitOf(cfg.explicit), cfg, tag);
  }

  lemma BodyNames(cfg: Config)
    ensures Names(Body(cfg)) == Elements(cfg.explicit)
  {
    var explicit := ExplicitOf(cfg.explicit);
    forall m | m in Body(cfg) && m.Explicit? ensures m in explicit {}
    forall name | name in cfg.explicit ensures Explicit(name) in Body(cfg) {
      var i :| 0 <= i < |cfg.explicit| && cfg.explicit[i] == name;
      assert explicit[i] in Body(cfg);
    }
  }

  lemma ListingMeans(lib: Library, cfg: Config)
    requires Denotable(lib, cfg)
    ensures Means(Listing(cfg), Parsed(cfg))
  {
    var ms, body := Listing(cfg), Body(cfg);
    assert forall k :: 0 <= k < |body| ==> ms[k] == body[k] && !body[k].Star? && !body[k].Bad?;
    assert cfg.all ==> ms[|body|] == Star;
    assert Scanned(ms) == |body| && ms[..|body|] == body;
    forall tag ensures cfg.Patterns(tag) == Texts(body, tag) {
      BodyTexts(cfg, tag);
    }
    if !cfg.all {
      assert ms == body;
      BodyNames(cfg);
      SortedUnique(cfg.explicit, Sorted(Names(ms)));
    }
  }

  lemma ListingIsWritable(lib: Library, cfg: Config)
    requires Denotable(lib, cfg)
    ensures forall i :: 0 <= i < |Listing(cfg)| ==> Writable(lib, Listing(cfg)[i])
  {
    var ms := Listing(cfg);
    forall i | 0 <= i < |ms| ensures Writable(lib, ms[i]) {
      if ms[i].Pattern? {
        assert ms[i].text in cfg.Patterns(ms[i].tag);
      } else if ms[i].Explicit? {
        assert ms[i].name in cfg.explicit;
      }
    }
  }

  lemma WrittenAllMeans(lib: Library, ms: seq<Meaning>)
    requires forall i :: 0 <= i < |ms| ==> Writable(lib, ms[i])
    ensures AreMeanings(lib, WrittenAll(ms), ms) && AllTrimmed(WrittenAll(ms))
  {
    forall i | 0 <= i < |ms| ensures Meant(lib, WrittenAll(ms)[i]) == ms[i] && Trimmed(WrittenAll(ms)[i]) {
      WrittenMeans(lib, ms[i]);
    }
  }

  lemma MeaningsAre(lib: Library, entries: seq<string>, ms: seq<Meaning>)
    requires AreMeanings(lib, entries, ms)
    ensures Meanings(lib, entries) == ms
  {
  }

  lemma ValueSplits(cfg: Config)
    requires AllTrimmed(WrittenAll(Listing(cfg)))
    ensures Split(TrimSpace(Value(cfg))) == WrittenAll(Listing(cfg))
  {
    var entries := WrittenAll(Listing(cfg));
    SplitIgnoresOuterSpace(Value(cfg));
    EscapedRoundTrip(entries);
  }

  /** Parsing the value written for a configuration gives the configuration back. */
  lemma ConfigRoundTrip(lib: Library, cfg: Config)
    requires Denotable(lib, cfg)
    ensures Denotes(lib, Value(cfg), cfg)
  {
    ListingMeans(lib, cfg);
    ListingIsWritable(lib, cfg);
    WrittenAllMeans(lib, Listing(cfg));
    ValueSplits(cfg);
    MeaningsAre(lib, WrittenAll(Listing(cfg)), Listing(cfg));
  }

  lemma {:induction false} TextsFrom(ms: seq<Meaning>, tag: Tag, text: string)
    requires text in Texts(ms, tag)
    ensures Pattern(tag, text) in ms
    decreases |ms|
  {
    var front := ms[..|ms| - 1];
    if text in Texts(front, tag) {
      TextsFrom(front, tag, text);
    } else {
      assert ms[|ms| - 1] == Pattern(tag, text);
    }
  }

  lemma AcceptedIsDenotable(lib: Library, entries: seq<string>, ms: seq<Meaning>, cfg: Config)
    requires AreMeanings(lib, entries, ms) && AllTrimmed(entries) && Means(ms, Parsed(cfg))
    ensures Denotable(lib, cfg)
  {
    forall i | 0 <= i < |ms| ensures Writable(lib, ms[i]) {
      MeantIsWritable(lib, entries[i]);
    }
    forall tag, text | text in cfg.Patterns(tag) ensures Writable(lib, Pattern(tag, text)) {
      TextsFrom(ms[..Scanned(ms)], tag, text);
    }
    forall name | name in cfg.explicit ensures PlainName(name) {
      assert name in Elements(cfg.explicit);
      assert Explicit(name) in ms;
    }
  }

  lemma AcceptedValueIsDenotable(lib: Library, value: string, cfg: Config)
    ensures Denotes(lib, value, cfg) ==> Denotable(lib, cfg)
  {
    if Denotes(lib, value, cfg) {
      var entries := Split(TrimSpace(value));
      SplitTrims(START, TrimSpace(value));
      AcceptedIsDenotable(lib, entries, Meanings(lib, entries), cfg);
    }
  }

  /**
    The parser yields exactly the configurations with valid trimmed patterns and
    strictly sorted plain names that watch all namespaces without naming any, or
    do not watch all and have a pattern or a name.
   */
  lemma DenotableIff(lib: Library, cfg: Config)
    ensures (exists value :: Denotes(lib, value, cfg)) <==> Denotable(lib, cfg)
  {
    if Denotable(lib, cfg) {
      ConfigRoundTrip(lib, cfg);
    } else {
      forall value ensures !Denotes(lib, value, cfg) {
        AcceptedValueIsDenotable(lib, value, cfg);
      }
    }
  }

  // ---- A star behind a pattern ----

  /** A text that is a glob without saying so. */
  predicate BareGlob(lib: Library, text: string) {
    Trimmed(text) && !HasTagPrefix(text) && HasGlobChars(text) && text != "*" && lib.valid(Glob, text)
  }

  /** A name, a glob and a star are accepted, and only the glob is watched. */
  lemma StarDropsNames(lib: Library, name: string, glob: string)
    requires PlainName(name) && BareGlob(lib, glob) && Plain([name, glob, "*"])
    ensures Denotes(lib, name + "," + glob + "," + "*", Config(true, [], [glob], [], []))
  {
    NameGlobStar(lib, name, glob);
    ThreeEntries(name, glob, "*");
    MeaningsAre(lib, [name, glob, "*"], [Explicit(name), Pattern(Glob, glob), Star]);
    StarBehindGlob(name, glob);
  }

  lemma NameGlobStar(lib: Library, name: string, glob: string)
    requires PlainName(name) && BareGlob(lib, glob)
    ensures AreMeanings(lib, [name, glob, "*"], [Explicit(name), Pattern(Glob, glob), Star])
  {
    WrittenMeans(lib, Explicit(name));
    PrefixDecides(lib, glob);
    MeantNames(lib, "*");
  }

  lemma ThreeEntries(a: string, b: string, c: string)
    requires AllTrimmed([a, b, c]) && Plain([a, b, c])
    ensures Split(TrimSpace(a + "," + b + "," + c)) == [a, b, c]
  {
    var entries := [a, b, c];
    assert entries[1..] == [b, c] && entries[1..][1..] == [c];
    assert Join(entries) == a + "," + b + "," + c by {
      assert Join([b, c]) == b + "," + Join([b, c][1..]);
    }
    SplitIgnoresOuterSpace(Join(entries));
    RoundTripIffPlain(entries);
  }

  lemma StarBehindGlob(name: string, glob: string)
    ensures Means([Explicit(name), Pattern(Glob, glob), Star], Parsed(Config(true, [], [glob], [], [])))
  {
    var ms, cfg := [Explicit(name), Pattern(Glob, glob), Star], Config(true, [], [glob], [], []);
    var m2 := ms[..2];
    assert ms[1..][0] == ms[1] && ms[1..][1..][0] == ms[2] && Scanned(ms) == 2;
    assert m2[..1] == [ms[0]] && m2[..1][..0] == [] && m2[1] == ms[1];
    forall tag ensures Texts(m2, tag) == cfg.Patterns(tag) {
      assert Texts(m2[..1], tag) == Texts([], tag) == [];
    }
  }

  lemma InstanceIsJoined()
    ensures "a,t*,*" == "a" + "," + "t*" + "," + "*"
  {
  }

  lemma InstanceFits(lib: Library)
    requires lib.valid(Glob, "t*")
    ensures PlainName("a") && BareGlob(lib, "t*") && Plain(["a", "t*", "*"])
  {
    assert "t*"[1] in "*?[";
    assert ["a", "t*", "*"][1..] == ["t*", "*"] && ["t*", "*"][1..] == ["*"];
    assert "t*"[1..] == "*" && "*"[1..] == "" && "a"[1..] == "";
  }

  /** In particular `a,t*,*` watches neither everything nor `a`. */
  lemma StarBehindPattern(lib: Library)
    requires lib.valid(Glob, "t*")
    ensures Denotes(lib, "a,t*,*", Config(true, [], ["t*"], [], []))
    ensures !Config(true, [], ["t*"], [], []).IsAll()
  {
    InstanceFits(lib);
    InstanceIsJoined();
    StarDropsNames(lib, "a", "t*");
  }
}
