/** WATCH_NAMESPACE: from the value to a watch configuration. */
module WatchConfig {
  import opened GoStrings
  import opened NamespaceEntries
  import opened StringOrder

  datatype Tag = Glob | Regex | Label

  /** The pattern libraries: `path.Match`, `regexp` and `labels`. */
  datatype Library = Library(
    valid: (Tag, string) -> bool,
    matchesName: (Tag, string, string) -> bool,
    matchesLabels: (string, map<string, string>) -> bool)

  datatype ParseError = EmptyPattern(tag: Tag) | InvalidPattern(tag: Tag, text: string)

  datatype Config = Config(
    all: bool, explicit: seq<string>, globs: seq<string>, regexes: seq<string>, labels: seq<string>)
  {
    predicate HasPatterns() {
      |globs| > 0 || |regexes| > 0 || |labels| > 0
    }

    predicate IsAll() {
      all && !HasPatterns() && |explicit| == 0
    }

    function Patterns(tag: Tag): seq<string> {
      match tag
      case Glob => globs
      case Regex => regexes
      case Label => labels
    }

    function Add(tag: Tag, text: string): Config {
      match tag
      case Glob => this.(globs := globs + [text])
      case Regex => this.(regexes := regexes + [text])
      case Label => this.(labels := labels + [text])
    }
  }

  datatype Result = Parsed(cfg: Config) | Failed(error: ParseError)

  // ---- What one entry means ----

  datatype Meaning =
    | Empty
    | Star
    | Explicit(name: string)
    | Pattern(tag: Tag, text: string)
    | Bad(error: ParseError)

  /** strings.ToLower, as far as the prefixes below can see it. */
  function Lower(c: char): char {
    if 'A' <= c <= 'Z' then c - 'A' + 'a' else c
  }

  predicate HasPrefix(entry: string, prefix: string) {
    |prefix| <= |entry| && forall i :: 0 <= i < |prefix| ==> Lower(entry[i]) == prefix[i]
  }

  predicate HasGlobChars(entry: string) {
    exists i :: 0 <= i < |entry| && entry[i] in "*?["
  }

  function Checked(lib: Library, tag: Tag, text: string): Meaning {
    if text == "" then Bad(EmptyPattern(tag))
    else if !lib.valid(tag, text) then Bad(InvalidPattern(tag, text))
    else Pattern(tag, text)
  }

  /** A label selector may stand in braces, which protect its commas from the splitter. */
  function Unbraced(raw: string): string {
    if |raw| >= 2 && raw[0] == '{' && raw[|raw| - 1] == '}' then TrimSpace(raw[1..|raw| - 1]) else raw
  }

  function Meant(lib: Library, entry: string): Meaning {
    if entry == "" then Empty
    else if entry == "*" then Star
    else if HasPrefix(entry, "glob:") then Checked(lib, Glob, TrimSpace(entry[5..]))
    else if HasPrefix(entry, "regex:") || HasPrefix(entry, "re:") then
      Checked(lib, Regex, TrimSpace(entry[if HasPrefix(entry, "re:") then 3 else 6..]))
    else if HasPrefix(entry, "label:") then Checked(lib, Label, Unbraced(TrimSpace(entry[6..])))
    else if HasGlobChars(entry) then Checked(lib, Glob, entry)
    else Explicit(entry)
  }

  // ---- What a list of entries means ----

  function Meanings(lib: Library, entries: seq<string>): (ms: seq<Meaning>)
    ensures |ms| == |entries| && forall i :: 0 <= i < |ms| ==> ms[i] == Meant(lib, entries[i])
  {
    seq(|entries|, i requires 0 <= i < |entries| => Meant(lib, entries[i]))
  }

  ghost predicate AreMeanings(lib: Library, entries: seq<string>, ms: seq<Meaning>) {
    |ms| == |entries| && forall i {:trigger Meant(lib, entries[i])} :: 0 <= i < |ms| ==> ms[i] == Meant(lib, entries[i])
  }

  /** The patterns of one kind, in the order written. */
  function Texts(ms: seq<Meaning>, tag: Tag): seq<string> {
    if ms == [] then []
    else
      var last := ms[|ms| - 1];
      Texts(ms[..|ms| - 1], tag) + if last.Pattern? && last.tag == tag then [last.text] else []
  }

  function Names(ms: seq<Meaning>): set<string> {
    set m | m in ms && m.Explicit? :: m.name
  }

  /** The number of entries before the first bare star, which ends the scan; without one, all of them. */
  function Scanned(ms: seq<Meaning>): (n: nat)
    ensures n <= |ms|
    ensures forall k :: 0 <= k < n ==> !ms[k].Star?
    ensures n < |ms| ==> ms[n].Star?
  {
    if ms == [] || ms[0].Star? then 0 else 1 + Scanned(ms[1..])
  }

  predicate NoneBad(ms: seq<Meaning>) {
    forall k :: 0 <= k < |ms| ==> !ms[k].Bad?
  }

  /** No entry scanned is bad, and the patterns gathered are theirs. */
  ghost predicate Gathers(ms: seq<Meaning>, cfg: Config) {
    NoneBad(ms) && forall tag :: cfg.Patterns(tag) == Texts(ms, tag)
  }

  /** Entry `i` is the first bad one. */
  ghost predicate FailsAt(ms: seq<Meaning>, i: nat, error: ParseError)
    requires i < |ms|
  {
    ms[i] == Bad(error) && forall k :: 0 <= k < i ==> !ms[k].Bad?
  }

  /** What parsing the entries must give. */
  ghost predicate Means(ms: seq<Meaning>, r: Result) {
    var n := Scanned(ms);
    match r
    case Failed(error) => exists i :: 0 <= i < n && FailsAt(ms, i, error)
    case Parsed(cfg) =>
      && Gathers(ms[..n], cfg)
      && cfg.explicit == (if n < |ms| then [] else Sorted(Names(ms)))
      && cfg.all == (n < |ms| || (cfg.explicit == [] && !cfg.HasPatterns()))
  }

  /** The body of the parsing loop, up to what it does with the entry. */
  method ParseEntry(lib: Library, entry: string) returns (m: Meaning)
    ensures m == Meant(lib, entry)
  {
    if entry == "" { return Empty; }
    if entry == "*" { return Star; }
    if HasPrefix(entry, "glob:") {
      var pattern := TrimSpace(entry[|"glob:"|..]);
      if pattern == "" { return Bad(EmptyPattern(Glob)); }
      if !lib.valid(Glob, pattern) { return Bad(InvalidPattern(Glob, pattern)); }
      return Pattern(Glob, pattern);
    }
    if HasPrefix(entry, "regex:") || HasPrefix(entry, "re:") {
      var prefixLen := |"regex:"|;
      if HasPrefix(entry, "re:") { prefixLen := |"re:"|; }
      var pattern := TrimSpace(entry[prefixLen..]);
      if pattern == "" { return Bad(EmptyPattern(Regex)); }
      if !lib.valid(Regex, pattern) { return Bad(InvalidPattern(Regex, pattern)); }
      return Pattern(Regex, pattern);
    }
    if HasPrefix(entry, "label:") {
      var selectorRaw := TrimSpace(entry[|"label:"|..]);
      if selectorRaw == "" { return Bad(EmptyPattern(Label)); }
      if |selectorRaw| >= 2 && selectorRaw[0] == '{' && selectorRaw[|selectorRaw| - 1] == '}' {
        selectorRaw := TrimSpace(selectorRaw[1..|selectorRaw| - 1]);
      }
      if selectorRaw == "" { return Bad(EmptyPattern(Label)); }
      if !lib.valid(Label, selectorRaw) { return Bad(InvalidPattern(Label, selectorRaw)); }
      return Pattern(Label, selectorRaw);
    }
    if HasGlobChars(entry) {
      if !lib.valid(Glob, entry) { return Bad(InvalidPattern(Glob, entry)); }
      return Pattern(Glob, entry);
    }
    m := Explicit(entry);
  }

  method ParseWatchNamespaceConfig(lib: Library, value: string) returns (r: Result)
    ensures Means(Meanings(lib, Split(TrimSpace(value))), r)
  {
    var trimmed := TrimSpace(value);
    if trimmed == "" {
      NoElements(Sorted({}));
      assert Names([]) == {};
      return Parsed(Config(true, [], [], [], []));
    }
    var entries := SplitNamespaceEntries(trimmed);
    r := ParseEntries(lib, entries, Meanings(lib, entries));
  }

  method ParseEntryAt(lib: Library, entries: seq<string>, i: nat, ghost ms: seq<Meaning>) returns (m: Meaning)
    requires i < |entries| && AreMeanings(lib, entries, ms)
    ensures m == ms[i]
  {
    m := ParseEntry(lib, entries[i]);
  }

  method ParseEntries(lib: Library, entries: seq<string>, ghost ms: seq<Meaning>) returns (r: Result)
    requires AreMeanings(lib, entries, ms)
    ensures Means(ms, r)
  {
    var cfg := Config(false, [], [], [], []);
    var explicit := {};
    for i := 0 to |entries|
      invariant Progress(ms, i, cfg, explicit)
    {
      var meaning := ParseEntryAt(lib, entries, i, ms);
      ProgressStep(ms, i, cfg, explicit);
      match meaning {
        case Empty => continue;
        case Star =>
          MeansStar(ms, i, cfg);
          return Parsed(cfg.(all := true));
        case Bad(error) =>
          MeansFailed(ms, i, cfg);
          return Failed(error);
        case Pattern(tag, text) => cfg := cfg.Add(tag, text);
        case Explicit(name) => explicit := explicit + {name};
      }
    }
    MeansDone(ms, cfg);
    var names := SortNames(explicit);
    cfg := cfg.(explicit := names);
    if |cfg.explicit| == 0 && !cfg.HasPatterns() {
      cfg := cfg.(all := true);
    }
    r := Parsed(cfg);
  }

  /** The loop's variables after `i` entries, none of them a bare star. */
  ghost predicate Progress(ms: seq<Meaning>, i: nat, cfg: Config, explicit: set<string>) {
    && i <= Scanned(ms) && Gathers(ms[..i], cfg) && !cfg.all && cfg.explicit == []
    && explicit == Names(ms[..i])
  }

  lemma ProgressStep(ms: seq<Meaning>, i: nat, cfg: Config, explicit: set<string>)
    requires i < |ms| && Progress(ms, i, cfg, explicit)
    ensures ms[i].Pattern? ==> Progress(ms, i + 1, cfg.Add(ms[i].tag, ms[i].text), explicit)
    ensures ms[i].Explicit? ==> Progress(ms, i + 1, cfg, explicit + {ms[i].name})
    ensures ms[i].Empty? ==> Progress(ms, i + 1, cfg, explicit)
  {
    GatherStep(ms, i, cfg);
  }

  lemma MeansStar(ms: seq<Meaning>, i: nat, cfg: Config)
    requires i < |ms| && i <= Scanned(ms) && ms[i].Star? && Gathers(ms[..i], cfg) && cfg.explicit == []
    ensures Means(ms, Parsed(cfg.(all := true)))
  {
    assert forall tag :: cfg.(all := true).Patterns(tag) == cfg.Patterns(tag);
  }

  lemma MeansFailed(ms: seq<Meaning>, i: nat, cfg: Config)
    requires i < |ms| && i <= Scanned(ms) && ms[i].Bad? && Gathers(ms[..i], cfg)
    ensures Means(ms, Failed(ms[i].error))
  {
    assert forall k :: 0 <= k < i ==> ms[..i][k] == ms[k];
    assert FailsAt(ms, i, ms[i].error);
  }

  lemma MeansDone(ms: seq<Meaning>, cfg: Config)
    requires Scanned(ms) == |ms| && Gathers(ms[..|ms|], cfg) && !cfg.all
    ensures ms[..|ms|] == ms
    ensures var explicit := Sorted(Names(ms));
      Means(ms, Parsed(cfg.(explicit := explicit, all := explicit == [] && !cfg.HasPatterns())))
  {
    assert ms[..|ms|] == ms;
    var explicit := Sorted(Names(ms));
    var done := cfg.(explicit := explicit, all := explicit == [] && !cfg.HasPatterns());
    assert forall tag :: done.Patterns(tag) == cfg.Patterns(tag);
  }

  lemma GatherStep(ms: seq<Meaning>, i: nat, cfg: Config)
    requires i < |ms| && Gathers(ms[..i], cfg)
    ensures ms[i].Pattern? ==> Gathers(ms[..i + 1], cfg.Add(ms[i].tag, ms[i].text))
    ensures ms[i].Explicit? || ms[i].Empty? ==> Gathers(ms[..i + 1], cfg)
    ensures Names(ms[..i + 1]) == Names(ms[..i]) + if ms[i].Explicit? then {ms[i].name} else {}
  {
    var scanned, m := ms[..i + 1], ms[i];
    assert scanned[..i] == ms[..i] && scanned == ms[..i] + [m] && scanned[|scanned| - 1] == m;
    if m.Pattern? {
      forall tag ensures cfg.Add(m.tag, m.text).Patterns(tag) == Texts(scanned, tag) {
        assert Texts(scanned, tag) == cfg.Patterns(tag) + if m.tag == tag then [m.text] else [];
      }
    }
  }

  // ---- What every accepted value gives ----

  /** The outcome is determined: the same configuration, or the error of the first bad entry. */
  lemma MeansUnique(ms: seq<Meaning>, r: Result, r': Result)
    requires Means(ms, r) && Means(ms, r')
    ensures r == r'
  {
    var n := Scanned(ms);
    assert forall k :: 0 <= k < n ==> ms[..n][k] == ms[k];
    if r.Parsed? && r'.Parsed? {
      assert forall tag :: r.cfg.Patterns(tag) == r'.cfg.Patterns(tag);
      assert r.cfg.Patterns(Glob) == r'.cfg.Patterns(Glob) && r.cfg.Patterns(Regex) == r'.cfg.Patterns(Regex);
      assert r.cfg.Patterns(Label) == r'.cfg.Patterns(Label);
    }
  }

  lemma {:induction false} TextsNone(ms: seq<Meaning>, tag: Tag)
    ensures Texts(ms, tag) == [] <==> forall k :: 0 <= k < |ms| && ms[k].Pattern? ==> ms[k].tag != tag
    decreases |ms|
  {
    if ms != [] {
      var front := ms[..|ms| - 1];
      TextsNone(front, tag);
      assert forall k :: 0 <= k < |front| ==> front[k] == ms[k];
    }
  }

  lemma HasPatternsIff(ms: seq<Meaning>, cfg: Config)
    requires Gathers(ms, cfg)
    ensures cfg.HasPatterns() <==> exists k :: 0 <= k < |ms| && ms[k].Pattern?
  {
    forall tag ensures cfg.Patterns(tag) == [] <==> forall k :: 0 <= k < |ms| && ms[k].Pattern? ==> ms[k].tag != tag {
      TextsNone(ms, tag);
    }
    assert cfg.HasPatterns() <==> cfg.Patterns(Glob) != [] || cfg.Patterns(Regex) != [] || cfg.Patterns(Label) != [];
  }

  /**
    The operator watches every namespace exactly when there is no entry, or a
    bare star comes before every pattern. A star behind a pattern does not: it
    drops the explicit names and leaves the patterns written before it.
   */
  lemma AllIffStarFirst(ms: seq<Meaning>, cfg: Config)
    requires Means(ms, Parsed(cfg)) && Empty !in ms
    ensures var n := Scanned(ms);
      && (cfg.IsAll() <==> ms == [] || (n < |ms| && forall k :: 0 <= k < n ==> !ms[k].Pattern?))
      && (n < |ms| ==> cfg.explicit == [])
    ensures !cfg.IsAll() ==> cfg.HasPatterns() || cfg.explicit != []
    ensures StrictlySorted(cfg.explicit)
  {
    var n := Scanned(ms);
    HasPatternsIff(ms[..n], cfg);
    assert forall k :: 0 <= k < n ==> ms[..n][k] == ms[k];
    if n == |ms| {
      AllWithoutStar(ms, cfg);
    }
  }

  lemma AllWithoutStar(ms: seq<Meaning>, cfg: Config)
    requires NoneBad(ms) && Scanned(ms) == |ms| && Empty !in ms
    requires cfg.explicit == Sorted(Names(ms)) && (cfg.HasPatterns() <==> exists k :: 0 <= k < |ms| && ms[k].Pattern?)
    ensures cfg.explicit == [] && !cfg.HasPatterns() <==> ms == []
  {
    NoElements(cfg.explicit);
    NamesNone(ms);
    assert ms != [] ==> ms[0] in ms;
  }

  lemma NamesNone(ms: seq<Meaning>)
    ensures Names(ms) == {} <==> forall k :: 0 <= k < |ms| ==> !ms[k].Explicit?
  {
    assert forall k :: 0 <= k < |ms| && ms[k].Explicit? ==> ms[k].name in Names(ms);
  }

  /** The same for every value the parser accepts. */
  lemma AcceptedValue(lib: Library, value: string, cfg: Config)
    requires Means(Meanings(lib, Split(TrimSpace(value))), Parsed(cfg))
    ensures var ms := Meanings(lib, Split(TrimSpace(value)));
      var n := Scanned(ms);
      && (cfg.IsAll() <==> ms == [] || (n < |ms| && forall k :: 0 <= k < n ==> !ms[k].Pattern?))
      && (n < |ms| ==> cfg.explicit == [])
      && (!cfg.IsAll() ==> cfg.HasPatterns() || cfg.explicit != [])
      && StrictlySorted(cfg.explicit)
  {
    var ms := Meanings(lib, Split(TrimSpace(value)));
    SplitTrims(START, TrimSpace(value));
    NoneEmpty(lib, Split(TrimSpace(value)), ms);
    AllIffStarFirst(ms, cfg);
  }

  lemma NoneEmpty(lib: Library, entries: seq<string>, ms: seq<Meaning>)
    requires AreMeanings(lib, entries, ms) && AllTrimmed(entries)
    ensures Empty !in ms && forall i :: 0 <= i < |ms| ==> (ms[i].Star? <==> entries[i] == "*")
  {
    forall i | 0 <= i < |ms| ensures !ms[i].Empty? && (ms[i].Star? <==> entries[i] == "*") {
      MeantNames(lib, entries[i]);
    }
  }

  lemma MeantNames(lib: Library, entry: string)
    ensures Meant(lib, entry).Empty? <==> entry == ""
    ensures Meant(lib, entry).Star? <==> entry == "*"
  {
  }
}
