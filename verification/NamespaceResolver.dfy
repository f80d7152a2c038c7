/** From a watch configuration and the namespaces of the cluster to the namespaces to watch. */
module NamespaceResolver {
  import opened Options
  import opened StringOrder
  import opened WatchConfig

  datatype Namespace = Namespace(name: string, labels: map<string, string>)

  datatype Selection = Selection(all: bool, namespaces: seq<string>)

  /** Some pattern of the configuration matches the namespace. */
  predicate Matches(lib: Library, cfg: Config, ns: Namespace) {
    || (exists i :: 0 <= i < |cfg.globs| && lib.matchesName(Glob, cfg.globs[i], ns.name))
    || (exists i :: 0 <= i < |cfg.regexes| && lib.matchesName(Regex, cfg.regexes[i], ns.name))
    || (exists i :: 0 <= i < |cfg.labels| && lib.matchesLabels(cfg.labels[i], ns.labels))
  }

  method MatchNamespace(lib: Library, cfg: Config, ns: Namespace) returns (matched: bool)
    ensures matched == Matches(lib, cfg, ns)
  {
    for i := 0 to |cfg.globs|
      invariant forall k :: 0 <= k < i ==> !lib.matchesName(Glob, cfg.globs[k], ns.name)
    {
      if lib.matchesName(Glob, cfg.globs[i], ns.name) { return true; }
    }
    for i := 0 to |cfg.regexes|
      invariant forall k :: 0 <= k < i ==> !lib.matchesName(Regex, cfg.regexes[k], ns.name)
    {
      if lib.matchesName(Regex, cfg.regexes[i], ns.name) { return true; }
    }
    for i := 0 to |cfg.labels|
      invariant forall k :: 0 <= k < i ==> !lib.matchesLabels(cfg.labels[k], ns.labels)
    {
      if lib.matchesLabels(cfg.labels[i], ns.labels) { return true; }
    }
    return false;
  }

  /** The names to watch in a cluster with these namespaces. */
  ghost function WatchedNames(lib: Library, cfg: Config, cluster: set<Namespace>): set<string> {
    Elements(cfg.explicit) + set ns | ns in cluster && Matches(lib, cfg, ns) :: ns.name
  }

  ghost function Resolution(lib: Library, cfg: Config, cluster: set<Namespace>): Selection {
    if cfg.IsAll() then Selection(true, []) else Selection(false, Sorted(WatchedNames(lib, cfg, cluster)))
  }

  function Items(listed: seq<Namespace>): set<Namespace> {
    set ns | ns in listed
  }

  lemma ItemsStep(listed: seq<Namespace>, i: nat)
    requires i < |listed|
    ensures Items(listed[..i + 1]) == Items(listed[..i]) + {listed[i]}
  {
    assert listed[..i + 1] == listed[..i] + [listed[i]];
  }

  /** `listed` is the API's answer, in whatever order it lists, or None when the call fails. */
  method ResolveWatchNamespaces(lib: Library, cfg: Config, listed: Option<seq<Namespace>>) returns (r: Option<Selection>)
    ensures r.None? <==> !cfg.IsAll() && cfg.HasPatterns() && listed.None?
    ensures r.Some? ==> r.value == Resolution(lib, cfg, if listed.Some? then Items(listed.value) else {})
    ensures r.Some? ==> StrictlySorted(r.value.namespaces)
  {
    if cfg.IsAll() {
      return Some(Selection(true, []));
    }
    var names := set name | name in cfg.explicit;
    if cfg.HasPatterns() {
      if listed.None? {
        return None;
      }
      var items := listed.value;
      for i := 0 to |items|
        invariant names == WatchedNames(lib, cfg, Items(items[..i]))
      {
        ItemsStep(items, i);
        var matched := MatchNamespace(lib, cfg, items[i]);
        if matched {
          names := names + {items[i].name};
        }
      }
      assert items[..|items|] == items;
    }
    assert names == WatchedNames(lib, cfg, if listed.Some? then Items(listed.value) else {});
    var resolved := SortNames(names);
    r := Some(Selection(false, resolved));
  }

  /** The answer does not depend on the order in which the API lists the namespaces. */
  lemma ResolutionOrderFree(lib: Library, cfg: Config, listed: seq<Namespace>, listed': seq<Namespace>)
    requires multiset(listed) == multiset(listed')
    ensures Resolution(lib, cfg, Items(listed)) == Resolution(lib, cfg, Items(listed'))
  {
    assert forall ns :: ns in listed <==> ns in multiset(listed);
    assert forall ns :: ns in listed' <==> ns in multiset(listed');
    assert Items(listed) == Items(listed');
  }

  method WatchNamespaceSelectionEqual(current: Selection, next: Selection) returns (equal: bool)
    ensures equal <==> current == next
  {
    if current.all != next.all { return false; }
    if |current.namespaces| != |next.namespaces| { return false; }
    for i := 0 to |current.namespaces|
      invariant current.namespaces[..i] == next.namespaces[..i]
    {
      if next.namespaces[i] != current.namespaces[i] { return false; }
    }
    return true;
  }

  /** Comparing the two lists element by element decides whether the same namespaces are watched. */
  lemma ListEqualityIsSetEquality(lib: Library, cfg: Config, before: set<Namespace>, after: set<Namespace>)
    ensures Resolution(lib, cfg, before) == Resolution(lib, cfg, after) <==>
      cfg.IsAll() || WatchedNames(lib, cfg, before) == WatchedNames(lib, cfg, after)
  {
    var a, b := WatchedNames(lib, cfg, before), WatchedNames(lib, cfg, after);
    assert Elements(Sorted(a)) == a && Elements(Sorted(b)) == b;
  }
}
