/** The namespaces each manager's cache is limited to, over successive starts from one set of base options. */
module CacheOptions {
  import opened Options
  import opened StringOrder
  import opened NamespaceResolver

  /** A `map[string]cache.Config`: a reference, shared by every copy of the options that holds it. */
  class NamespaceMap {
    var names: set<string>

    constructor ()
      ensures names == {}
    {
      names := {};
    }
  }

  /** `options` is the DefaultNamespaces of the options, nil or not; the result is its value afterwards. */
  method ApplyWatchNamespaces(options: NamespaceMap?, selection: Selection) returns (r: NamespaceMap?)
    modifies options
    ensures selection.all ==> r == options
    ensures !selection.all ==> r != null && (if options == null then fresh(r) else r == options)
    ensures options != null ==>
      options.names == old(options.names) + if selection.all then {} else Elements(selection.namespaces)
    ensures !selection.all && options == null ==> r.names == Elements(selection.namespaces)
  {
    r := options;
    if selection.all {
      return;
    }
    if r == null {
      r := new NamespaceMap();
    }
    ghost var before := r.names;
    for i := 0 to |selection.namespaces|
      invariant r.names == before + Elements(selection.namespaces[..i])
      invariant options != null ==> r == options && before == old(options.names)
      invariant options == null ==> fresh(r) && before == {}
    {
      assert selection.namespaces[..i + 1] == selection.namespaces[..i] + [selection.namespaces[i]];
      r.names := r.names + {selection.namespaces[i]};
    }
    assert selection.namespaces[..|selection.namespaces|] == selection.namespaces;
  }

  /** The names of every selection up to and including number `i` that does not ask for all namespaces. */
  ghost function NamesUpTo(selections: seq<Selection>, i: nat): set<string>
    requires i < |selections|
  {
    (if i == 0 then {} else NamesUpTo(selections, i - 1))
      + (if selections[i].all then {} else Elements(selections[i].namespaces))
  }

  /** What start number `i` gets when the base options hold `base`. */
  ghost function Given(base: Option<set<string>>, selections: seq<Selection>, i: nat): Option<set<string>>
    requires i < |selections|
  {
    if base.Some? then Some(base.value + NamesUpTo(selections, i))
    else if selections[i].all then None
    else Some(Elements(selections[i].namespaces))
  }

  /**
    Successive starts: each copies the base options by value and adds its
    selection's names. `given` records the namespaces each start was given.
   */
  method StartManagers(base: NamespaceMap?, selections: seq<Selection>) returns (given: seq<Option<set<string>>>)
    modifies base
    ensures |given| == |selections|
    ensures forall i :: 0 <= i < |given| ==>
      given[i] == Given(if base == null then None else Some(old(base.names)), selections, i)
  {
    given := [];
    for i := 0 to |selections|
      invariant |given| == i
      invariant base != null ==> base.names == old(base.names) + if i == 0 then {} else NamesUpTo(selections, i - 1)
      invariant forall k :: 0 <= k < i ==>
        given[k] == Given(if base == null then None else Some(old(base.names)), selections, k)
    {
      var options := ApplyWatchNamespaces(base, selections[i]);
      given := given + [if options == null then None else Some(options.names)];
    }
  }

  /** Every start gets exactly its own selection's names, whatever came before it. */
  ghost predicate NothingLeftOver(base: Option<set<string>>) {
    forall selections: seq<Selection>, i: nat :: i < |selections| && !selections[i].all ==>
      Given(base, selections, i) == Some(Elements(selections[i].namespaces))
  }

  /** That holds exactly when the base options leave DefaultNamespaces nil, as the configure functions do. */
  lemma NothingLeftOverIffNil(base: Option<set<string>>)
    ensures NothingLeftOver(base) <==> base.None?
  {
    if base.Some? {
      var first, second := Selection(false, ["a"]), Selection(false, []);
      assert "a" in Elements(first.namespaces) && "a" !in Elements(second.namespaces);
      assert "a" in NamesUpTo([first, second], 1);
      assert Given(base, [first, second], 1) != Some(Elements(second.namespaces));
    }
  }
}
