/** The in-place walk of bundle.go: it blanks values and reports each one it blanked, once. */
module EnvRedacting {
  import opened Options
  import opened JsonTree
  import opened JsonHeap
  import opened EnvRedaction

  /** "<owner>: env <name> had a literal value, withheld". */
  datatype Note = Note(owner: string, name: string)

  ghost predicate NoDuplicates(paths: seq<Path>) {
    forall i, k :: 0 <= i < k < |paths| ==> paths[i] != paths[k]
  }

  /** Note number i is about the entry at path number i. */
  ghost predicate NotesMatch(j: Json, owner: string, notes: seq<Note>, paths: seq<Path>) {
    && |notes| == |paths|
    && forall i :: 0 <= i < |paths| ==> At(j, paths[i]).Some? && notes[i] == Note(owner, NameOf(At(j, paths[i]).value))
  }

  /** One note for each exposed entry of `j`, and no other. */
  ghost predicate Accounts(j: Json, owner: string, notes: seq<Note>, paths: seq<Path>) {
    && NotesMatch(j, owner, notes, paths) && NoDuplicates(paths)
    && forall p :: p in paths <==> Exposed(j, p)
  }

  /** The same for the child reached by `step`. */
  ghost predicate ChildAccounts(step: Step, child: Json, owner: string, notes: seq<Note>, paths: seq<Path>) {
    && NotesMatch(child, owner, notes, paths) && NoDuplicates(paths)
    && forall p :: p in paths <==> ExposedUnder(step, child, p)
  }

  /** The same for the entries of `j` that start with a step in `done`. */
  ghost predicate PartAccounts(j: Json, done: set<Step>, owner: string, notes: seq<Note>, paths: seq<Path>) {
    && NotesMatch(j, owner, notes, paths) && NoDuplicates(paths)
    && forall p :: p in paths <==> Exposed(j, p) && p[0] in done
  }

  ghost function Under(step: Step, paths: seq<Path>): seq<Path> {
    seq(|paths|, i requires 0 <= i < |paths| => [step] + paths[i])
  }

  lemma PathUnder(step: Step, paths: seq<Path>, p: Path)
    ensures p in Under(step, paths) <==> p != [] && p[0] == step && p[1..] in paths
  {
    if p != [] && p[0] == step && p[1..] in paths {
      var i :| 0 <= i < |paths| && paths[i] == p[1..];
      assert Under(step, paths)[i] == p;
    }
  }

  lemma NotesUnder(j: Json, step: Step, owner: string, notes: seq<Note>, paths: seq<Path>)
    requires Child(j, step).Some? && NotesMatch(Child(j, step).value, owner, notes, paths) && NoDuplicates(paths)
    ensures NotesMatch(j, owner, notes, Under(step, paths)) && NoDuplicates(Under(step, paths))
  {
    var u := Under(step, paths);
    forall i | 0 <= i < |paths| ensures At(j, u[i]) == At(Child(j, step).value, paths[i]) {
      assert u[i][1..] == paths[i];
    }
    forall i, k | 0 <= i < k < |u| ensures u[i] != u[k] {
      assert u[i][1..] == paths[i] && u[k][1..] == paths[k];
    }
  }

  /** Adding a child's notes to those of the children before it. */
  lemma AccountsStep(j: Json, done: set<Step>, step: Step, owner: string,
                     notes: seq<Note>, paths: seq<Path>, notes': seq<Note>, paths': seq<Path>)
    requires PartAccounts(j, done, owner, notes, paths) && step !in done
    requires Child(j, step).Some? && ChildAccounts(step, Child(j, step).value, owner, notes', paths')
    ensures PartAccounts(j, done + {step}, owner, notes + notes', paths + Under(step, paths'))
  {
    NotesUnder(j, step, owner, notes', paths');
    var all := paths + Under(step, paths');
    forall p ensures p in all <==> Exposed(j, p) && p[0] in done + {step} {
      PathUnder(step, paths', p);
    }
    forall p | p in paths ensures p !in Under(step, paths') {
      PathUnder(step, paths', p);
    }
    NoDuplicatesAppend(paths, Under(step, paths'));
    NotesAppend(j, owner, notes, paths, notes', Under(step, paths'));
  }

  lemma NoDuplicatesAppend(a: seq<Path>, b: seq<Path>)
    requires NoDuplicates(a) && NoDuplicates(b) && forall p :: p in a ==> p !in b
    ensures NoDuplicates(a + b)
  {
    var all := a + b;
    forall i, k | 0 <= i < k < |all| ensures all[i] != all[k] {
      if i < |a| <= k {
        assert all[i] in a && all[k] in b;
      }
    }
  }

  lemma NotesAppend(j: Json, owner: string, notes: seq<Note>, paths: seq<Path>, notes': seq<Note>, paths': seq<Path>)
    requires NotesMatch(j, owner, notes, paths) && NotesMatch(j, owner, notes', paths')
    ensures NotesMatch(j, owner, notes + notes', paths + paths')
  {
  }

  lemma AccountsAll(j: Json, done: set<Step>, owner: string, notes: seq<Note>, paths: seq<Path>)
    requires PartAccounts(j, done, owner, notes, paths) && forall step :: Child(j, step).Some? ==> step in done
    ensures Accounts(j, owner, notes, paths)
  {
  }

  // ---- The walk ----

  method RedactEnvIn(node: Value, owner: string, ghost sh: Shape)
    returns (notes: seq<Note>, ghost paths: seq<Path>, ghost sh': Shape)
    requires Tree(sh) && Holds(node, sh)
    modifies sh.Foot()
    ensures Tree(sh') && Holds(node, sh') && sh'.Foot() <= sh.Foot()
    ensures sh'.Doc() == Redacted(sh.Doc())
    ensures Accounts(sh.Doc(), owner, notes, paths)
    decreases sh, 3
  {
    notes, paths, sh' := [], [], sh;
    match node {
      case VObj(o) => notes, paths, sh' := RedactFields(o, owner, sh);
      case VArr(a) => notes, paths, sh' := RedactItems(a, owner, sh);
      case _ => AccountsAll(sh.Doc(), {}, owner, notes, paths);
    }
  }

  /** `cur` is `sh` with every field outside `pending` redacted. */
  ghost predicate FieldsRedacted(sh: Shape, cur: Shape, pending: set<Name>) {
    && sh.ObjShape? && cur.ObjShape? && cur.fields.Keys == sh.fields.Keys
    && forall k :: k in sh.fields ==>
         if k in pending then cur.fields[k] == sh.fields[k]
         else cur.fields[k].Doc() == RedactedAt(Key(k), sh.fields[k].Doc())
  }

  method RedactFields(o: Object, owner: string, ghost sh: Shape)
    returns (notes: seq<Note>, ghost paths: seq<Path>, ghost sh': Shape)
    requires Tree(sh) && sh.ObjShape? && Holds(VObj(o), sh)
    modifies sh.Foot()
    ensures Tree(sh') && Holds(VObj(o), sh') && sh'.Foot() <= sh.Foot()
    ensures sh'.Doc() == Redacted(sh.Doc())
    ensures Accounts(sh.Doc(), owner, notes, paths)
    decreases sh, 2
  {
    notes, paths, sh' := [], [], sh;
    var pending := o.fields.Keys;
    while pending != {}
      invariant Tree(sh') && sh'.ObjShape? && Holds(VObj(o), sh') && sh'.Foot() <= sh.Foot()
      invariant pending <= sh.fields.Keys && FieldsState(sh, sh', pending, owner, notes, paths)
      decreases pending
    {
      var k :| k in pending;
      var more, morePaths, next := RedactField(o, k, owner, sh, sh', pending);
      FieldsStep(sh, sh', next, pending, k, owner, notes, paths, more, morePaths);
      notes, paths, sh' := notes + more, paths + Under(Key(k), morePaths), next;
      pending := pending - {k};
    }
    FieldsFinish(sh, sh', owner, notes, paths);
  }

  ghost predicate FieldsState(sh: Shape, cur: Shape, pending: set<Name>, owner: string, notes: seq<Note>, paths: seq<Path>) {
    && FieldsRedacted(sh, cur, pending)
    && PartAccounts(sh.Doc(), set k | k in sh.fields && k !in pending :: Key(k), owner, notes, paths)
  }

  lemma FieldsStep(sh: Shape, cur: Shape, next: Shape, pending: set<Name>, k: Name, owner: string,
                   notes: seq<Note>, paths: seq<Path>, more: seq<Note>, morePaths: seq<Path>)
    requires FieldsState(sh, cur, pending, owner, notes, paths) && k in pending && k in sh.fields
    requires FieldsRedacted(sh, next, pending - {k}) && ChildAccounts(Key(k), sh.fields[k].Doc(), owner, more, morePaths)
    ensures FieldsState(sh, next, pending - {k}, owner, notes + more, paths + Under(Key(k), morePaths))
  {
    var done := set l | l in sh.fields && l !in pending :: Key(l);
    AccountsStep(sh.Doc(), done, Key(k), owner, notes, paths, more, morePaths);
    assert done + {Key(k)} == set l | l in sh.fields && l !in pending - {k} :: Key(l);
  }

  lemma FieldsFinish(sh: Shape, cur: Shape, owner: string, notes: seq<Note>, paths: seq<Path>)
    requires FieldsState(sh, cur, {}, owner, notes, paths)
    ensures cur.Doc() == Redacted(sh.Doc()) && Accounts(sh.Doc(), owner, notes, paths)
  {
    AccountsAll(sh.Doc(), set k | k in sh.fields && k !in {} :: Key(k), owner, notes, paths);
    DocOfFields(cur, Redacted(sh.Doc()).fields);
  }

  method RedactField(o: Object, k: Name, owner: string, ghost sh: Shape, ghost cur: Shape, ghost pending: set<Name>)
    returns (notes: seq<Note>, ghost paths: seq<Path>, ghost next: Shape)
    requires Tree(cur) && cur.ObjShape? && Holds(VObj(o), cur)
    requires FieldsRedacted(sh, cur, pending) && k in pending && k in sh.fields
    modifies cur.Foot()
    ensures Tree(next) && next.ObjShape? && Holds(VObj(o), next) && next.Foot() <= cur.Foot()
    ensures FieldsRedacted(sh, next, pending - {k})
    ensures ChildAccounts(Key(k), sh.fields[k].Doc(), owner, notes, paths)
    decreases sh, 1
  {
    HoldsField(o, cur, k);
    ghost var kid;
    notes, paths, kid := RedactChild(o.fields[k], Key(k), owner, cur.fields[k], sh);
    TreeWithField(cur, k, kid);
    HoldsWithField(o, cur, k, kid);
    FieldRedacted(sh, cur, pending, k, kid);
    next := cur.WithField(k, kid);
  }

  lemma FieldRedacted(sh: Shape, cur: Shape, pending: set<Name>, k: Name, kid: Shape)
    requires FieldsRedacted(sh, cur, pending) && k in pending && k in sh.fields
    requires kid.Doc() == RedactedAt(Key(k), sh.fields[k].Doc())
    ensures FieldsRedacted(sh, cur.WithField(k, kid), pending - {k})
  {
  }

  /** An `env` list is redacted entry by entry and not walked into; anything else is walked. */
  method RedactChild(v: Value, step: Step, owner: string, ghost sh: Shape, ghost parent: Shape)
    returns (notes: seq<Note>, ghost paths: seq<Path>, ghost sh': Shape)
    requires Tree(sh) && Holds(v, sh) && (parent.ObjShape? || parent.ArrShape?)
    requires (step.Key? && parent.ObjShape? && step.name in parent.fields && sh == parent.fields[step.name])
          || (step.Index? && parent.ArrShape? && step.i < |parent.items| && sh == parent.items[step.i])
    modifies sh.Foot()
    ensures Tree(sh') && Holds(v, sh') && sh'.Foot() <= sh.Foot()
    ensures sh'.Doc() == RedactedAt(step, sh.Doc())
    ensures ChildAccounts(step, sh.Doc(), owner, notes, paths)
    decreases parent, 0
  {
    if step == Key(ENV) && v.VArr? {
      notes, paths, sh' := RedactEnvList(v.a, owner, sh);
    } else {
      notes, paths, sh' := RedactEnvIn(v, owner, sh);
    }
  }

  method RedactItems(a: array<Value>, owner: string, ghost sh: Shape)
    returns (notes: seq<Note>, ghost paths: seq<Path>, ghost sh': Shape)
    requires Tree(sh) && sh.ArrShape? && Holds(VArr(a), sh)
    modifies sh.Foot()
    ensures Tree(sh') && Holds(VArr(a), sh') && sh'.Foot() <= sh.Foot()
    ensures sh'.Doc() == Redacted(sh.Doc())
    ensures Accounts(sh.Doc(), owner, notes, paths)
    decreases sh, 2
  {
    notes, paths, sh' := [], [], sh;
    ghost var done: set<Step> := {};
    for i := 0 to a.Length
      invariant Tree(sh') && sh'.ArrShape? && Holds(VArr(a), sh') && sh'.Foot() <= sh.Foot()
      invariant |sh'.items| == |sh.items|
      invariant forall k :: i <= k < |sh.items| ==> sh'.items[k] == sh.items[k]
      invariant forall k :: 0 <= k < i ==> sh'.items[k].Doc() == Redacted(sh.items[k].Doc())
      invariant forall k :: 0 <= k < |sh.items| ==> (Index(k) in done <==> k < i)
      invariant PartAccounts(sh.Doc(), done, owner, notes, paths)
    {
      var more, morePaths, next := RedactItem(a, i, owner, sh, sh');
      AccountsStep(sh.Doc(), done, Index(i), owner, notes, paths, more, morePaths);
      notes, paths, sh' := notes + more, paths + Under(Index(i), morePaths), next;
      done := done + {Index(i)};
    }
    AccountsAll(sh.Doc(), done, owner, notes, paths);
    DocOfItems(sh', Redacted(sh.Doc()).items);
  }

  method RedactItem(a: array<Value>, i: nat, owner: string, ghost sh: Shape, ghost cur: Shape)
    returns (notes: seq<Note>, ghost paths: seq<Path>, ghost next: Shape)
    requires Tree(cur) && cur.ArrShape? && Holds(VArr(a), cur)
    requires sh.ArrShape? && i < |sh.items| == |cur.items| && cur.items[i] == sh.items[i]
    modifies cur.Foot()
    ensures Tree(next) && next.ArrShape? && Holds(VArr(a), next) && next.Foot() <= cur.Foot()
    ensures |next.items| == |cur.items| && next.items == cur.items[i := next.items[i]]
    ensures next.items[i].Doc() == Redacted(sh.items[i].Doc())
    ensures ChildAccounts(Index(i), sh.items[i].Doc(), owner, notes, paths)
    decreases sh, 1
  {
    assert Holds(a[i], cur.items[i]);
    ghost var kid;
    notes, paths, kid := RedactChild(a[i], Index(i), owner, cur.items[i], sh);
    TreeWithItem(cur, i, kid);
    HoldsWithItem(a, cur, i, kid);
    next := cur.WithItem(i, kid);
  }

  /** The entries of an environment list, each blanked and noted when it holds a secret. */
  method RedactEnvList(a: array<Value>, owner: string, ghost sh: Shape)
    returns (notes: seq<Note>, ghost paths: seq<Path>, ghost sh': Shape)
    requires Tree(sh) && sh.ArrShape? && Holds(VArr(a), sh)
    modifies sh.Foot()
    ensures Tree(sh') && Holds(VArr(a), sh') && sh'.Foot() <= sh.Foot()
    ensures sh'.Doc() == RedactedList(sh.Doc())
    ensures ChildAccounts(Key(ENV), sh.Doc(), owner, notes, paths)
  {
    notes, paths, sh' := [], [], sh;
    for i := 0 to a.Length
      invariant Tree(sh') && sh'.ArrShape? && Holds(VArr(a), sh') && sh'.Foot() <= sh.Foot()
      invariant ListState(sh, sh', i, owner, notes, paths)
    {
      var blanked, name, next := RedactListEntry(a, i, sh');
      ListStep(sh, sh', next, i, owner, notes, paths);
      sh' := next;
      if blanked {
        notes, paths := notes + [Note(owner, name)], paths + [[Index(i)]];
      }
    }
    ListFinish(sh, sh', owner, notes, paths);
  }

  ghost predicate ListState(sh: Shape, cur: Shape, n: nat, owner: string, notes: seq<Note>, paths: seq<Path>) {
    && sh.ArrShape? && cur.ArrShape? && n <= |cur.items| == |sh.items|
    && (forall k :: n <= k < |sh.items| ==> cur.items[k] == sh.items[k])
    && (forall k :: 0 <= k < n ==> cur.items[k].Doc() == RedactedEntry(sh.items[k].Doc()))
    && ListAccounts(sh.Doc(), n, owner, notes, paths)
  }

  lemma ListStep(sh: Shape, cur: Shape, next: Shape, i: nat, owner: string, notes: seq<Note>, paths: seq<Path>)
    requires ListState(sh, cur, i, owner, notes, paths) && i < |sh.items|
    requires next.ArrShape? && |next.items| == |cur.items| && next.items == cur.items[i := next.items[i]]
    requires next.items[i].Doc() == RedactedEntry(cur.items[i].Doc())
    ensures if HasSecret(cur.items[i].Doc())
      then ListState(sh, next, i + 1, owner, notes + [Note(owner, NameOf(cur.items[i].Doc()))], paths + [[Index(i)]])
      else ListState(sh, next, i + 1, owner, notes, paths)
  {
    ListAccountsStep(sh.Doc(), i, owner, notes, paths);
  }

  lemma ListFinish(sh: Shape, cur: Shape, owner: string, notes: seq<Note>, paths: seq<Path>)
    requires sh.ArrShape? && ListState(sh, cur, |sh.items|, owner, notes, paths)
    ensures cur.Doc() == RedactedList(sh.Doc()) && ChildAccounts(Key(ENV), sh.Doc(), owner, notes, paths)
  {
    DocOfItems(cur, RedactedList(sh.Doc()).items);
    ListAccountsAll(sh.Doc(), owner, notes, paths);
  }

  lemma ListAccountsAll(list: Json, owner: string, notes: seq<Note>, paths: seq<Path>)
    requires list.Arr? && ListAccounts(list, |list.items|, owner, notes, paths)
    ensures ChildAccounts(Key(ENV), list, owner, notes, paths)
  {
    forall p: Path ensures p in paths <==> ExposedUnder(Key(ENV), list, p) {
      if |p| == 1 && p[0].Index? && p[0].i < |list.items| {
        assert Child(list, p[0]) == Some(list.items[p[0].i]);
      }
    }
  }

  method RedactListEntry(a: array<Value>, i: nat, ghost sh: Shape) returns (blanked: bool, name: string, ghost sh': Shape)
    requires Tree(sh) && sh.ArrShape? && Holds(VArr(a), sh) && i < |sh.items|
    modifies sh.Foot()
    ensures Tree(sh') && sh'.ArrShape? && Holds(VArr(a), sh') && sh'.Foot() <= sh.Foot()
    ensures |sh'.items| == |sh.items| && sh'.items == sh.items[i := sh'.items[i]]
    ensures sh'.items[i].Doc() == RedactedEntry(sh.items[i].Doc())
    ensures blanked == HasSecret(sh.items[i].Doc()) && (blanked ==> name == NameOf(sh.items[i].Doc()))
  {
    assert Holds(a[i], sh.items[i]);
    ghost var kid;
    blanked, name, kid := RedactEntry(a[i], sh.items[i]);
    TreeWithItem(sh, i, kid);
    HoldsWithItem(a, sh, i, kid);
    sh' := sh.WithItem(i, kid);
  }

  /** One note for each secret among the first `n` entries. */
  ghost predicate ListAccounts(list: Json, n: nat, owner: string, notes: seq<Note>, paths: seq<Path>)
    requires list.Arr? && n <= |list.items|
  {
    && NotesMatch(list, owner, notes, paths) && NoDuplicates(paths)
    && forall p: Path :: p in paths <==> |p| == 1 && p[0].Index? && p[0].i < n && HasSecret(list.items[p[0].i])
  }

  lemma ListAccountsStep(list: Json, i: nat, owner: string, notes: seq<Note>, paths: seq<Path>)
    requires list.Arr? && i < |list.items| && ListAccounts(list, i, owner, notes, paths)
    ensures if HasSecret(list.items[i])
      then ListAccounts(list, i + 1, owner, notes + [Note(owner, NameOf(list.items[i]))], paths + [[Index(i)]])
      else ListAccounts(list, i + 1, owner, notes, paths)
  {
    if HasSecret(list.items[i]) {
      var q: Path := [Index(i)];
      assert q[1..] == [] && At(list, q) == Some(list.items[i]);
      var all := paths + [q];
      forall p: Path
        ensures p in all <==> |p| == 1 && p[0].Index? && p[0].i < i + 1 && HasSecret(list.items[p[0].i])
      {
        assert p in all <==> p in paths || p == q;
        assert |p| == 1 && p[0] == Index(i) ==> p == q;
      }
      NoDuplicatesAppend(paths, [q]);
      NotesAppend(list, owner, notes, paths, [Note(owner, NameOf(list.items[i]))], [q]);
    }
  }

  method RedactEntry(entry: Value, ghost sh: Shape) returns (blanked: bool, name: string, ghost sh': Shape)
    requires Tree(sh) && Holds(entry, sh)
    modifies sh.Foot()
    ensures Tree(sh') && Holds(entry, sh') && sh'.Foot() <= sh.Foot()
    ensures sh'.Doc() == RedactedEntry(sh.Doc())
    ensures blanked == HasSecret(sh.Doc()) && (blanked ==> name == NameOf(sh.Doc()))
  {
    blanked, name, sh' := false, "", sh;
    if !entry.VObj? {
      return;
    }
    var envVar := entry.o;
    HoldsField(envVar, sh, NAME);
    HoldsField(envVar, sh, VALUE);
    if NAME in envVar.fields {
      HoldsPrim(envVar.fields[NAME], sh.fields[NAME]);
      if envVar.fields[NAME].VPrim? && envVar.fields[NAME].p.Text? {
        name := envVar.fields[NAME].p.text;
      }
    }
    assert name == NameOf(sh.Doc());
    if VALUE !in envVar.fields || !LooksSensitive(name) {
      return;
    }
    blanked := true;
    SetField(envVar, VALUE, VPrim(PLACEHOLDER.p), sh, PrimShape(PLACEHOLDER.p));
    DocWithField(sh, VALUE, PrimShape(PLACEHOLDER.p));
    sh' := sh.WithField(VALUE, PrimShape(PLACEHOLDER.p));
  }

  lemma HoldsPrim(v: Value, sh: Shape)
    requires Tree(sh) && Holds(v, sh)
    ensures v.VPrim? <==> sh.Doc().Prim?
    ensures v.VPrim? ==> sh.Doc() == Prim(v.p)
  {
  }
}
