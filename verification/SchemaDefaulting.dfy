/**
  The in-place walk of validate_schema_defaults.go. Whatever order the maps are
  ranged over, it leaves the document SchemaDefaults.Defaulted describes, on a
  heap where no two places share a map or a slice.
 */
module SchemaDefaulting {
  import opened JsonTree
  import opened JsonHeap
  import opened SchemaDefaults

  /** A fresh copy of a schema default, when it decodes. */
  method DecodeDefault(d: Default) returns (v: Value, ok: bool, ghost sh: Shape)
    ensures ok == d.Decoded?
    ensures Tree(sh) && Holds(v, sh) && fresh(sh.Foot())
    ensures ok ==> sh.Doc() == d.value
  {
    ok := d.Decoded?;
    if ok {
      v, sh := Build(d.value);
    } else {
      v, sh := VNull, NullShape;
    }
  }

  method ApplyDefaults(x: Value, s: Schema, ghost sh: Shape) returns (ghost sh': Shape)
    requires Tree(sh) && Holds(x, sh)
    modifies sh.Foot()
    ensures Tree(sh') && Holds(x, sh') && fresh(sh'.Foot() - sh.Foot())
    ensures sh'.Doc() == Defaulted(sh.Doc(), s)
    decreases s, 3
  {
    sh' := sh;
    if s.NoSchema? {
      return;
    }
    match x {
      case VObj(o) =>
        sh' := InsertDefaults(o, s, sh);
        ghost var filled := sh';
        sh' := WalkFields(o, s, filled);
        FieldsDefaulted(sh, s, filled, sh');
      case VArr(a) =>
        sh' := WalkItems(a, s, sh);
        DocOfItems(sh', Defaulted(sh.Doc(), s).items);
      case _ =>
    }
  }

  lemma FieldsDefaulted(sh: Shape, s: Schema, filled: Shape, sh': Shape)
    requires InsertedUpTo(sh, filled, s, {}) && sh'.ObjShape? && sh'.fields.Keys == filled.fields.Keys
    requires forall k :: k in sh'.fields ==> sh'.fields[k].Doc() == Walked(filled.fields[k].Doc(), s, k)
    ensures sh'.Doc() == Defaulted(sh.Doc(), s)
  {
    DocOfFields(sh', Defaulted(sh.Doc(), s).fields);
  }

  /** What the second loop makes of it. */
  ghost function Walked(j: Json, s: Schema, name: Name): Json
    requires s.Schema?
  {
    if name in s.props then Defaulted(j, s.props[name]) else Defaulted(Fill(j, s.additional), s.additional)
  }

  /** `cur` is `sh` with the defaults of every property not in `pending` inserted. */
  ghost predicate InsertedUpTo(sh: Shape, cur: Shape, s: Schema, pending: set<Name>) {
    && s.Schema? && sh.ObjShape? && cur.ObjShape?
    && (forall k :: k in cur.fields <==> k in sh.fields || (k in s.props && s.props[k].HasDefault() && k !in pending))
    && (forall k :: k in cur.fields && k in sh.fields ==>
          cur.fields[k].Doc() == if k in s.props && k !in pending then Fill(sh.fields[k].Doc(), s.props[k]) else sh.fields[k].Doc())
    && (forall k :: k in cur.fields && k !in sh.fields ==> cur.fields[k].Doc() == s.props[k].dflt.value)
  }

  ghost predicate InsertedAt(cur: Shape, next: Shape, prop: Schema, name: Name) {
    && cur.ObjShape? && next.ObjShape?
    && (forall k :: k in next.fields <==> k in cur.fields || (k == name && prop.HasDefault()))
    && (forall k :: k in cur.fields && k != name ==> next.fields[k] == cur.fields[k])
    && (name in next.fields ==>
          next.fields[name].Doc() == if name in cur.fields then Fill(cur.fields[name].Doc(), prop) else prop.dflt.value)
  }

  lemma InsertStep(sh: Shape, cur: Shape, next: Shape, s: Schema, name: Name, pending: set<Name>)
    requires InsertedUpTo(sh, cur, s, pending) && name in pending && name in s.props
    requires InsertedAt(cur, next, s.props[name], name)
    ensures InsertedUpTo(sh, next, s, pending - {name})
  {
  }

  /** First loop: every property with a default that is absent, or null where null is not allowed. */
  method InsertDefaults(o: Object, s: Schema, ghost sh: Shape) returns (ghost sh': Shape)
    requires s.Schema? && Tree(sh) && sh.ObjShape? && Holds(VObj(o), sh)
    modifies o
    ensures Tree(sh') && sh'.ObjShape? && Holds(VObj(o), sh') && fresh(sh'.Foot() - sh.Foot())
    ensures InsertedUpTo(sh, sh', s, {})
  {
    sh' := sh;
    var pending := s.props.Keys;
    while pending != {}
      invariant pending <= s.props.Keys && InsertedUpTo(sh, sh', s, pending)
      invariant Tree(sh') && sh'.ObjShape? && Holds(VObj(o), sh') && fresh(sh'.Foot() - sh.Foot())
      decreases pending
    {
      var name :| name in pending;
      ghost var cur := sh';
      sh' := InsertDefault(o, s.props[name], name, cur);
      InsertStep(sh, cur, sh', s, name, pending);
      pending := pending - {name};
    }
  }

  method InsertDefault(o: Object, prop: Schema, name: Name, ghost sh: Shape) returns (ghost sh': Shape)
    requires Tree(sh) && sh.ObjShape? && Holds(VObj(o), sh)
    modifies o
    ensures Tree(sh') && sh'.ObjShape? && Holds(VObj(o), sh') && fresh(sh'.Foot() - sh.Foot())
    ensures InsertedAt(sh, sh', prop, name)
  {
    sh' := sh;
    HoldsField(o, sh, name);
    if prop.NoSchema? || prop.dflt.NoDefault? {
      return;
    }
    if name !in o.fields || (o.fields[name].VNull? && !prop.nullable) {
      var value, ok, kid := DecodeDefault(prop.dflt);
      if ok {
        SetField(o, name, value, sh, kid);
        sh' := sh.WithField(name, kid);
        InsertedWithField(sh, prop, name, kid);
      }
    }
  }

  lemma InsertedWithField(sh: Shape, prop: Schema, name: Name, kid: Shape)
    requires sh.ObjShape? && prop.HasDefault() && kid.Doc() == prop.dflt.value
    requires name in sh.fields ==> sh.fields[name].Doc().Null? && !prop.nullable
    ensures InsertedAt(sh, sh.WithField(name, kid), prop, name)
  {
  }

  /** Second loop: every value is walked against its own schema, inserted ones included. */
  method WalkFields(o: Object, s: Schema, ghost sh: Shape) returns (ghost sh': Shape)
    requires s.Schema? && Tree(sh) && sh.ObjShape? && Holds(VObj(o), sh)
    modifies sh.Foot()
    ensures Tree(sh') && sh'.ObjShape? && Holds(VObj(o), sh') && fresh(sh'.Foot() - sh.Foot())
    ensures sh'.fields.Keys == sh.fields.Keys
    ensures forall k :: k in sh.fields ==> sh'.fields[k].Doc() == Walked(sh.fields[k].Doc(), s, k)
    decreases s, 2
  {
    sh' := sh;
    var pending := o.fields.Keys;
    while pending != {}
      invariant Tree(sh') && sh'.ObjShape? && Holds(VObj(o), sh') && fresh(sh'.Foot() - sh.Foot())
      invariant pending <= sh'.fields.Keys == sh.fields.Keys
      invariant forall k :: k in sh.fields ==>
        if k in pending then sh'.fields[k] == sh.fields[k]
        else sh'.fields[k].Doc() == Walked(sh.fields[k].Doc(), s, k)
      decreases pending
    {
      var name :| name in pending;
      sh' := WalkField(o, s, name, sh');
      pending := pending - {name};
    }
  }

  method WalkField(o: Object, s: Schema, name: Name, ghost sh: Shape) returns (ghost sh': Shape)
    requires s.Schema? && Tree(sh) && sh.ObjShape? && Holds(VObj(o), sh) && name in sh.fields
    modifies sh.Foot()
    ensures Tree(sh') && sh'.ObjShape? && Holds(VObj(o), sh') && fresh(sh'.Foot() - sh.Foot())
    ensures sh'.fields.Keys == sh.fields.Keys
    ensures forall k :: k in sh.fields && k != name ==> sh'.fields[k] == sh.fields[k]
    ensures sh'.fields[name].Doc() == Walked(sh.fields[name].Doc(), s, name)
    decreases s, 1
  {
    sh' := sh;
    HoldsField(o, sh, name);
    if name in s.props {
      sh' := Descend(o, s, s.props[name], name, sh');
    } else if s.additional.Schema? {
      if o.fields[name].VNull? && !s.additional.nullable {
        sh' := InsertDefault(o, s.additional, name, sh');
      }
      sh' := Descend(o, s, s.additional, name, sh');
    }
  }

  /** The recursive call on one field; the other fields are out of its reach. */
  method Descend(o: Object, ghost s: Schema, slot: Schema, name: Name, ghost sh: Shape) returns (ghost sh': Shape)
    requires s.Schema? && slot == s.Slot(Key(name))
    requires Tree(sh) && sh.ObjShape? && Holds(VObj(o), sh) && name in sh.fields
    modifies sh.Foot()
    ensures Tree(sh') && sh'.ObjShape? && Holds(VObj(o), sh') && fresh(sh'.Foot() - sh.Foot())
    ensures sh'.fields.Keys == sh.fields.Keys
    ensures forall k :: k in sh.fields && k != name ==> sh'.fields[k] == sh.fields[k]
    ensures sh'.fields[name].Doc() == Defaulted(sh.fields[name].Doc(), slot)
    decreases s, 0
  {
    HoldsField(o, sh, name);
    ghost var kid := ApplyDefaults(o.fields[name], slot, sh.fields[name]);
    TreeWithField(sh, name, kid);
    HoldsWithField(o, sh, name, kid);
    sh' := sh.WithField(name, kid);
  }

  method WalkItems(a: array<Value>, s: Schema, ghost sh: Shape) returns (ghost sh': Shape)
    requires s.Schema? && Tree(sh) && sh.ArrShape? && Holds(VArr(a), sh)
    modifies sh.Foot()
    ensures Tree(sh') && sh'.ArrShape? && Holds(VArr(a), sh') && fresh(sh'.Foot() - sh.Foot())
    ensures |sh'.items| == |sh.items|
    ensures forall i :: 0 <= i < |sh.items| ==>
      sh'.items[i].Doc() == Defaulted(Fill(sh.items[i].Doc(), s.items), s.items)
    decreases s, 2
  {
    sh' := sh;
    for i := 0 to a.Length
      invariant Tree(sh') && sh'.ArrShape? && Holds(VArr(a), sh') && fresh(sh'.Foot() - sh.Foot())
      invariant |sh'.items| == |sh.items|
      invariant forall k :: i <= k < |sh.items| ==> sh'.items[k] == sh.items[k]
      invariant forall k :: 0 <= k < i ==>
        sh'.items[k].Doc() == Defaulted(Fill(sh.items[k].Doc(), s.items), s.items)
    {
      sh' := WalkItem(a, s, i, sh');
    }
  }

  method WalkItem(a: array<Value>, s: Schema, i: nat, ghost sh: Shape) returns (ghost sh': Shape)
    requires s.Schema? && Tree(sh) && sh.ArrShape? && Holds(VArr(a), sh) && i < |sh.items|
    modifies sh.Foot()
    ensures Tree(sh') && sh'.ArrShape? && Holds(VArr(a), sh') && fresh(sh'.Foot() - sh.Foot())
    ensures |sh'.items| == |sh.items|
    ensures forall k :: 0 <= k < |sh.items| && k != i ==> sh'.items[k] == sh.items[k]
    ensures sh'.items[i].Doc() == Defaulted(Fill(sh.items[i].Doc(), s.items), s.items)
    decreases s, 1
  {
    sh' := sh;
    assert Holds(a[i], sh.items[i]);
    HoldsNull(a[i], sh.items[i]);
    if a[i].VNull? && s.items.Schema? && !s.items.nullable && !s.items.dflt.NoDefault? {
      var d, ok, kid := DecodeDefault(s.items.dflt);
      if ok {
        SetItem(a, i, d, sh, kid);
        sh' := sh.WithItem(i, kid);
      }
    }
    sh' := DescendItem(a, s, i, sh');
  }

  method DescendItem(a: array<Value>, s: Schema, i: nat, ghost sh: Shape) returns (ghost sh': Shape)
    requires s.Schema? && Tree(sh) && sh.ArrShape? && Holds(VArr(a), sh) && i < |sh.items|
    modifies sh.Foot()
    ensures Tree(sh') && sh'.ArrShape? && Holds(VArr(a), sh') && fresh(sh'.Foot() - sh.Foot())
    ensures |sh'.items| == |sh.items|
    ensures forall k :: 0 <= k < |sh.items| && k != i ==> sh'.items[k] == sh.items[k]
    ensures sh'.items[i].Doc() == Defaulted(sh.items[i].Doc(), s.items)
    decreases s, 0
  {
    assert Holds(a[i], sh.items[i]);
    ghost var kid := ApplyDefaults(a[i], s.items, sh.items[i]);
    TreeWithItem(sh, i, kid);
    HoldsWithItem(a, sh, i, kid);
    sh' := sh.WithItem(i, kid);
  }
}
