/**
  Decoded JSON as Go holds it: maps and slices are shared references, and the
  walks over them write in place. A ghost Shape records which references a
  document is made of, so that "is a tree" and "is this document" can be stated
  apart from each other.
 */
module JsonHeap {
  import opened JsonTree

  /** A `map[string]any`. */
  class Object {
    var fields: map<Name, Value>

    constructor (fields: map<Name, Value>)
      ensures this.fields == fields
    {
      this.fields := fields;
    }
  }

  /** An `any` that JSON decoding produces; a `[]any` is an array written element by element. */
  datatype Value =
    | VNull
    | VPrim(p: Primitive)
    | VObj(o: Object)
    | VArr(a: array<Value>)

  /** A document together with the references it is made of; `own` bounds those of a place and everything below. */
  datatype Shape =
    | NullShape
    | PrimShape(p: Primitive)
    | ObjShape(o: Object, own: set<object>, fields: map<Name, Shape>)
    | ArrShape(a: array<Value>, own: set<object>, items: seq<Shape>)
  {
    ghost function Foot(): set<object> {
      if ObjShape? || ArrShape? then own else {}
    }

    /** The document, without its references. */
    ghost function Doc(): Json {
      match this
      case NullShape => Null
      case PrimShape(p) => Prim(p)
      case ObjShape(_, _, fields) => Obj(map k | k in fields :: fields[k].Doc())
      case ArrShape(_, _, items) => Arr(seq(|items|, i requires 0 <= i < |items| => items[i].Doc()))
    }

    ghost function WithField(name: Name, kid: Shape): Shape
      requires ObjShape?
    {
      ObjShape(o, own + kid.Foot(), fields[name := kid])
    }

    ghost function WithItem(i: nat, kid: Shape): Shape
      requires ArrShape? && i < |items|
    {
      ArrShape(a, own + kid.Foot(), items[i := kid])
    }
  }

  /** The places of a document own disjoint sets of references: no map or slice occurs at two of them. */
  ghost predicate Tree(sh: Shape) {
    match sh
    case ObjShape(o, own, fields) =>
      OwnsFields(o, own, fields) && forall k :: k in fields ==> Tree(fields[k])
    case ArrShape(a, own, items) =>
      OwnsItems(a, own, items) && forall i :: 0 <= i < |items| ==> Tree(items[i])
    case _ => true
  }

  ghost predicate OwnsFields(o: Object, own: set<object>, fields: map<Name, Shape>) {
    && o in own
    && (forall k {:trigger fields[k]} :: k in fields ==> fields[k].Foot() <= own && o !in fields[k].Foot())
    && (forall k, l :: k in fields && l in fields && k != l ==> fields[k].Foot() !! fields[l].Foot())
  }

  ghost predicate OwnsItems(a: array<Value>, own: set<object>, items: seq<Shape>) {
    && a in own
    && (forall i {:trigger items[i]} :: 0 <= i < |items| ==> items[i].Foot() <= own && a !in items[i].Foot())
    && (forall i, k :: 0 <= i < k < |items| ==> items[i].Foot() !! items[k].Foot())
  }

  /** In the current heap, `v` is the document of this shape. */
  ghost predicate Holds(v: Value, sh: Shape)
    requires Tree(sh)
    reads sh.Foot()
    decreases sh, 1
  {
    match sh
    case NullShape => v == VNull
    case PrimShape(p) => v == VPrim(p)
    case ObjShape(o, _, fields) => v == VObj(o) && FieldsHold(o, sh)
    case ArrShape(a, _, items) => v == VArr(a) && ItemsHold(a, sh)
  }

  ghost predicate FieldsHold(o: Object, sh: Shape)
    requires sh.ObjShape? && o == sh.o && Tree(sh)
    reads sh.Foot()
    decreases sh, 0
  {
    && o.fields.Keys == sh.fields.Keys
    && forall k {:trigger Holds(o.fields[k], sh.fields[k])} :: k in sh.fields ==> Holds(o.fields[k], sh.fields[k])
  }

  ghost predicate ItemsHold(a: array<Value>, sh: Shape)
    requires sh.ArrShape? && a == sh.a && Tree(sh)
    reads sh.Foot()
    decreases sh, 0
  {
    && a.Length == |sh.items|
    && forall i {:trigger Holds(a[i], sh.items[i])} :: 0 <= i < |sh.items| ==> Holds(a[i], sh.items[i])
  }

  lemma DocWithField(sh: Shape, name: Name, kid: Shape)
    requires sh.ObjShape?
    ensures sh.WithField(name, kid).Doc() == Obj(sh.Doc().fields[name := kid.Doc()])
  {
  }

  lemma DocOfFields(sh: Shape, m: map<Name, Json>)
    requires sh.ObjShape? && sh.fields.Keys == m.Keys && forall k :: k in m ==> sh.fields[k].Doc() == m[k]
    ensures sh.Doc() == Obj(m)
  {
  }

  lemma DocOfItems(sh: Shape, items: seq<Json>)
    requires sh.ArrShape? && |sh.items| == |items| && forall i :: 0 <= i < |items| ==> sh.items[i].Doc() == items[i]
    ensures sh.Doc() == Arr(items)
  {
    assert sh.Doc().items == items;
  }

  lemma TreeOfNulls(a: array<Value>, items: seq<Shape>)
    requires forall i :: 0 <= i < |items| ==> items[i] == NullShape
    ensures Tree(ArrShape(a, {a}, items))
  {
    assert Tree(NullShape);
  }

  /** Replacing the field `name` by a document with its own references. */
  lemma TreeWithField(sh: Shape, name: Name, kid: Shape)
    requires Tree(sh) && sh.ObjShape? && Tree(kid) && sh.o !in kid.Foot()
    requires forall k :: k in sh.fields && k != name ==> sh.fields[k].Foot() !! kid.Foot()
    ensures Tree(sh.WithField(name, kid))
  {
  }

  lemma TreeWithItem(sh: Shape, i: nat, kid: Shape)
    requires Tree(sh) && sh.ArrShape? && Tree(kid) && sh.a !in kid.Foot() && i < |sh.items|
    requires forall k :: 0 <= k < |sh.items| && k != i ==> sh.items[k].Foot() !! kid.Foot()
    ensures Tree(sh.WithItem(i, kid))
  {
  }

  /** An object whose other fields are as before holds the document with that one field replaced. */
  lemma HoldsWithField(o: Object, sh: Shape, name: Name, kid: Shape)
    requires Tree(sh) && sh.ObjShape? && Tree(kid) && Tree(sh.WithField(name, kid)) && o == sh.o
    requires o.fields.Keys == sh.fields.Keys + {name} && Holds(o.fields[name], kid)
    requires forall k :: k in sh.fields && k != name ==> Holds(o.fields[k], sh.fields[k])
    ensures Holds(VObj(o), sh.WithField(name, kid))
  {
  }

  lemma HoldsWithItem(a: array<Value>, sh: Shape, i: nat, kid: Shape)
    requires Tree(sh) && sh.ArrShape? && i < |sh.items| && Tree(kid) && Tree(sh.WithItem(i, kid)) && a == sh.a
    requires a.Length == |sh.items| && Holds(a[i], kid)
    requires forall k :: 0 <= k < |sh.items| && k != i ==> Holds(a[k], sh.items[k])
    ensures Holds(VArr(a), sh.WithItem(i, kid))
  {
  }

  lemma HoldsNull(v: Value, sh: Shape)
    requires Tree(sh) && Holds(v, sh)
    ensures v.VNull? <==> sh.Doc().Null?
  {
  }

  lemma HoldsField(o: Object, sh: Shape, name: Name)
    requires Tree(sh) && sh.ObjShape? && Holds(VObj(o), sh)
    ensures o == sh.o && o.fields.Keys == sh.fields.Keys && name in sh.Doc().fields <==> name in sh.fields
    ensures name in sh.fields ==>
      && Tree(sh.fields[name]) && Holds(o.fields[name], sh.fields[name])
      && sh.Doc().fields[name] == sh.fields[name].Doc()
      && (o.fields[name].VNull? <==> sh.fields[name].Doc().Null?)
  {
    if name in sh.fields {
      assert Holds(o.fields[name], sh.fields[name]);
      HoldsNull(o.fields[name], sh.fields[name]);
    }
  }

  /** `x[name] = v` with a value that shares nothing with the object. */
  method SetField(o: Object, name: Name, v: Value, ghost sh: Shape, ghost kid: Shape)
    requires Tree(sh) && sh.ObjShape? && Holds(VObj(o), sh)
    requires Tree(kid) && Holds(v, kid) && kid.Foot() !! sh.Foot()
    modifies o
    ensures o.fields == old(o.fields)[name := v]
    ensures Tree(sh.WithField(name, kid)) && Holds(VObj(o), sh.WithField(name, kid))
  {
    TreeWithField(sh, name, kid);
    o.fields := o.fields[name := v];
    HoldsWithField(o, sh, name, kid);
  }

  /** `x[i] = v` with a value that shares nothing with the slice. */
  method SetItem(a: array<Value>, i: nat, v: Value, ghost sh: Shape, ghost kid: Shape)
    requires Tree(sh) && sh.ArrShape? && Holds(VArr(a), sh) && i < |sh.items|
    requires Tree(kid) && Holds(v, kid) && kid.Foot() !! sh.Foot()
    modifies a
    ensures i < a.Length && a[i] == v && forall k :: 0 <= k < a.Length && k != i ==> a[k] == old(a[k])
    ensures Tree(sh.WithItem(i, kid)) && Holds(VArr(a), sh.WithItem(i, kid))
  {
    TreeWithItem(sh, i, kid);
    a[i] := v;
    HoldsWithItem(a, sh, i, kid);
  }

  /** Decoding a JSON text allocates every map and slice anew. */
  method Build(j: Json) returns (v: Value, ghost sh: Shape)
    ensures Tree(sh) && Holds(v, sh) && sh.Doc() == j && fresh(sh.Foot())
    decreases j
  {
    match j {
      case Null => v, sh := VNull, NullShape;
      case Prim(p) => v, sh := VPrim(p), PrimShape(p);
      case Obj(_) => v, sh := BuildObject(j);
      case Arr(_) => v, sh := BuildArray(j);
    }
  }

  method BuildObject(j: Json) returns (v: Value, ghost sh: Shape)
    requires j.Obj?
    ensures Tree(sh) && Holds(v, sh) && sh.Doc() == j && fresh(sh.Foot())
    decreases j, 1
  {
    var o := new Object(map[]);
    sh := ObjShape(o, {o}, map[]);
    var pending := j.fields.Keys;
    while pending != {}
      invariant Tree(sh) && sh.ObjShape? && Holds(VObj(o), sh) && fresh(sh.Foot())
      invariant pending <= j.fields.Keys && BuiltUpTo(sh, j, pending)
      decreases pending
    {
      var k :| k in pending;
      sh := BuildField(j, k, o, sh, pending);
      pending := pending - {k};
    }
    DocOfFields(sh, j.fields);
    v := VObj(o);
  }

  ghost predicate BuiltUpTo(sh: Shape, j: Json, pending: set<Name>) {
    && sh.ObjShape? && j.Obj?
    && (forall k :: k in sh.fields <==> k in j.fields && k !in pending)
    && (forall k :: k in sh.fields ==> sh.fields[k].Doc() == j.fields[k])
  }

  method BuildField(j: Json, k: Name, o: Object, ghost sh: Shape, ghost pending: set<Name>) returns (ghost sh': Shape)
    requires j.Obj? && k in j.fields && BuiltUpTo(sh, j, pending)
    requires Tree(sh) && sh.ObjShape? && Holds(VObj(o), sh)
    modifies o
    ensures Tree(sh') && sh'.ObjShape? && Holds(VObj(o), sh') && fresh(sh'.Foot() - sh.Foot())
    ensures BuiltUpTo(sh', j, pending - {k})
    decreases j, 0
  {
    var w, kid := Build(j.fields[k]);
    SetField(o, k, w, sh, kid);
    sh' := sh.WithField(k, kid);
  }

  method BuildArray(j: Json) returns (v: Value, ghost sh: Shape)
    requires j.Arr?
    ensures Tree(sh) && Holds(v, sh) && sh.Doc() == j && fresh(sh.Foot())
    decreases j, 0
  {
    var items := j.items;
    var a := new Value[|items|](_ => VNull);
    sh := ArrShape(a, {a}, seq(|items|, _ => NullShape));
    TreeOfNulls(a, sh.items);
    assert sh.Foot() == {a};
    for i := 0 to |items|
      invariant Tree(sh) && sh.ArrShape? && Holds(VArr(a), sh) && fresh(sh.Foot())
      invariant |sh.items| == |items|
      invariant forall k :: 0 <= k < i ==> sh.items[k].Doc() == items[k]
    {
      var w, kid := Build(items[i]);
      SetItem(a, i, w, sh, kid);
      sh := sh.WithItem(i, kid);
    }
    DocOfItems(sh, items);
    v := VArr(a);
  }
}
