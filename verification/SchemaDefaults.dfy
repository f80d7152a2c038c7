/**
  Structural defaulting of a JSON document against a CRD schema, as a function
  on values: what the in-place walk of SchemaDefaulting computes.
 */
module SchemaDefaults {
  import opened Options
  import opened JsonTree

  /** The raw `default` of a schema node: absent, present but not JSON, or a JSON value. */
  datatype Default = NoDefault | Undecodable | Decoded(value: Json)

  /** A schema node; NoSchema is the nil pointer. */
  datatype Schema =
    | NoSchema
    | Schema(props: map<Name, Schema>, items: Schema, additional: Schema, dflt: Default, nullable: bool)
  {
    predicate HasDefault() {
      Schema? && dflt.Decoded?
    }

    /** The schema of one child of a value of this schema. */
    function Slot(step: Step): Schema {
      if NoSchema? then NoSchema
      else match step
        case Key(name) => if name in props then props[name] else additional
        case Index(_) => items
    }
  }

  function SchemaAt(s: Schema, p: Path): Schema {
    if p == [] then s else SchemaAt(s.Slot(p[0]), p[1..])
  }

  /** A null that the slot neither allows nor defaults to null gives way to the default. */
  function Fill(v: Json, slot: Schema): Json {
    if v.Null? && slot.HasDefault() && !slot.nullable then slot.dflt.value else v
  }

  function KeysAfter(m: map<Name, Json>, props: map<Name, Schema>): set<Name> {
    m.Keys + set name | name in props && props[name].HasDefault()
  }

  /** The value under `name` before it is walked against its own schema. */
  function Start(m: map<Name, Json>, s: Schema, name: Name): Json
    requires s.Schema? && name in KeysAfter(m, s.props)
  {
    if name in m then Fill(m[name], s.Slot(Key(name))) else s.props[name].dflt.value
  }

  /** Structural defaulting; it recurses on the schema, through values it has itself inserted. */
  function Defaulted(j: Json, s: Schema): Json
    decreases s
  {
    if s.NoSchema? then j
    else match j
      case Obj(m) =>
        Obj(map name | name in KeysAfter(m, s.props) ::
              if name in s.props then Defaulted(Start(m, s, name), s.props[name])
              else Defaulted(Start(m, s, name), s.additional))
      case Arr(items) =>
        Arr(seq(|items|, i requires 0 <= i < |items| => Defaulted(Fill(items[i], s.items), s.items)))
      case _ => j
  }

  lemma DefaultedChild(j: Json, s: Schema, step: Step)
    requires s.Schema?
    ensures Child(j, step).Some? ==>
      Child(Defaulted(j, s), step) == Some(Defaulted(Fill(Child(j, step).value, s.Slot(step)), s.Slot(step)))
    ensures Child(j, step).None? && Child(Defaulted(j, s), step).Some? ==>
      && s.Slot(step).HasDefault()
      && Child(Defaulted(j, s), step) == Some(Defaulted(s.Slot(step).dflt.value, s.Slot(step)))
  {
  }

  // ---- Completeness, idempotence ----

  /** Nothing is left to fill in at this place: a null here is allowed, or is the default itself. */
  predicate Settled(v: Json, slot: Schema) {
    v.Null? && slot.HasDefault() ==> slot.nullable || slot.dflt.value.Null?
  }

  /** Everywhere the schema reaches, every defaulted property is present and every value is settled. */
  predicate Complete(j: Json, s: Schema)
    decreases s
  {
    s.NoSchema? ||
    match j
      case Obj(m) =>
        && (forall name :: name in s.props && s.props[name].HasDefault() ==> name in m)
        && (forall name :: name in m ==>
              if name in s.props then Settled(m[name], s.props[name]) && Complete(m[name], s.props[name])
              else Settled(m[name], s.additional) && Complete(m[name], s.additional))
      case Arr(items) =>
        forall i :: 0 <= i < |items| ==> Settled(items[i], s.items) && Complete(items[i], s.items)
      case _ => true
  }

  lemma FillSettles(v: Json, slot: Schema)
    ensures Settled(v, slot) <==> Fill(v, slot) == v
    ensures Settled(Fill(v, slot), slot)
    ensures Settled(Defaulted(Fill(v, slot), slot), slot)
  {
  }

  /** A document is complete exactly when defaulting leaves it as it is. */
  lemma {:induction false} CompleteIffFixpoint(j: Json, s: Schema)
    ensures Complete(j, s) <==> Defaulted(j, s) == j
    decreases s
  {
    if s.Schema? {
      match j {
        case Obj(m) =>
          forall name | name in m
            ensures var slot := s.Slot(Key(name));
              Settled(m[name], slot) && Complete(m[name], slot) <==> Defaulted(Fill(m[name], slot), slot) == m[name]
          {
            SlotFixpoint(m[name], s, Key(name));
          }
          var r := Defaulted(j, s).fields;
          if r == m {
            forall name | name in m
              ensures r[name] == Defaulted(Fill(m[name], s.Slot(Key(name))), s.Slot(Key(name)))
            {
            }
          }
        case Arr(items) =>
          forall i | 0 <= i < |items|
            ensures Settled(items[i], s.items) && Complete(items[i], s.items)
              <==> Defaulted(Fill(items[i], s.items), s.items) == items[i]
          {
            SlotFixpoint(items[i], s, Index(i));
          }
          var r := Defaulted(j, s).items;
          assert forall i :: 0 <= i < |items| ==> r[i] == Defaulted(Fill(items[i], s.items), s.items);
        case _ =>
      }
    }
  }

  lemma {:induction false} SlotFixpoint(v: Json, s: Schema, step: Step)
    requires s.Schema?
    ensures var slot := s.Slot(step);
      Settled(v, slot) && Complete(v, slot) <==> Defaulted(Fill(v, slot), slot) == v
    decreases s, 0
  {
    var slot := s.Slot(step);
    FillSettles(v, slot);
    CompleteIffFixpoint(v, slot);
  }

  /** Defaulting leaves nothing to default: its result is complete. */
  lemma {:induction false} DefaultedIsComplete(j: Json, s: Schema)
    ensures Complete(Defaulted(j, s), s)
    decreases s
  {
    if s.Schema? {
      match j {
        case Obj(m) =>
          var r := Defaulted(j, s).fields;
          forall name | name in r
            ensures Settled(r[name], s.Slot(Key(name))) && Complete(r[name], s.Slot(Key(name)))
          {
            SlotComplete(Start(m, s, name), s, Key(name));
          }
        case Arr(items) =>
          forall i | 0 <= i < |items|
            ensures var v := Defaulted(Fill(items[i], s.items), s.items);
              Settled(v, s.items) && Complete(v, s.items)
          {
            SlotComplete(Fill(items[i], s.items), s, Index(i));
          }
        case _ =>
      }
    }
  }

  lemma {:induction false} SlotComplete(v: Json, s: Schema, step: Step)
    requires s.Schema? && Settled(v, s.Slot(step))
    ensures Settled(Defaulted(v, s.Slot(step)), s.Slot(step)) && Complete(Defaulted(v, s.Slot(step)), s.Slot(step))
    decreases s, 0
  {
    DefaultedIsComplete(v, s.Slot(step));
  }

  /** A second pass changes nothing. */
  lemma Idempotent(j: Json, s: Schema)
    ensures Defaulted(Defaulted(j, s), s) == Defaulted(j, s)
  {
    DefaultedIsComplete(j, s);
    CompleteIffFixpoint(Defaulted(j, s), s);
  }

  // ---- Nothing is lost, nothing but defaults is added ----

  /** What of an input value must still be there: a scalar whole, the keys of an object, the length of an array. */
  predicate Keeps(before: Json, after: Json) {
    match before
    case Null => true
    case Prim(_) => after == before
    case Obj(m) => after.Obj? && m.Keys <= after.fields.Keys
    case Arr(items) => after.Arr? && |after.items| == |items|
  }

  /** Every place of the input is still there, with its scalar, keys or length. */
  lemma {:induction false} InputSurvives(j: Json, s: Schema, p: Path)
    requires At(j, p).Some?
    ensures At(Defaulted(j, s), p).Some? && Keeps(At(j, p).value, At(Defaulted(j, s), p).value)
    decreases |p|
  {
    if p != [] && s.Schema? {
      DefaultedChild(j, s, p[0]);
      var v, slot := Child(j, p[0]).value, s.Slot(p[0]);
      if Fill(v, slot) == v {
        InputSurvives(v, slot, p[1..]);
      }
    }
  }

  /** The value at `p` is the schema default for that place, itself defaulted, where the input had nothing. */
  predicate IsInsertedDefault(j: Json, s: Schema, p: Path) {
    && Missing(At(j, p))
    && SchemaAt(s, p).HasDefault()
    && At(Defaulted(j, s), p) == Some(Defaulted(SchemaAt(s, p).dflt.value, SchemaAt(s, p)))
  }

  /** Every value the input did not have lies in a default that was inserted where the input had nothing. */
  lemma {:induction false} OnlyDefaultsAreAdded(j: Json, s: Schema, p: Path)
    requires At(Defaulted(j, s), p).Some? && Missing(At(j, p)) && At(Defaulted(j, s), p) != At(j, p)
    ensures exists n :: 0 <= n <= |p| && IsInsertedDefault(j, s, p[..n])
    decreases |p|
  {
    if s.Schema? && p != [] {
      var step, rest, r := p[0], p[1..], Defaulted(j, s);
      var slot := s.Slot(step);
      DefaultedChild(j, s, step);
      var c := Child(j, step);
      if c.Some? && Fill(c.value, slot) == c.value {
        OnlyDefaultsAreAdded(c.value, slot, rest);
        var n :| 0 <= n <= |rest| && IsInsertedDefault(c.value, slot, rest[..n]);
        PrefixStep(p, n);
        assert IsInsertedDefault(j, s, p[..n + 1]);
      } else {
        PrefixStep(p, 0);
        var q := p[..1];
        assert q[1..] == [] && At(j, q) == c && SchemaAt(s, q) == slot;
        assert At(r, q) == Child(r, step);
        assert IsInsertedDefault(j, s, q);
      }
    }
  }

  lemma PrefixStep(p: Path, n: nat)
    requires n < |p|
    ensures p[..n + 1][0] == p[0] && p[..n + 1][1..] == p[1..][..n]
  {
  }
}
