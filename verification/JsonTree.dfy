/** JSON documents as values, and paths into them. */
module JsonTree {
  import opened Options

  /** A property name. */
  datatype Name = Name(text: string)

  /** A JSON scalar. Numbers keep their literal text, as `json.Number` does. */
  datatype Primitive = Bool(b: bool) | Number(literal: string) | Text(text: string)

  datatype Json =
    | Null
    | Prim(p: Primitive)
    | Obj(fields: map<Name, Json>)
    | Arr(items: seq<Json>)

  datatype Step = Key(name: Name) | Index(i: nat)

  type Path = seq<Step>

  function Child(j: Json, step: Step): Option<Json> {
    match step
    case Key(name) => if j.Obj? && name in j.fields then Some(j.fields[name]) else None
    case Index(i) => if j.Arr? && i < |j.items| then Some(j.items[i]) else None
  }

  /** The value at a path, or None when the path leaves the document. */
  function At(j: Json, p: Path): Option<Json> {
    if p == [] then Some(j)
    else
      var c := Child(j, p[0]);
      if c.None? then None else At(c.value, p[1..])
  }

  /** Absent, or present and null. */
  predicate Missing(o: Option<Json>) {
    o.None? || o.value.Null?
  }
}
