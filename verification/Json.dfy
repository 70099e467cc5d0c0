/** JSON values. Numbers are only ever compared, so integers stand for all of them. */
module JsonValues {
  import opened Wrappers

  datatype Json =
    | Null
    | Bool(flag: bool)
    | Number(number: int)
    | String(text: string)
    | Array(items: seq<Json>)
    | Object(fields: map<string, Json>)

  datatype Step = Key(name: string) | Index(index: nat)

  function Child(v: Json, step: Step): Option<Json> {
    match step
    case Key(k) => if v.Object? && k in v.fields then Some(v.fields[k]) else None
    case Index(i) => if v.Array? && i < |v.items| then Some(v.items[i]) else None
  }

  /** The value at the end of a path. */
  function At(v: Json, path: seq<Step>): Option<Json>
    decreases path
  {
    if path == [] then Some(v)
    else
      match Child(v, path[0])
      case None => None
      case Some(w) => At(w, path[1..])
  }
}
