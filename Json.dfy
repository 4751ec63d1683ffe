/**
  A JSON value after parsing: the six kinds of value of section 3 of RFC 8259.
  An object is a map from member names to values; a number keeps its exact
  decimal value as a real.
*/
module Json {

  datatype Json =
    | Null
    | Bool(b: bool)
    | Num(n: real)
    | Str(s: string)
    | Arr(items: seq<Json>)
    | Obj(members: map<string, Json>)

  /** The kind of a value, as a decoding error reports what it found. */
  datatype Kind = NullKind | BoolKind | NumberKind | StringKind | ArrayKind | ObjectKind

  function KindOf(j: Json): (k: Kind)
    ensures k == StringKind <==> j.Str?
    ensures k == ObjectKind <==> j.Obj?
    ensures k == ArrayKind <==> j.Arr?
  {
    match j
    case Null => NullKind
    case Bool(_) => BoolKind
    case Num(_) => NumberKind
    case Str(_) => StringKind
    case Arr(_) => ArrayKind
    case Obj(_) => ObjectKind
  }
}
