/** Decoded JSON trees, and the JSON text codec as a pair of functions. */
module Json {
  import opened Wrappers

  /** A decoded JSON value. A number is a float64, here by its bit pattern. */
  datatype Value =
    | Null
    | Bool(b: bool)
    | Number(bits: nat)
    | Str(s: string)
    | Arr(items: seq<Value>)
    | Obj(fields: map<string, Value>)

  /** A step into a tree: an index into an array, or a key of an object. */
  datatype Step = Index(i: nat) | Key(k: string)

  /** The subtree at a path, if there is one. */
  function At(v: Value, path: seq<Step>): Option<Value>
    decreases |path|
  {
    if |path| == 0 then Some(v)
    else match (v, path[0])
      case (Arr(items), Index(i)) => if i < |items| then At(items[i], path[1..]) else None
      case (Obj(fields), Key(k)) => if k in fields then At(fields[k], path[1..]) else None
      case _ => None
  }

  /** Two nodes look alike from outside: the same scalar, the same length, the same keys. */
  predicate SameNode(v: Value, w: Value) {
    match (v, w)
    case (Arr(a), Arr(b)) => |a| == |b|
    case (Obj(a), Obj(b)) => a.Keys == b.Keys
    case _ => v == w
  }

  /** Parsing gives a tree or fails; printing gives text or fails. */
  datatype Codec = Codec(parse: Bytes -> Option<Value>, print_: Value -> Option<Bytes>)
}
