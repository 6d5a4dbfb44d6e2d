/** JSON values as the gateway's configuration and workflow state hold them. */
module JsonValues {

  /** A JSON number is stored either as an integer or as a float; floats are exact reals here. */
  datatype Num = Int(i: int) | Float(f: real)

  /** An object is the sequence of its entries, in the order the gateway visits them. */
  datatype Json =
    | Null
    | Bool(b: bool)
    | Number(n: Num)
    | String(s: string)
    | Array(items: seq<Json>)
    | Object(fields: seq<(string, Json)>)

  function NumValue(n: Num): real {
    match n
    case Int(i) => i as real
    case Float(f) => f
  }

  /** The value under `key`, for an object; the entries' keys are distinct in every parsed document. */
  function Lookup(fields: seq<(string, Json)>, key: string): (r: Json)
    ensures (exists i :: 0 <= i < |fields| && fields[i].0 == key) ==> (key, r) in fields
    ensures (forall i :: 0 <= i < |fields| ==> fields[i].0 != key) ==> r == Null
  {
    if fields == [] then Null
    else if fields[0].0 == key then fields[0].1
    else Lookup(fields[1..], key)
  }
}

