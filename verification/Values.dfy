/** Shared value types: optional results and the JSON-like attribute values stored with every object. */
module Values {

  datatype Option<+T> = None | Some(value: T)

  datatype Value =
    | Null
    | Bool(flag: bool)
    | Int(number: int)
    | Float(x: real)
    | Text(text: string)
    | List(items: seq<Value>)
    | Obj(fields: map<string, Value>)

  function Lookup<K, V>(m: map<K, V>, key: K): Option<V> {
    if key in m then Some(m[key]) else None
  }

  function Max(a: nat, b: nat): nat {
    if a < b then b else a
  }

  /** Go's conversion of a float to an integer truncates toward zero. */
  function Truncate(x: real): int {
    if x >= 0.0 then x.Floor else -((-x).Floor)
  }
}
