/** Failure-compatible wrappers shared by every model in the project. */
module Wrappers {

  datatype Option<+T> = None | Some(value: T)

  /** The value of a call that either returns or raises. */
  datatype Result<+T, +E> = Ok(value: T) | Err(error: E)
  {
    predicate IsFailure() {
      Err?
    }

    function PropagateFailure<U>(): Result<U, E>
      requires Err?
    {
      Err(error)
    }

    function Extract(): T
      requires Ok?
    {
      value
    }
  }
}

/**
 * Parsed JSON values, as the Python standard library's `json.loads` produces them
 * (dict, list, str, int, bool, None). Floating-point numbers are not modelled.
 */
module Json {

  datatype Json =
    | JNull
    | JBool(b: bool)
    | JNum(n: int)
    | JStr(s: string)
    | JArr(items: seq<Json>)
    | JObj(fields: map<string, Json>)

  /** A JSON object: the Python `Dict[str, Any]` the stores pass around. */
  type Record = map<string, Json>

  /** Python's `d.get(key)`: the value, or None (JSON null) when the key is absent. */
  function GetOrNull(d: Record, key: string): (v: Json)
    ensures key in d ==> v == d[key]
    ensures key !in d ==> v == JNull
  {
    if key in d then d[key] else JNull
  }
}
