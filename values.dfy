/** Values as the report code sees them: the parsed JSON of a quote record. */
module Values {

  datatype Option<T> = None | Some(value: T)

  /** A JSON-like value. Python's `int` and `float` both become an exact `VNum`. */
  datatype Value =
    | VNum(n: real)
    | VBool(b: bool)
    | VStr(s: string)
    | VNone
    | VList(items: seq<Value>)
    | VDict(entries: seq<(string, Value)>)

  /** The exceptions the core can raise, one constructor per kind. */
  datatype Error =
    | NotANumber(field: string)   // float() rejected a required money field
    | BadOperand(name: string)    // arithmetic on an operand that is not a number
    | NotAMapping(key: string)    // .get / .items on something that is not a dict
    | Unordered(field: string)    // `<` between a number and a non-number

  datatype Result<T> = Ok(value: T) | Err(error: Error)

  /** Python truthiness: what `x or 0` and `if x` test. */
  predicate Truthy(v: Value)
  {
    match v
    case VNum(n) => n != 0.0
    case VBool(b) => b
    case VStr(s) => s != ""
    case VNone => false
    case VList(items) => items != []
    case VDict(entries) => entries != []
  }
}
