/** JSON values as Python's `json.loads` hands them to the handlers, and the
    Python conversions `int(...)` and `float(...)` the handlers apply to them. */
module Json {
  import opened Wrappers

  /** A decoded JSON document. Python distinguishes integer and float numbers,
      so the model does too. A string carries what Python's `int()` and
      `float()` make of its text (`None` when they raise): parsing numeric text
      is not part of this model. */
  datatype Value =
    | Null
    | Bool(b: bool)
    | Int(i: int)
    | Float(x: real)
    | Str(text: string, asInt: Option<int>, asFloat: Option<real>)
    | Array(items: seq<Value>)
    | Object(fields: map<string, Value>)

  /** The raw bytes of a broker message, classified by how far decoding gets:
      not valid UTF-8, valid text that is not JSON, or a JSON document. */
  datatype Payload = Undecodable | Unparsable | Parsed(value: Value)

  /** Python's truncation of a float toward zero, as `int(x)` performs it. */
  function TruncateTowardZero(x: real): (i: int)
    ensures 0.0 <= x ==> i as real <= x < i as real + 1.0
    ensures x < 0.0 ==> i as real - 1.0 < x <= i as real
  {
    if 0.0 <= x then x.Floor else -((-x).Floor)
  }

  /** `int(v)`: `None` where Python raises (`None`, lists, dicts, bad text). */
  function ToInt(v: Value): (r: Option<int>)
    ensures v.Int? ==> r == Some(v.i)
    ensures v.Bool? ==> r == Some(if v.b then 1 else 0)
    ensures v.Float? ==> r == Some(TruncateTowardZero(v.x))
    ensures v.Str? ==> r == v.asInt
    ensures v.Null? || v.Array? || v.Object? ==> r == None
  {
    match v
    case Null => None
    case Bool(b) => Some(if b then 1 else 0)
    case Int(i) => Some(i)
    case Float(x) => Some(TruncateTowardZero(x))
    case Str(_, n, _) => n
    case Array(_) => None
    case Object(_) => None
  }

  /** `float(v)`: `None` where Python raises. */
  function ToFloat(v: Value): (r: Option<real>)
    ensures v.Float? ==> r == Some(v.x)
    ensures v.Int? ==> r == Some(v.i as real)
    ensures v.Bool? ==> r == Some(if v.b then 1.0 else 0.0)
    ensures v.Str? ==> r == v.asFloat
    ensures v.Null? || v.Array? || v.Object? ==> r == None
  {
    match v
    case Null => None
    case Bool(b) => Some(if b then 1.0 else 0.0)
    case Int(i) => Some(i as real)
    case Float(x) => Some(x)
    case Str(_, _, x) => x
    case Array(_) => None
    case Object(_) => None
  }
}
