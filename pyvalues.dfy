/** Values that reach the ingestion code from the Python runtime: decoded
    JSON, the exceptions the code raises or catches, and the library calls it
    makes (uuid.UUID, datetime.fromisoformat, str, int, float, json.loads),
    which the model takes as given total functions. */
module PyValues {

  datatype Option<+T> = None | Some(value: T)

  datatype Result<+T, +E> = Ok(value: T) | Err(error: E) {
    predicate IsFailure() {
      Err?
    }

    function PropagateFailure<U>(): Result<U, E>
      requires Err?
    {
      Err(error)
    }

    function Extract(): T
      requires Ok?
    {
      value
    }
  }

  /** The exception classes that matter to the handlers. */
  datatype PyError = ValueError | TypeError | OverflowError | AttributeError

  /** A Python float. Only its truthiness and int() of it are ever looked at. */
  datatype Float = Finite(r: real) | Infinite(negative: bool) | NaN

  /** A datetime: `wall` is its wall-clock reading (microseconds from an epoch),
      `utcOffset` its offset in minutes, or None for a naive datetime. */
  datatype Instant = Instant(wall: int, utcOffset: Option<int>)

  /** A value produced by json.loads. */
  datatype Json =
    | JNull
    | JBool(b: bool)
    | JInt(i: int)
    | JFloat(f: Float)
    | JStr(s: string)
    | JList(items: seq<Json>)
    | JObject(fields: map<string, Json>)

  /** The library calls the handlers make, as functions of their arguments. */
  datatype Library = Library(
    isUuid: string -> bool,                   // uuid.UUID(s) does not raise
    fromIsoFormat: string -> Option<Instant>, // datetime.fromisoformat(s); None when it raises ValueError
    repr: Json -> string,                     // str(v) for a value that is not a string
    intOfText: string -> Option<int>,         // int(s); None when it raises ValueError
    floatOfText: string -> Option<Float>,     // float(s); None when it raises ValueError
    floatOfInt: int -> Option<Float>,         // float(i); None when it raises OverflowError
    loads: seq<bv8> -> Option<Json>)          // json.loads(payload.decode("utf-8")); None when either raises

  /** Python's bool(v). */
  predicate Truthy(v: Json) {
    match v
    case JNull => false
    case JBool(b) => b
    case JInt(i) => i != 0
    case JFloat(f) => !(f.Finite? && f.r == 0.0)
    case JStr(s) => s != ""
    case JList(items) => |items| > 0
    case JObject(fields) => |fields| > 0
  }

  /** The falsy values are exactly None, False, 0, 0.0, "", [] and {}. */
  lemma FalsyExactly(v: Json)
    ensures !Truthy(v) <==> v in {JNull, JBool(false), JInt(0), JFloat(Finite(0.0)), JStr(""), JList([]), JObject(map[])}
  {
  }

  /** Python's str(v): a string is itself, any other value is rendered. */
  function Str(lib: Library, v: Json): (r: string)
    ensures v.JStr? ==> r == v.s
  {
    if v.JStr? then v.s else lib.repr(v)
  }

  /** `data.get(key)`: a missing key and a JSON null are the same None. */
  function Get(fields: map<string, Json>, key: string): (v: Json)
    ensures key !in fields ==> v == JNull
    ensures key in fields ==> v == fields[key]
  {
    if key in fields then fields[key] else JNull
  }

  /** int(r) for a finite float: truncation toward zero. */
  function Truncate(r: real): (i: int)
    ensures 0.0 <= r ==> i as real <= r < i as real + 1.0
    ensures r < 0.0 ==> i as real - 1.0 < r <= i as real
  {
    if 0.0 <= r then r.Floor else -((-r).Floor)
  }

  /** Python's int(v) for a value that is not None. */
  function IntOf(lib: Library, v: Json): (r: Result<int, PyError>)
    ensures v.JInt? ==> r == Ok(v.i)
    ensures v.JBool? ==> r == Ok(if v.b then 1 else 0)
    ensures (v.JList? || v.JObject? || v.JNull?) ==> r == Err(TypeError)
  {
    match v
    case JNull => Err(TypeError)
    case JBool(b) => Ok(if b then 1 else 0)
    case JInt(i) => Ok(i)
    case JFloat(f) =>
      (match f
       case Finite(x) => Ok(Truncate(x))
       case Infinite(_) => Err(OverflowError)
       case NaN => Err(ValueError))
    case JStr(s) => if lib.intOfText(s).Some? then Ok(lib.intOfText(s).value) else Err(ValueError)
    case JList(_) => Err(TypeError)
    case JObject(_) => Err(TypeError)
  }

  /** Python's float(v) for a value that is not None. */
  function FloatOf(lib: Library, v: Json): (r: Result<Float, PyError>)
    ensures v.JFloat? ==> r == Ok(v.f)
    ensures (v.JList? || v.JObject? || v.JNull?) ==> r == Err(TypeError)
  {
    match v
    case JNull => Err(TypeError)
    case JBool(b) => Ok(Finite(if b then 1.0 else 0.0))
    case JInt(i) => if lib.floatOfInt(i).Some? then Ok(lib.floatOfInt(i).value) else Err(OverflowError)
    case JFloat(f) => Ok(f)
    case JStr(s) => if lib.floatOfText(s).Some? then Ok(lib.floatOfText(s).value) else Err(ValueError)
    case JList(_) => Err(TypeError)
    case JObject(_) => Err(TypeError)
  }
}
