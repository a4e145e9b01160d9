/** The JavaScript values that the pass model inspects, JavaScript's notion of
    truthiness, and the exceptions the library throws. */
module JsValues {

  /** A JavaScript number: a finite value, NaN, or one of the two infinities. */
  datatype Number = Finite(r: real) | NaN | Infinity(negative: bool)

  /** A Date object: its time value in milliseconds since the epoch, or an
      invalid Date (time value NaN). */
  datatype JsDate = DateAt(ms: int) | InvalidDate

  /** A JavaScript value. `Obj` is a plain object with its own enumerable
      properties; `Opaque` stands for an instance of a class that lives outside
      the model (URL, PassColor, NFCField, ...), told apart by a tag. */
  datatype Value =
    | Undefined
    | Null
    | Bool(b: bool)
    | Num(n: Number)
    | Str(s: string)
    | DateV(d: JsDate)
    | Arr(elems: seq<Value>)
    | Obj(props: map<string, Value>)
    | Opaque(tag: nat)

  /** ECMAScript ToBoolean: false, 0, NaN, "", null and undefined are falsy. */
  predicate Truthy(v: Value) {
    match v
    case Undefined => false
    case Null => false
    case Bool(b) => b
    case Num(n) => n.Infinity? || (n.Finite? && n.r != 0.0)
    case Str(s) => s != ""
    case _ => true
  }

  /** Number.isInteger */
  predicate IsInteger(v: Value) {
    v.Num? && v.n.Finite? && v.n.r.Floor as real == v.n.r
  }

  /** Number.isFinite(date.getTime()) */
  predicate IsValidDate(d: JsDate) {
    d.DateAt?
  }

  /** Largest magnitude of a valid time value, in milliseconds (8.64e15). */
  const MAX_TIME_VALUE: int := 8_640_000_000_000_000

  /** TimeClip: a time value outside the representable range gives an invalid Date. */
  function TimeClip(t: int): (d: JsDate)
    ensures d.DateAt? <==> -MAX_TIME_VALUE <= t <= MAX_TIME_VALUE
    ensures d.DateAt? ==> d.ms == t
  {
    if -MAX_TIME_VALUE <= t <= MAX_TIME_VALUE then DateAt(t) else InvalidDate
  }

  /** The property read `v[name]`: reading from null or undefined throws a
      TypeError; a missing property, or a property of a primitive, reads as
      undefined. */
  function GetProp(v: Value, name: string): (r: Result<Value>)
    ensures r.Err? <==> (v.Undefined? || v.Null?)
    ensures r.Err? ==> r.error.kind == TypeError
    ensures v.Obj? && name in v.props ==> r == Ok(v.props[name])
    ensures v.Obj? && name !in v.props ==> r == Ok(Undefined)
  {
    match v
    case Undefined => Err(Exception(TypeError, name))
    case Null => Err(Exception(TypeError, name))
    case Obj(p) => Ok(if name in p then p[name] else Undefined)
    case _ => Ok(Undefined)
  }

  /** The constructors of the exceptions the library throws. `ExternalError`
      is whatever a collaborator outside the model throws. */
  datatype ErrorKind = TypeError | ReferenceError | SyntaxError | PlainError | ExternalError

  /** A thrown exception: its kind and the name of what it is about (a field,
      an image type, a dimension). Message texts are not modelled. */
  datatype Exception = Exception(kind: ErrorKind, about: string)

  /** A call that returns a value or throws. */
  datatype Result<+T> = Ok(value: T) | Err(error: Exception) {
    predicate IsFailure() { Err? }
    function PropagateFailure<U>(): Result<U>
      requires Err?
    {
      Err(error)
    }
    function Extract(): T
      requires Ok?
    {
      value
    }
  }

  /** A call that returns nothing or throws. */
  datatype Outcome = Done | Fail(error: Exception) {
    predicate IsFailure() { Fail? }
    function PropagateFailure(): Outcome
      requires Fail?
    {
      this
    }
  }

  datatype Option<+T> = None | Some(value: T)
}
