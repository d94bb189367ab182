/**
 * Schemaless documents as the document store and the JSON request bodies
 * hold them, and the few Python built-ins the service applies to their
 * values: `dict.get` with a default, `bool(...)` and `float(...)`.
 */
module Documents {
  import opened Wrappers

  /** A loosely-typed stored or submitted value. Numbers are exact reals. */
  datatype Value =
    | Null
    | Bool(b: bool)
    | Num(n: real)
    | Str(s: string)
    | List(elems: seq<Value>)
    | Obj(fields: map<string, Value>)

  /** A document: field name to value. */
  type Document = map<string, Value>

  /** `d.get(key, default)`: the stored value when the key is present, even if it is null. */
  function Get(d: Document, key: string, default: Value): (v: Value)
    ensures key in d ==> v == d[key]
    ensures key !in d ==> v == default
  {
    if key in d then d[key] else default
  }

  /** Python truthiness, `bool(v)`: false for null, false, zero and empty containers. */
  predicate Truthy(v: Value): (t: bool)
    ensures v.Null? ==> !t
    ensures v.Bool? ==> (t <==> v.b)
    ensures v.Num? ==> (t <==> v.n != 0.0)
    ensures v.Str? ==> (t <==> |v.s| > 0)
    ensures v.List? ==> (t <==> |v.elems| > 0)
    ensures v.Obj? ==> (t <==> |v.fields| > 0)
  {
    match v
    case Null => false
    case Bool(b) => b
    case Num(n) => n != 0.0
    case Str(s) => s != ""
    case List(elems) => elems != []
    case Obj(fields) => fields != map[]
  }

  /** Why `float(v)` raised. */
  datatype ConversionError = NotANumber(text: string) | NotConvertible(value: Value)

  /**
   * `float(v)`: numbers are kept, booleans become 1.0 or 0.0, text is handed
   * to the number parser `parse` (a parameter: parsing is not modelled), and
   * null, lists and objects raise a type error.
   */
  function ToFloat(v: Value, parse: string -> Option<real>): (r: Result<real, ConversionError>)
    ensures v.Num? ==> r == Success(v.n)
    ensures v.Bool? ==> r == Success(if v.b then 1.0 else 0.0)
    ensures (v.Null? || v.List? || v.Obj?) ==> r == Failure(NotConvertible(v))
    ensures v.Str? && parse(v.s).Some? ==> r == Success(parse(v.s).value)
    ensures v.Str? && parse(v.s).None? ==> r == Failure(NotANumber(v.s))
  {
    match v
    case Num(n) => Success(n)
    case Bool(b) => Success(if b then 1.0 else 0.0)
    case Str(s) =>
      if parse(s).Some? then Success(parse(s).value) else Failure(NotANumber(s))
    case _ => Failure(NotConvertible(v))
  }
}
