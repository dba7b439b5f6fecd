/**
 * The dynamically typed values that the sensor SDK returns and that the
 * fetchers put into their result dictionaries, with the parts of Python's
 * semantics the code relies on: truth testing, `or`, `dict.get`, and which
 * values an ordered comparison with a float accepts.
 */
module Values {
  import opened Wrappers

  datatype Value =
    | Null
    | Bool(b: bool)
    | Int(i: int)
    | Float(f: real)
    | Str(s: string)
    | List(items: seq<Value>)
    | Dict(fields: map<string, Value>)

  /** Python truth testing: None, False, zero and empty containers are falsy. */
  predicate Truthy(v: Value)
    ensures v == Null ==> !Truthy(v)
    ensures AsNumber(v).Some? ==> (Truthy(v) <==> AsNumber(v).value != 0.0)
  {
    match v
    case Null => false
    case Bool(b) => b
    case Int(i) => i != 0
    case Float(f) => f != 0.0
    case Str(s) => s != ""
    case List(items) => items != []
    case Dict(fields) => fields != map[]
  }

  /** Python's `a or b`: the first operand when it is truthy, otherwise the second. */
  function Or(a: Value, b: Value): (r: Value)
    ensures Truthy(a) ==> r == a
    ensures !Truthy(a) ==> r == b
    ensures Truthy(r) <==> Truthy(a) || Truthy(b)
  {
    if Truthy(a) then a else b
  }

  /** `d.get(key)`: the stored value, or None when the key is absent. */
  function Get(fields: map<string, Value>, key: string): (r: Value)
    ensures key in fields ==> r == fields[key]
    ensures key !in fields ==> r == Null
  {
    if key in fields then fields[key] else Null
  }

  /** `type(v).__name__` as CPython prints it in error messages. */
  function TypeName(v: Value): string {
    match v
    case Null => "NoneType"
    case Bool(_) => "bool"
    case Int(_) => "int"
    case Float(_) => "float"
    case Str(_) => "str"
    case List(_) => "list"
    case Dict(_) => "dict"
  }

  /**
   * The number a comparison `0.0 <= v` sees: bool and int compare as
   * numbers, every other value makes the comparison raise TypeError.
   */
  function AsNumber(v: Value): (r: Option<real>)
    ensures r.Some? <==> v.Bool? || v.Int? || v.Float?
    ensures v.Bool? ==> r == Some(if v.b then 1.0 else 0.0)
    ensures v.Int? ==> r == Some(v.i as real)
    ensures v.Float? ==> r == Some(v.f)
  {
    match v
    case Bool(b) => Some(if b then 1.0 else 0.0)
    case Int(i) => Some(i as real)
    case Float(f) => Some(f)
    case _ => None
  }
}
