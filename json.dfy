/**
 * Decoded JSON values as the Python handlers see them after `.json()`,
 * with Python's truthiness, `dict.get` and the numeric coercion that
 * Python arithmetic applies to them.
 */
module Json {
  import opened Wrappers

  datatype Value =
    | Null
    | Bool(b: bool)
    | Num(n: real)
    | Str(s: string)
    | Arr(items: seq<Value>)
    | Obj(fields: map<string, Value>)

  /** Python's `bool(v)`: None, False, 0, "", [] and {} are falsy. */
  predicate Truthy(v: Value) {
    match v
    case Null => false
    case Bool(b) => b
    case Num(n) => n != 0.0
    case Str(s) => s != ""
    case Arr(xs) => xs != []
    case Obj(m) => m != map[]
  }

  /** Python's `d.get(k, default)`; `d.get(k)` is `Get(d, k, Null)`. */
  function Get(d: map<string, Value>, k: string, default: Value): Value {
    if k in d then d[k] else default
  }

  /**
   * The number a value stands for in float arithmetic: Python treats
   * True and False as 1 and 0; any other non-number raises TypeError (None).
   */
  function AsNumber(v: Value): (r: Option<real>)
    ensures r.Some? <==> v.Num? || v.Bool?
    ensures v.Num? ==> r == Some(v.n)
  {
    match v
    case Num(n) => Some(n)
    case Bool(b) => Some(if b then 1.0 else 0.0)
    case _ => None
  }

  /** The outcome of `requests.get(url, timeout=...).json()`: it raises, or yields a body. */
  datatype Fetched = Raised | Body(json: Value)
}
