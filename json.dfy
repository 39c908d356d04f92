/** Decoded JSON as the EDGAR client sees it through Python: truthiness,
    `dict.get`, chains of `or`, and the equality that a Python `set` uses. */
module Json {
  import opened Wrappers

  /** What `response.json()` produces, with numbers as mathematical values.
      Integers and floats are kept apart because Python keeps them apart
      (`str(1)` is not `str(1.0)`). Python's decoder also accepts the tokens
      `NaN`, `Infinity` and `-Infinity`, and reads a number beyond the double
      range such as `1e400` as an infinity; a `Float` carries a real, so
      none of these is a value here. */
  datatype Value =
    | Null
    | Bool(b: bool)
    | Int(i: int)
    | Float(r: real)
    | Str(s: string)
    | Array(items: seq<Value>)
    | Object(fields: map<string, Value>)

  /** Python's `bool(v)`: None, False, zero, and empty strings, lists and
      dicts are false; everything else is true. */
  predicate Truthy(v: Value)
  {
    match v
    case Null => false
    case Bool(b) => b
    case Int(i) => i != 0
    case Float(r) => r != 0.0
    case Str(s) => s != ""
    case Array(items) => items != []
    case Object(fields) => fields != map[]
  }

  /** `d.get(k)`: the value under `k`, or None when the key is absent. */
  function Get(d: map<string, Value>, k: string): (v: Value)
    ensures k !in d ==> v == Null
    ensures k in d ==> v == d[k]
  {
    if k in d then d[k] else Null
  }

  /** Python's `a or b`: `a` when it is truthy, otherwise `b` (whatever `b`
      is, falsy or not). */
  function Or(a: Value, b: Value): (r: Value)
    ensures Truthy(r) <==> Truthy(a) || Truthy(b)
    ensures Truthy(a) ==> r == a
    ensures !Truthy(a) ==> r == b
  {
    if Truthy(a) then a else b
  }

  /** What a Python `set` compares when `v` is added to it: `True`, `1` and
      `1.0` are one element; lists and dicts are unhashable (None). */
  datatype HashKey = NoneKey | NumKey(n: real) | StrKey(s: string)

  function Hash(v: Value): (h: Option<HashKey>)
    ensures h.None? <==> v.Array? || v.Object?
  {
    match v
    case Null => Some(NoneKey)
    case Bool(b) => Some(NumKey(if b then 1.0 else 0.0))
    case Int(i) => Some(NumKey(i as real))
    case Float(r) => Some(NumKey(r))
    case Str(s) => Some(StrKey(s))
    case Array(_) => None
    case Object(_) => None
  }

  /** Two hashable values land on the same set element exactly when Python
      calls them equal: numbers by value across bool, int and float, strings
      by content, and never a number and a string. */
  lemma HashEqualIff(a: Value, b: Value)
    requires Hash(a).Some? && Hash(b).Some?
    ensures Hash(a) == Hash(b) <==>
      || a == b
      || (Numeric(a) && Numeric(b) && NumericValue(a) == NumericValue(b))
  {
  }

  predicate Numeric(v: Value)
  {
    v.Bool? || v.Int? || v.Float?
  }

  function NumericValue(v: Value): real
    requires Numeric(v)
  {
    match v
    case Bool(b) => if b then 1.0 else 0.0
    case Int(i) => i as real
    case Float(r) => r
  }
}
