/**
 * The Python values stored in the analyser's per-file records and attribute
 * maps, with the two operations the filters apply to them: truthiness and
 * `==` (where `True == 1` and `False == 0`, because `bool` is an `int`).
 */
module PyValue {
  import opened Wrappers

  datatype Val =
    | VNone
    | VBool(b: bool)
    | VInt(i: int)
    | VStr(s: string)
    | VList(items: seq<string>)

  /** `bool(v)`. */
  predicate Truthy(v: Val)
  {
    match v
    case VNone => false
    case VBool(b) => b
    case VInt(i) => i != 0
    case VStr(s) => s != []
    case VList(xs) => xs != []
  }

  /** The integer a `bool` or `int` stands for, used by `==` across the two types. */
  function AsInt(v: Val): Option<int>
  {
    match v
    case VBool(b) => Some(if b then 1 else 0)
    case VInt(i) => Some(i)
    case _ => None
  }

  /** Python `a == b` on these values. */
  predicate PyEq(a: Val, b: Val)
  {
    if AsInt(a).Some? && AsInt(b).Some? then AsInt(a).value == AsInt(b).value else a == b
  }

  lemma PyEqSymmetric(a: Val, b: Val)
    ensures PyEq(a, b) == PyEq(b, a)
  {
  }

  /** A per-file record (`dict`); `r.get(key)` is `VNone` for a missing key. */
  type Record = map<string, Val>

  function Get(r: Record, key: string): (v: Val)
    ensures key !in r ==> v == VNone
  {
    if key in r then r[key] else VNone
  }

  /** An object whose attributes `hasattr`/`getattr` inspect. */
  datatype Obj = Obj(name: string, attrs: map<string, Val>)

  predicate HasAttr(o: Obj, key: string)
  {
    key in o.attrs
  }

  /** `getattr(o, key)`: raises `AttributeError` when the attribute is missing. */
  function GetAttr(o: Obj, key: string): (r: Result<Val>)
    ensures r.Ok? <==> HasAttr(o, key)
    ensures r.Ok? ==> r.value == o.attrs[key]
  {
    if key in o.attrs then Ok(o.attrs[key]) else Err(AttributeMissing(key))
  }

  /** Keyword criteria: `key=expected` pairs, in the order they were written. */
  type Criteria = seq<(string, Val)>
}
