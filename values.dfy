/**
 * The dynamically typed values the daemon keeps in its argument
 * dictionaries (argparse results and the modules' templates), with
 * Python's truthiness, `str()`, `repr()` and `==`.
 */
module Values {
  import opened Wrappers
  import opened Text

  /**
   * A float is kept as the text Python's `repr` gives for it; the model
   * never does arithmetic on floats that are only printed.
   */
  datatype Value =
    | VNone
    | VStr(s: string)
    | VBool(b: bool)
    | VInt(i: int)
    | VFloat(text: string)
    | VList(items: seq<Value>)

  /** `bool(v)`. */
  predicate Truthy(v: Value) {
    match v
    case VNone => false
    case VStr(s) => s != []
    case VBool(b) => b
    case VInt(i) => i != 0
    case VFloat(t) => t != "0.0" && t != "-0.0"
    case VList(items) => items != []
  }

  /** `str(v)`. */
  function Show(v: Value): string {
    match v
    case VStr(s) => s
    case VList(items) => "[" + ReprList(items) + "]"
    case _ => Repr(v)
  }

  /** `repr(v)`; quotes inside strings are not escaped in this model. */
  function Repr(v: Value): string
    decreases v, 1
  {
    match v
    case VNone => "None"
    case VStr(s) => "'" + s + "'"
    case VBool(b) => if b then "True" else "False"
    case VInt(i) => IntToString(i)
    case VFloat(t) => t
    case VList(items) => "[" + ReprList(items) + "]"
  }

  /** `", ".join(repr(x) for x in items)`. */
  function ReprList(items: seq<Value>): string
    decreases items, 0
  {
    if items == [] then ""
    else if |items| == 1 then Repr(items[0])
    else Repr(items[0]) + ", " + ReprList(items[1..])
  }

  /**
   * Python `==` on these values: `True == 1` and `False == 0` hold across
   * `bool` and `int`; otherwise values of different kinds differ.
   */
  predicate PyEq(a: Value, b: Value) {
    match (a, b)
    case (VBool(x), VInt(y)) => y == (if x then 1 else 0)
    case (VInt(x), VBool(y)) => x == (if y then 1 else 0)
    case _ => a == b
  }

  /** `d.get(k)`. */
  function Get(d: map<string, Value>, k: string): Value {
    if k in d then d[k] else VNone
  }

  /** `d.get(k) or []` where the value is expected to be a list. */
  function ListOrEmpty(v: Value): seq<Value> {
    if v.VList? then v.items else []
  }

  /**
   * `int(v)`: integers as they are, booleans as 0 and 1, strings parsed as
   * Python does; anything else raises (here `None`).
   */
  function IntOf(v: Value): (r: Option<int>)
    ensures v.VInt? ==> r == Some(v.i)
    ensures v.VStr? ==> r == ParseInt(v.s)
    ensures v.VNone? || v.VList? ==> r.None?
  {
    match v
    case VInt(i) => Some(i)
    case VBool(b) => Some(if b then 1 else 0)
    case VStr(s) => ParseInt(s)
    case _ => None
  }

  /**
   * `v[0]`: the first item of a list or the first character of a string;
   * indexing anything else, or an empty one, raises (here `None`).
   */
  function Item0(v: Value): Option<Value> {
    match v
    case VList(items) => if items != [] then Some(items[0]) else None
    case VStr(s) => if s != [] then Some(VStr([s[0]])) else None
    case _ => None
  }
}
