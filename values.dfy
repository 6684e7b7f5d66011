/** The scalar values that appear in the scenario documents, the trigger
    records and the spreadsheet cells, with the three Python operations the
    code applies to them: `isinstance(v, int)`, truthiness and `str(v)`. */
module PyValues {
  import opened Wrappers
  import Text

  /** A JSON / spreadsheet scalar. A float is kept as its printed text. */
  datatype Value =
    | VInt(i: int)
    | VBool(b: bool)
    | VFloat(text: string)
    | VStr(s: string)
    | VNone

  /** `isinstance(v, int)`, with the integer it stands for: Python's bool is a
      subclass of int, so True and False count as 1 and 0. */
  function AsInt(v: Value): (r: Option<int>)
    ensures r.Some? <==> v.VInt? || v.VBool?
    ensures v.VInt? ==> r == Some(v.i)
  {
    match v
    case VInt(i) => Some(i)
    case VBool(b) => Some(if b then 1 else 0)
    case _ => None
  }

  /** `v == n` for an int `n` (an int-valued float is not modelled as equal). */
  predicate EqualsInt(v: Value, n: int) {
    AsInt(v) == Some(n)
  }

  /** `bool(v)` */
  predicate Truthy(v: Value) {
    match v
    case VInt(i) => i != 0
    case VBool(b) => b
    case VFloat(t) => t != "0.0" && t != "-0.0"
    case VStr(s) => s != ""
    case VNone => false
  }

  /** `str(v)` */
  function Str(v: Value): (r: string)
    ensures v.VStr? ==> r == v.s
  {
    match v
    case VInt(i) => Text.IntToString(i)
    case VBool(b) => if b then "True" else "False"
    case VFloat(t) => t
    case VStr(s) => s
    case VNone => "None"
  }

  /** `d.get(key) == s` for a key that may be absent (None) */
  predicate IsStr(v: Option<Value>, s: string) {
    v == Some(VStr(s))
  }
}
