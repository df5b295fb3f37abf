/** The Python values that metadata filters work on, and what Python does with them. */
module PythonValues {
  import opened Wrappers
  import opened Patterns

  /** `POther` stands for dictionaries and whatever else a value may be. */
  datatype PyVal =
    | PNone
    | PBool(b: bool)
    | PNum(n: real)
    | PStr(s: string)
    | PList(items: seq<PyVal>)
    | PTuple(items: seq<PyVal>)
    | POther(id: int)

  datatype Comparison = Equal | NotEqual | Greater | Less | AtLeast | AtMost

  /** What is taken from Python as it comes: lower-casing and digit tests per character (`isdigit`
      and the `\d` of regular expressions), `ast.literal_eval`, `str` of values that are not strings,
      ordering of values that are neither two numbers nor two strings, and the truth, the membership
      and the type of the other values. */
  datatype Python = Python(
    lower: char -> char,
    isDigit: char -> bool,
    isDecimal: char -> bool,
    literal: string -> Option<PyVal>,
    show: PyVal -> string,
    order: (Comparison, PyVal, PyVal) -> Option<bool>,
    truthy: int -> bool,
    contains: (int, PyVal) -> Option<bool>,
    isDict: int -> bool)

  function Show(py: Python, v: PyVal): string {
    if v.PStr? then v.s else py.show(v)
  }

  function Lower(py: Python, s: string): string {
    Map(py.lower, s)
  }

  predicate IsNumber(v: PyVal) {
    v.PNum? || v.PBool?
  }

  /** Booleans are the numbers 0 and 1. */
  function Number(v: PyVal): real
    requires IsNumber(v)
  {
    if v.PNum? then v.n else if v.b then 1.0 else 0.0
  }

  predicate Same(a: PyVal, b: PyVal) {
    if IsNumber(a) && IsNumber(b) then Number(a) == Number(b)
    else if (a.PList? && b.PList?) || (a.PTuple? && b.PTuple?) then |a.items| == |b.items| && forall i | 0 <= i < |a.items| :: Same(a.items[i], b.items[i])
    else a == b
  }

  /** Lexicographic order by code point. */
  predicate Before(a: string, b: string) {
    b != [] && (a == [] || a[0] < b[0] || (a[0] == b[0] && Before(a[1..], b[1..])))
  }

  /** A comparison, or nothing where Python raises an error. */
  function Compare(py: Python, op: Comparison, a: PyVal, b: PyVal): Option<bool> {
    if op == Equal then Some(Same(a, b))
    else if op == NotEqual then Some(!Same(a, b))
    else if IsNumber(a) && IsNumber(b) then
      Some(if op == Greater then Number(a) > Number(b)
           else if op == Less then Number(a) < Number(b)
           else if op == AtLeast then Number(a) >= Number(b)
           else Number(a) <= Number(b))
    else if a.PStr? && b.PStr? then
      Some(if op == Greater then Before(b.s, a.s)
           else if op == Less then Before(a.s, b.s)
           else if op == AtLeast then !Before(a.s, b.s)
           else !Before(b.s, a.s))
    else py.order(op, a, b)
  }

  /** `ast.literal_eval`, which only reads text. */
  function Literally(py: Python, v: PyVal): Option<PyVal> {
    if v.PStr? then py.literal(v.s) else None
  }

  predicate Truthy(py: Python, v: PyVal) {
    match v
    case PNone => false
    case PBool(b) => b
    case PNum(n) => n != 0.0
    case PStr(s) => s != ""
    case PList(items) => items != []
    case PTuple(items) => items != []
    case POther(id) => py.truthy(id)
  }

  /** `x in v`, or nothing where Python raises an error. */
  function In(py: Python, x: PyVal, v: PyVal): Option<bool> {
    match v
    case PStr(s) => if x.PStr? then Some(Occurs(x.s, s)) else None
    case PList(items) => Some(exists i | 0 <= i < |items| :: Same(x, items[i]))
    case PTuple(items) => Some(exists i | 0 <= i < |items| :: Same(x, items[i]))
    case POther(id) => py.contains(id, x)
    case _ => None
  }

  function LowerIfText(py: Python, v: PyVal): PyVal {
    if v.PStr? then PStr(Lower(py, v.s)) else v
  }
}
