/** Translating metadata filters into a SQL predicate over a JSONB column, with positional parameters. */
module GaussFilter {
  import opened Wrappers
  import opened Text
  import opened Patterns
  import opened Documents
  import opened PythonValues
  import opened MetaFilter
  import E = EsFilter

  // ----- SQL --------------------------------------------------------------------------

  type Path = seq<string>

  /** The JSON constants that count as empty. */
  datatype Blank = JsonNull | BlankText | EmptyArray | EmptyObject

  function JsonOf(b: Blank): Json {
    match b
    case JsonNull => NULL
    case BlankText => Str("")
    case EmptyArray => Arr([])
    case EmptyObject => Obj([])
  }

  /** SQL predicates on the value (`#>`) and the text (`#>>`) at a path of the column. A comparison
      takes its right-hand side from the next parameter. */
  datatype Sql =
    | Always
    | KeyExists(path: Path)
    | KeyMissing(path: Path)
    | ValueIs(path: Path, blank: Blank)
    | TextEquals(path: Path)
    | HasString(path: Path)
    | Holds(path: Path)
    | TextLike(path: Path)
    | NumberCompares(path: Path, c: Comparison)
    | TimeCompares(path: Path, c: Comparison)
    | And(left: Sql, right: Sql)
    | Or(left: Sql, right: Sql)
    | Paren(inner: Sql)
    | IsNotTrue(inner: Sql)

  datatype Param = TextParam(s: string) | ValueParam(v: PyVal)

  /** How many parameters a predicate takes. */
  function Slots(e: Sql): nat {
    match e
    case And(l, r) => Slots(l) + Slots(r)
    case Or(l, r) => Slots(l) + Slots(r)
    case Paren(i) => Slots(i)
    case IsNotTrue(i) => Slots(i)
    case Always => 0
    case KeyExists(_) => 0
    case KeyMissing(_) => 0
    case ValueIs(_, _) => 0
    case _ => 1
  }

  /** SQL truth (section 6.34 of ISO/IEC 9075-2:2003). */
  datatype Truth = True | False | Unknown

  function And3(a: Truth, b: Truth): Truth {
    if a == False || b == False then False else if a == True && b == True then True else Truth.Unknown
  }

  function Or3(a: Truth, b: Truth): Truth {
    if a == True || b == True then True else if a == False && b == False then False else Truth.Unknown
  }

  function Of(b: bool): Truth {
    if b then True else False
  }

  /** What is taken from the database as it comes: `lower`, the text of values that are not strings,
      the element of an array at a path segment, a parameter read as JSON, and the reading of texts as
      numbers and as times. */
  datatype Database = Database(
    lower: string -> string,
    show: Json -> string,
    element: (seq<Json>, string) -> Option<Json>,
    parse: PyVal -> Json,
    number: string -> Option<real>,
    time: string -> Option<int>)

  function ValueAt(db: Database, j: Json, path: Path): Option<Json>
    decreases |path|
  {
    if path == [] then Some(j)
    else
      var next := match j
        case Obj(fields) => Get(fields, path[0])
        case Arr(items) => db.element(items, path[0])
        case _ => None;
      if next.None? then None else ValueAt(db, next.value, path[1..])
  }

  /** JSON null has no text. */
  function TextAt(db: Database, j: Json, path: Path): Option<string> {
    match ValueAt(db, j, path)
    case None => None
    case Some(Str(s)) => Some(s)
    case Some(v) => if v == NULL then None else Some(db.show(v))
  }

  /** `jsonb_exists`: a key of an object, a string in an array, or the string itself. */
  predicate StringIn(j: Json, s: string) {
    match j
    case Obj(fields) => Get(fields, s).Some?
    case Arr(items) => Str(s) in items
    case Str(t) => t == s
    case Atom(_) => false
  }

  /** `@>` with a scalar on the right. */
  predicate HoldsScalar(j: Json, scalar: Json) {
    j == scalar || (j.Arr? && scalar in j.items)
  }

  predicate ComparesNumbers(c: Comparison, a: real, b: real) {
    match c
    case Equal => a == b
    case NotEqual => a != b
    case Greater => a > b
    case Less => a < b
    case AtLeast => a >= b
    case AtMost => a <= b
  }

  function Leaf(db: Database, j: Json, e: Sql, p: Param): Truth
    requires Slots(e) == 1 && !e.And? && !e.Or? && !e.Paren? && !e.IsNotTrue?
  {
    var value, text := ValueAt(db, j, e.path), TextAt(db, j, e.path);
    match e
    case TextEquals(_) => if text.None? || !p.TextParam? then Truth.Unknown else Of(db.lower(text.value) == p.s)
    case HasString(_) => if value.None? || !p.TextParam? then Truth.Unknown else Of(StringIn(value.value, p.s))
    case Holds(_) => if value.None? || !p.ValueParam? then Truth.Unknown else Of(HoldsScalar(value.value, db.parse(p.v)))
    case TextLike(_) =>
      if text.None? || !p.TextParam? || Like(db.lower(text.value), p.s).None? then Truth.Unknown
      else Of(Like(db.lower(text.value), p.s).value)
    case NumberCompares(_, c) =>
      if text.None? || db.number(text.value).None? || !p.ValueParam? || !IsNumber(p.v) then False
      else Of(ComparesNumbers(c, db.number(text.value).value, Number(p.v)))
    case TimeCompares(_, c) =>
      if text.None? || db.time(text.value).None? || !p.TextParam? || db.time(p.s).None? then Truth.Unknown
      else Of(ComparesNumbers(c, db.time(text.value).value as real, db.time(p.s).value as real))
  }

  /** Parameters are handed out from left to right as the placeholders stand in the text. */
  function Eval(db: Database, j: Json, e: Sql, params: seq<Param>): Truth
    requires |params| == Slots(e)
  {
    match e
    case Always => True
    case KeyExists(path) => Of(ValueAt(db, j, path).Some?)
    case KeyMissing(path) => Of(ValueAt(db, j, path).None?)
    case ValueIs(path, v) => if ValueAt(db, j, path).None? then Truth.Unknown else Of(ValueAt(db, j, path).value == JsonOf(v))
    case And(l, r) => And3(Eval(db, j, l, params[..Slots(l)]), Eval(db, j, r, params[Slots(l)..]))
    case Or(l, r) => Or3(Eval(db, j, l, params[..Slots(l)]), Eval(db, j, r, params[Slots(l)..]))
    case Paren(i) => Eval(db, j, i, params)
    case IsNotTrue(i) => Of(Eval(db, j, i, params) != True)
    case _ => Leaf(db, j, e, params[0])
  }

  // ----- Keys ----------------------------------------------------------------------------

  function SplitDots(text: string): (parts: seq<string>)
    ensures parts != []
  {
    if text == [] then [""]
    else
      var rest := SplitDots(text[1..]);
      if text[0] == '.' then [""] + rest else [[text[0]] + rest[0]] + rest[1..]
  }

  datatype Unsupported =
    | InvalidKey
    | UnknownOperator
    | NoValue
    | NotScalar
    | EmptyText
    | NoMembers
    | BadRange
    | UnknownLogic

  function PathOf(key: PyVal): Result<Path, Unsupported> {
    if !key.PStr? || key.s == "" then Err(InvalidKey)
    else
      var parts := SplitDots(key.s);
      if exists p :: p in parts && (p == "" || '\0' in p) then Err(InvalidKey) else Ok(parts)
  }

  // ----- Values ----------------------------------------------------------------------------

  predicate IsCompound(py: Python, v: PyVal) {
    v.PList? || v.PTuple? || (v.POther? && py.isDict(v.id))
  }

  /** Text that spells a number, a boolean or None stands for it; other text stays as it is. */
  function CoerceScalar(py: Python, v: PyVal): Result<PyVal, Unsupported> {
    if IsCompound(py, v) then Err(NotScalar)
    else if v.PStr? && Strip(v.s) != "" then
      match py.literal(Strip(v.s))
      case Some(PNum(n)) => Ok(PNum(n))
      case Some(PBool(b)) => Ok(PBool(b))
      case Some(PNone) => Ok(PNone)
      case _ => Ok(v)
    else Ok(v)
  }

  function CoerceString(py: Python, v: PyVal): Result<string, Unsupported> {
    if v.PNone? || IsCompound(py, v) then Err(NotScalar)
    else if Show(py, v) == "" then Err(EmptyText)
    else Ok(Show(py, v))
  }

  function RawMembers(py: Python, v: PyVal): seq<PyVal> {
    match v
    case PList(items) => items
    case PTuple(items) => items
    case PStr(s) =>
      (match py.literal(Strip(s))
       case Some(PList(items)) => items
       case Some(PTuple(items)) => items
       case _ => E.Trimmed(E.SplitCommas(s)))
    case _ => [v]
  }

  function CoerceAll(py: Python, vs: seq<PyVal>): (r: Result<seq<PyVal>, Unsupported>)
    ensures r.Ok? ==> |r.value| == |vs|
  {
    if vs == [] then Ok([])
    else match (CoerceScalar(py, vs[0]), CoerceAll(py, vs[1..]))
      case (Err(e), _) => Err(e)
      case (Ok(v), Err(e)) => Err(e)
      case (Ok(v), Ok(rest)) => Ok([v] + rest)
  }

  function Members(py: Python, v: PyVal): Result<seq<PyVal>, Unsupported> {
    if v.PNone? then Err(NoValue)
    else if RawMembers(py, v) == [] then Err(NoMembers)
    else CoerceAll(py, RawMembers(py, v))
  }

  /** Reading a text as a date or time prefix, and as a plain decimal number. */
  datatype Reader = Reader(datetime: string -> Option<string>, decimal: string -> Option<real>)

  datatype Bound = NumberBound(n: real) | TimeBound(s: string)

  function CoerceRange(py: Python, rd: Reader, v: PyVal): Result<Bound, Unsupported> {
    match v
    case PNone => Err(NoValue)
    case PBool(_) => Err(BadRange)
    case PNum(n) => Ok(NumberBound(n))
    case _ =>
      var text := Strip(Show(py, v));
      if rd.datetime(text).Some? then Ok(TimeBound(rd.datetime(text).value))
      else match py.literal(text)
        case Some(PNum(n)) => Ok(NumberBound(n))
        case _ => if rd.decimal(text).Some? then Ok(NumberBound(rd.decimal(text).value)) else Err(BadRange)
  }

  // ----- Translating one filter ------------------------------------------------------------------

  datatype Translated = Translated(sql: Sql, params: seq<Param>)

  /** Equality with a coerced value. */
  function EqualTo(py: Python, path: Path, v: PyVal): Translated {
    match v
    case PNone => Translated(And(KeyExists(path), ValueIs(path, JsonNull)), [])
    case PStr(s) =>
      if s == "" then Translated(ValueIs(path, BlankText), [])
      else Translated(Or(TextEquals(path), HasString(path)), [TextParam(Lower(py, s)), TextParam(Lower(py, s))])
    case _ => Translated(Holds(path), [ValueParam(v)])
  }

  function EqualPredicate(py: Python, path: Path, v: PyVal): Result<Translated, Unsupported> {
    match CoerceScalar(py, v)
    case Err(e) => Err(e)
    case Ok(s) => Ok(EqualTo(py, path, s))
  }

  /** One equality per member, with the parameters of all of them. */
  datatype Fragments = Fragments(sqls: seq<Sql>, params: seq<Param>)

  function MembershipPredicates(py: Python, path: Path, ms: seq<PyVal>): (r: Result<Fragments, Unsupported>)
    ensures r.Ok? ==> |r.value.sqls| == |ms|
  {
    if ms == [] then Ok(Fragments([], []))
    else
      var last := |ms| - 1;
      match (MembershipPredicates(py, path, ms[..last]), EqualPredicate(py, path, ms[last]))
      case (Err(e), _) => Err(e)
      case (Ok(fs), Err(e)) => Err(e)
      case (Ok(fs), Ok(t)) => Ok(Fragments(fs.sqls + [t.sql], fs.params + t.params))
  }

  /** The predicates one after the other, each in parentheses, with OR between them. */
  function JoinOr(sqls: seq<Sql>): Sql
    requires sqls != []
  {
    var last := |sqls| - 1;
    if last == 0 then Paren(sqls[0]) else Or(JoinOr(sqls[..last]), Paren(sqls[last]))
  }

  /** The same with AND between them. */
  function JoinAnd(sqls: seq<Sql>): Sql
    requires sqls != []
  {
    var last := |sqls| - 1;
    if last == 0 then Paren(sqls[0]) else And(JoinAnd(sqls[..last]), Paren(sqls[last]))
  }

  /** The key exists and none of the fragments is true. */
  function JoinDenied(path: Path, sqls: seq<Sql>): Sql {
    if sqls == [] then KeyExists(path)
    else And(JoinDenied(path, sqls[..|sqls| - 1]), IsNotTrue(sqls[|sqls| - 1]))
  }

  function TranslateMembers(py: Python, path: Path, op: Op, v: PyVal): Result<Translated, Unsupported> {
    match Members(py, v)
    case Err(e) => Err(e)
    case Ok(ms) =>
      match MembershipPredicates(py, path, ms)
      case Err(e) => Err(e)
      case Ok(fs) =>
        if op == NotIn then Ok(Translated(JoinDenied(path, fs.sqls), fs.params))
        else Ok(Translated(JoinOr(fs.sqls), fs.params))
  }

  function Denied(path: Path, t: Translated): Translated {
    Translated(And(KeyExists(path), IsNotTrue(t.sql)), t.params)
  }

  function ContainsPredicate(py: Python, path: Path, t: string): Translated {
    Translated(Or(HasString(path), TextLike(path)),
               [TextParam(Lower(py, t)), TextParam("%" + EscapeLike(Lower(py, t)) + "%")])
  }

  function TranslateText(py: Python, path: Path, op: Op, v: PyVal): Result<Translated, Unsupported> {
    match CoerceString(py, v)
    case Err(e) => Err(e)
    case Ok(t) =>
      match op
      case Contains => Ok(ContainsPredicate(py, path, t))
      case NotContains => Ok(Denied(path, ContainsPredicate(py, path, t)))
      case StartWith => Ok(Translated(TextLike(path), [TextParam(EscapeLike(Lower(py, t)) + "%")]))
      case _ => Ok(Translated(TextLike(path), [TextParam("%" + EscapeLike(Lower(py, t)))]))
  }

  function TranslateCompare(py: Python, rd: Reader, path: Path, c: Comparison, v: PyVal): Result<Translated, Unsupported> {
    if c == Equal || c == NotEqual then
      match EqualPredicate(py, path, v)
      case Err(e) => Err(e)
      case Ok(t) => if c == Equal then Ok(t) else Ok(Denied(path, t))
    else
      match CoerceRange(py, rd, v)
      case Err(e) => Err(e)
      case Ok(NumberBound(n)) => Ok(Translated(NumberCompares(path, c), [ValueParam(PNum(n))]))
      case Ok(TimeBound(s)) => Ok(Translated(TimeCompares(path, c), [TextParam(s)]))
  }

  const BLANKS := [JsonNull, BlankText, EmptyArray, EmptyObject]

  /** The key is missing or its value is one of the constants. */
  function OrBlanks(path: Path, blanks: seq<Blank>): Sql {
    if blanks == [] then KeyMissing(path)
    else Or(OrBlanks(path, blanks[..|blanks| - 1]), ValueIs(path, blanks[|blanks| - 1]))
  }

  /** The key exists and its value is none of the constants. */
  function AndNoBlanks(path: Path, blanks: seq<Blank>): Sql {
    if blanks == [] then KeyExists(path)
    else And(AndNoBlanks(path, blanks[..|blanks| - 1]), IsNotTrue(ValueIs(path, blanks[|blanks| - 1])))
  }

  function Translate(py: Python, rd: Reader, f: Filter): Result<Translated, Unsupported> {
    match PathOf(f.key)
    case Err(e) => Err(e)
    case Ok(path) =>
      match f.op
      case Unknown(_) => Err(UnknownOperator)
      case Empty => Ok(Translated(OrBlanks(path, BLANKS), []))
      case NotEmpty => Ok(Translated(AndNoBlanks(path, BLANKS), []))
      case Compares(c) => TranslateCompare(py, rd, path, c, f.value)
      case In => TranslateMembers(py, path, f.op, f.value)
      case NotIn => TranslateMembers(py, path, f.op, f.value)
      case _ => TranslateText(py, path, f.op, f.value)
  }

  // ----- Composing a predicate ----------------------------------------------------------------------

  function TranslateAll(py: Python, rd: Reader, filters: seq<Filter>): Result<seq<Translated>, Unsupported> {
    if filters == [] then Ok([])
    else
      var last := |filters| - 1;
      match (TranslateAll(py, rd, filters[..last]), Translate(py, rd, filters[last]))
      case (Err(e), _) => Err(e)
      case (Ok(ts), Err(e)) => Err(e)
      case (Ok(ts), Ok(t)) => Ok(ts + [t])
  }

  function SqlsOf(ts: seq<Translated>): (sqls: seq<Sql>)
    ensures |sqls| == |ts| && forall i :: 0 <= i < |ts| ==> sqls[i] == ts[i].sql
  {
    seq(|ts|, i requires 0 <= i < |ts| => ts[i].sql)
  }

  function ParamsOf(ts: seq<Translated>): seq<Param> {
    if ts == [] then [] else ParamsOf(ts[..|ts| - 1]) + ts[|ts| - 1].params
  }

  function ToPredicate(logic: string, ts: seq<Translated>): Translated {
    if ts == [] then Translated(Always, [])
    else Translated(if logic == "and" then JoinAnd(SqlsOf(ts)) else JoinOr(SqlsOf(ts)), ParamsOf(ts))
  }

  function FilterFor(py: Python, rd: Reader, filters: seq<Filter>, logic: string): Result<Translated, Unsupported> {
    if logic != "and" && logic != "or" then Err(UnknownLogic)
    else match TranslateAll(py, rd, filters)
      case Err(e) => Err(e)
      case Ok(ts) => Ok(ToPredicate(logic, ts))
  }

  // ----- The loops of the program ------------------------------------------------------------------

  method CollectMembers(py: Python, path: Path, ms: seq<PyVal>) returns (result: Result<Fragments, Unsupported>)
    ensures result == MembershipPredicates(py, path, ms)
  {
    var sqls: seq<Sql>, params: seq<Param> := [], [];
    for i := 0 to |ms|
      invariant MembershipPredicates(py, path, ms[..i]) == Ok(Fragments(sqls, params))
    {
      var t := EqualPredicate(py, path, ms[i]);
      assert ms[..i + 1][..i] == ms[..i];
      if t.Err? {
        FailedMembers(py, path, ms, i + 1, t.error);
        return Err(t.error);
      }
      sqls := sqls + [t.value.sql];
      params := params + t.value.params;
    }
    assert ms[..|ms|] == ms;
    return Ok(Fragments(sqls, params));
  }

  lemma {:induction false} FailedMembers(py: Python, path: Path, ms: seq<PyVal>, n: nat, e: Unsupported)
    requires n <= |ms| && MembershipPredicates(py, path, ms[..n]) == Err(e)
    ensures MembershipPredicates(py, path, ms) == Err(e)
    decreases |ms|
  {
    if n < |ms| {
      assert ms[..|ms| - 1][..n] == ms[..n];
      FailedMembers(py, path, ms[..|ms| - 1], n, e);
    } else {
      assert ms[..n] == ms;
    }
  }

  method CollectParams(ts: seq<Translated>) returns (params: seq<Param>)
    ensures params == ParamsOf(ts)
  {
    params := [];
    for i := 0 to |ts|
      invariant params == ParamsOf(ts[..i])
    {
      assert ts[..i + 1][..i] == ts[..i];
      params := params + ts[i].params;
    }
    assert ts[..|ts|] == ts;
  }
}
