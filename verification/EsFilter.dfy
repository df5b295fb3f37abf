/** Translating metadata filters into an Elasticsearch `bool` query, and what such a query accepts. */
module EsFilter {
  import opened Wrappers
  import opened Text
  import opened Patterns
  import opened PythonValues
  import opened MetaFilter
  import opened MetaIndex

  const PREFIX := "meta_fields"

  // ----- Queries ------------------------------------------------------------------

  /** A field as mapped, or its `.keyword` sub-field that keeps strings whole. */
  datatype FieldRef = Parent(path: string) | Keyword(path: string)

  datatype Clause =
    | Exists(path: string)
    | Term(field: FieldRef, value: PyVal)
    | FoldedTerm(field: FieldRef, text: string)
    | Terms(path: string, values: seq<PyVal>)
    | Prefix(field: FieldRef, text: string)
    | Wildcard(field: FieldRef, pattern: string)
    | Range(path: string, c: Comparison, bound: PyVal)
    | InBases(kbs: seq<string>)
    | Bool(must: seq<Clause>, filter: seq<Clause>, should: seq<Clause>, mustNot: seq<Clause>)

  /** What depends on the index mapping: whether a number, a boolean or a range matches a field, and
      the keyword a value that is no string is stored under. */
  datatype Engine = Engine(
    term: (Document, string, PyVal) -> bool,
    range: (Document, string, Comparison, PyVal) -> bool,
    keyword: PyVal -> Option<string>)

  /** Case-insensitive clauses fold ASCII letters only. */
  function AsciiLower(c: char): char {
    if 'A' <= c <= 'Z' then c + 32 as char else c
  }

  function Folded(s: string): string {
    Map(AsciiLower, s)
  }

  /** The values stored under a dotted path. */
  function StoredValues(doc: Document, path: string): seq<PyVal> {
    var n := |PREFIX| + 1;
    if StartsWith(path, PREFIX + ".") && path[n..] in doc.meta then Values(doc.meta[path[n..]]) else []
  }

  predicate IsPresent(doc: Document, path: string) {
    exists v :: v in StoredValues(doc, path) && v != PNone
  }

  function KeywordOf(es: Engine, v: PyVal): Option<string> {
    match v
    case PStr(s) => Some(s)
    case PNone => None
    case _ => es.keyword(v)
  }

  predicate HasKeyword(es: Engine, doc: Document, field: FieldRef, s: string) {
    field.Keyword? && exists v :: v in StoredValues(doc, field.path) && KeywordOf(es, v) == Some(s)
  }

  /** Whether a document matches a clause. A `bool` with no clauses at all matches everything; one
      with `should` clauses asks for at least one of them. */
  ghost predicate Matched(es: Engine, doc: Document, c: Clause)
    decreases c
  {
    match c
    case Exists(path) => IsPresent(doc, path)
    case Term(field, v) => if field.Parent? then es.term(doc, field.path, v) else v.PStr? && HasKeyword(es, doc, field, v.s)
    case FoldedTerm(field, t) => exists s :: HasKeyword(es, doc, field, s) && Folded(s) == Folded(t)
    case Terms(path, values) => exists v :: v in values && es.term(doc, path, v)
    case Prefix(field, t) => exists s :: HasKeyword(es, doc, field, s) && StartsWith(Folded(s), Folded(t))
    case Wildcard(field, p) => exists s :: HasKeyword(es, doc, field, s) && WildcardFinds(AsciiLower, p, s)
    case Range(path, op, v) => es.range(doc, path, op, v)
    case InBases(kbs) => doc.kb in kbs
    case Bool(must, filter, should, mustNot) =>
      && (forall i | 0 <= i < |must| :: Matched(es, doc, must[i]))
      && (forall i | 0 <= i < |filter| :: Matched(es, doc, filter[i]))
      && (should != [] ==> exists i | 0 <= i < |should| :: Matched(es, doc, should[i]))
      && (forall i | 0 <= i < |mustNot| :: !Matched(es, doc, mustNot[i]))
  }

  // ----- Values -------------------------------------------------------------------------

  datatype Unsupported =
    | MissingKey
    | UnknownOperator
    | NoValue
    | NotScalar
    | EmptyText
    | NoMembers
    | UnknownLogic

  predicate IsIsoDate(py: Python, s: string) {
    |s| == 10 && s[4] == '-' && s[7] == '-' && forall i | 0 <= i < 10 && i != 4 && i != 7 :: py.isDecimal(s[i])
  }

  predicate IsCompound(py: Python, v: PyVal) {
    v.PList? || (v.POther? && py.isDict(v.id))
  }

  /** A value for an exact comparison: a date as it is, a literal parsed, text in lower case. */
  function CoerceScalar(py: Python, v: PyVal): Result<PyVal, Unsupported> {
    if v.PNone? then Err(NoValue)
    else if IsCompound(py, v) then Err(NotScalar)
    else
      var s := Strip(Show(py, v));
      if IsIsoDate(py, s) then Ok(PStr(s))
      else match py.literal(s)
        case Some(PStr(t)) => Ok(PStr(Lower(py, t)))
        case Some(PNum(n)) => Ok(PNum(n))
        case Some(PBool(b)) => Ok(PBool(b))
        case _ => Ok(PStr(Lower(py, s)))
  }

  function CoerceRange(py: Python, v: PyVal): Result<PyVal, Unsupported> {
    if v.PNone? then Err(NoValue)
    else
      var s := Strip(Show(py, v));
      if IsIsoDate(py, s) then Ok(PStr(s))
      else match py.literal(s)
        case Some(PNum(n)) => Ok(PNum(n))
        case Some(PBool(b)) => Ok(PBool(b))
        case _ => Ok(PStr(s))
  }

  function CoerceString(py: Python, v: PyVal): Result<string, Unsupported> {
    if v.PNone? then Err(NoValue)
    else if IsCompound(py, v) then Err(NotScalar)
    else if Show(py, v) == "" then Err(EmptyText)
    else Ok(Show(py, v))
  }

  /** The parts of a text between its commas. */
  function SplitCommas(text: string): (parts: seq<string>)
    ensures parts != []
  {
    if text == [] then [""]
    else
      var rest := SplitCommas(text[1..]);
      if text[0] == ',' then [""] + rest else [[text[0]] + rest[0]] + rest[1..]
  }

  /** The parts that are not blank, trimmed. */
  function Trimmed(parts: seq<string>): seq<PyVal> {
    if parts == [] then []
    else (if Strip(parts[0]) == "" then [] else [PStr(Strip(parts[0]))]) + Trimmed(parts[1..])
  }

  function RawMembers(py: Python, v: PyVal): seq<PyVal> {
    match v
    case PList(items) => items
    case PTuple(items) => items
    case PStr(s) =>
      (match py.literal(s)
       case Some(PList(items)) => items
       case Some(PTuple(items)) => items
       case _ => Trimmed(SplitCommas(s)))
    case _ => [v]
  }

  function NormalMember(py: Python, m: PyVal): PyVal {
    if m.PStr? then PStr(Strip(Lower(py, m.s))) else m
  }

  function NormalMembers(py: Python, ms: seq<PyVal>): seq<PyVal> {
    if ms == [] then [] else [NormalMember(py, ms[0])] + NormalMembers(py, ms[1..])
  }

  /** A list, or a comma-separated text. */
  function Members(py: Python, v: PyVal): Result<seq<PyVal>, Unsupported> {
    if v.PNone? then Err(NoValue)
    else if RawMembers(py, v) == [] then Err(NoMembers)
    else Ok(NormalMembers(py, RawMembers(py, v)))
  }

  // ----- Translating one filter -------------------------------------------------------------

  /** A filter as the clauses a document must and must not match. */
  datatype Translated = Translated(must: seq<Clause>, mustNot: seq<Clause>)

  function FieldName(key: string): string {
    PREFIX + "." + key
  }

  function TermOrMatch(path: string, v: PyVal): Clause {
    if v.PStr? then FoldedTerm(Keyword(path), v.s) else Term(Parent(path), v)
  }

  function TermsOf(path: string, ms: seq<PyVal>): (cs: seq<Clause>)
    ensures |cs| == |ms| && forall i :: 0 <= i < |ms| ==> cs[i] == TermOrMatch(path, ms[i])
  {
    seq(|ms|, i requires 0 <= i < |ms| => TermOrMatch(path, ms[i]))
  }

  function AnyMember(path: string, ms: seq<PyVal>): Clause {
    if forall m :: m in ms ==> !m.PStr? then Terms(path, ms) else Bool([], [], TermsOf(path, ms), [])
  }

  function Positive(c: Clause): Result<Translated, Unsupported> {
    Ok(Translated([c], []))
  }

  function Negative(path: string, c: Clause): Result<Translated, Unsupported> {
    Ok(Translated([Exists(path)], [c]))
  }

  function TranslateCompare(py: Python, path: string, c: Comparison, v: PyVal): Result<Translated, Unsupported> {
    if c == Equal || c == NotEqual then
      match CoerceScalar(py, v)
      case Err(e) => Err(e)
      case Ok(s) => if c == Equal then Positive(TermOrMatch(path, s)) else Negative(path, TermOrMatch(path, s))
    else
      match CoerceRange(py, v)
      case Err(e) => Err(e)
      case Ok(s) => Ok(Translated([Exists(path), Range(path, c, s)], []))
  }

  function TranslateText(py: Python, path: string, op: Op, v: PyVal): Result<Translated, Unsupported>
    requires op in {Contains, NotContains, StartWith, EndWith}
  {
    match CoerceString(py, v)
    case Err(e) => Err(e)
    case Ok(t) =>
      match op
      case Contains => Positive(Wildcard(Keyword(path), "*" + EscapeWildcard(t) + "*"))
      case NotContains => Negative(path, Wildcard(Keyword(path), "*" + EscapeWildcard(t) + "*"))
      case StartWith => Positive(Prefix(Keyword(path), t))
      case _ => Positive(Wildcard(Keyword(path), "*" + EscapeWildcard(t)))
  }

  function TranslateMembers(py: Python, path: string, op: Op, v: PyVal): Result<Translated, Unsupported> {
    match Members(py, v)
    case Err(e) => Err(e)
    case Ok(ms) => if op == MetaFilter.In then Positive(AnyMember(path, ms)) else Negative(path, AnyMember(path, ms))
  }

  function Translate(py: Python, f: Filter): Result<Translated, Unsupported> {
    if !f.key.PStr? || f.key.s == "" then Err(MissingKey)
    else
      var path := FieldName(f.key.s);
      match f.op
      case Unknown(_) => Err(UnknownOperator)
      case Empty =>
        Positive(Bool([], [], [Bool([], [], [], [Exists(path)]), Term(Keyword(path), PStr(""))], []))
      case NotEmpty => Negative(path, Term(Keyword(path), PStr("")))
      case Compares(c) => TranslateCompare(py, path, c, f.value)
      case In => TranslateMembers(py, path, f.op, f.value)
      case NotIn => TranslateMembers(py, path, f.op, f.value)
      case _ => TranslateText(py, path, f.op, f.value)
  }

  // ----- Composing a query --------------------------------------------------------------------

  /** At most one clause, so that an `or` cannot be met by half of a filter. */
  function ToClauses(t: Translated): seq<Clause> {
    if t.must == [] && t.mustNot == [] then []
    else if t.mustNot == [] then
      if |t.must| == 1 then t.must else [Bool(t.must, [], [], [])]
    else [Bool(t.must, [], [], t.mustNot)]
  }

  datatype Plan = Plan(logic: string, translated: seq<Translated>)

  function FlatClauses(ts: seq<Translated>): seq<Clause> {
    if ts == [] then [] else ToClauses(ts[0]) + FlatClauses(ts[1..])
  }

  function ToQuery(plan: Plan, kbs: seq<string>): Clause {
    if plan.translated == [] then Bool([], [InBases(kbs)], [], [])
    else
      var flat := FlatClauses(plan.translated);
      var inner := if plan.logic == "or" then Bool([], [], flat, []) else Bool(flat, [], [], []);
      Bool([], [InBases(kbs), inner], [], [])
  }

  function TranslateAll(py: Python, filters: seq<Filter>): Result<seq<Translated>, Unsupported> {
    if filters == [] then Ok([])
    else
      var last := |filters| - 1;
      match (TranslateAll(py, filters[..last]), Translate(py, filters[last]))
      case (Err(e), _) => Err(e)
      case (Ok(ts), Err(e)) => Err(e)
      case (Ok(ts), Ok(t)) => Ok(ts + [t])
  }

  function PlanFor(py: Python, filters: seq<Filter>, logic: string): Result<Plan, Unsupported> {
    if logic != "and" && logic != "or" then Err(UnknownLogic)
    else match TranslateAll(py, filters)
      case Err(e) => Err(e)
      case Ok(ts) => Ok(Plan(logic, ts))
  }

  // ----- The program ------------------------------------------------------------------------------

  lemma {:induction false} FailedTranslation(py: Python, filters: seq<Filter>, n: nat, e: Unsupported)
    requires n <= |filters| && TranslateAll(py, filters[..n]) == Err(e)
    ensures TranslateAll(py, filters) == Err(e)
    decreases |filters|
  {
    if n < |filters| {
      assert filters[..|filters| - 1][..n] == filters[..n];
      FailedTranslation(py, filters[..|filters| - 1], n, e);
    } else {
      assert filters[..n] == filters;
    }
  }

  /** The first filter that cannot be translated stops the plan. */
  method PlanPushdown(py: Python, filters: seq<Filter>, logic: string) returns (plan: Result<Plan, Unsupported>)
    ensures plan == PlanFor(py, filters, logic)
  {
    if logic != "and" && logic != "or" {
      return Err(UnknownLogic);
    }
    var translated := [];
    for i := 0 to |filters|
      invariant TranslateAll(py, filters[..i]) == Ok(translated)
    {
      var t := Translate(py, filters[i]);
      assert filters[..i + 1][..i] == filters[..i];
      if t.Err? {
        FailedTranslation(py, filters, i + 1, t.error);
        return Err(t.error);
      }
      translated := translated + [t.value];
    }
    assert filters[..|filters|] == filters;
    return Ok(Plan(logic, translated));
  }

  lemma {:induction false} NormalSnoc(py: Python, ms: seq<PyVal>, m: PyVal)
    ensures NormalMembers(py, ms + [m]) == NormalMembers(py, ms) + [NormalMember(py, m)]
  {
    if ms == [] {
      assert ms + [m] == [m];
    } else {
      assert (ms + [m])[1..] == ms[1..] + [m];
      NormalSnoc(py, ms[1..], m);
    }
  }

  method CsvOrList(py: Python, v: PyVal) returns (members: Result<seq<PyVal>, Unsupported>)
    ensures members == Members(py, v)
  {
    if v.PNone? {
      return Err(NoValue);
    }
    var raw := RawMembers(py, v);
    if raw == [] {
      return Err(NoMembers);
    }
    var normalised: seq<PyVal> := [];
    for i := 0 to |raw|
      invariant normalised == NormalMembers(py, raw[..i])
    {
      NormalSnoc(py, raw[..i], raw[i]);
      assert raw[..i + 1] == raw[..i] + [raw[i]];
      if raw[i].PStr? {
        normalised := normalised + [PStr(Strip(Lower(py, raw[i].s)))];
      } else {
        normalised := normalised + [raw[i]];
      }
    }
    assert raw[..|raw|] == raw;
    return Ok(normalised);
  }

  /** What the cheap check before planning asks of a filter. */
  predicate LooksPushable(f: Filter) {
    !f.op.Unknown? && f.op != Compares(NotEqual) && f.op != NotIn && f.key.PStr? && f.key.s != ""
  }

  method IsPushdownSupported(filters: seq<Filter>) returns (ok: bool)
    ensures ok <==> forall f :: f in filters ==> LooksPushable(f)
  {
    for i := 0 to |filters|
      invariant forall f :: f in filters[..i] ==> LooksPushable(f)
    {
      var f := filters[i];
      assert f in filters;
      if f.op.Unknown? || f.op == Compares(NotEqual) || f.op == NotIn || !f.key.PStr? || f.key.s == "" {
        return false;
      }
    }
    assert filters[..|filters|] == filters;
    return true;
  }
}
