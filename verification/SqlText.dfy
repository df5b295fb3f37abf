/** The SQL text of a predicate. */
module SqlText {
  import opened PythonValues
  import opened Patterns
  import opened GaussFilter

  // ----- Text ---------------------------------------------------------------------

  /** A part of the text: fixed SQL, a key path, a placeholder, or one of the words that predicates are
      built with. */
  datatype Piece =
    | Raw(text: string)
    | KeyPath(path: Path)
    | Slot
    | Open
    | Close
    | Conj
    | Disj
    | NotTrue
    | NotNull
    | IsNull

  predicate IsWordChar(c: char) {
    'A' <= c <= 'Z' || 'a' <= c <= 'z' || '0' <= c <= '9' || c == '_'
  }

  /** A segment that is no plain word is quoted. */
  function Quoted(segment: string): string {
    if segment != "" && forall i | 0 <= i < |segment| :: IsWordChar(segment[i]) then segment
    else "\"" + Replace(Replace(segment, '\\', "\\\\"), '"', "\\\"") + "\""
  }

  function QuotedParts(path: Path): string {
    if path == [] then ""
    else if |path| == 1 then Quoted(path[0])
    else Quoted(path[0]) + "," + QuotedParts(path[1..])
  }

  function PathLiteral(path: Path): string {
    "'" + Replace("{" + QuotedParts(path) + "}", '\'', "''") + "'"
  }

  function PieceText(p: Piece): string {
    match p
    case Raw(text) => text
    case KeyPath(path) => PathLiteral(path)
    case Slot => "%s"
    case Open => "("
    case Close => ")"
    case Conj => " AND "
    case Disj => " OR "
    case NotTrue => " IS NOT TRUE"
    case NotNull => " IS NOT NULL"
    case IsNull => " IS NULL"
  }

  function TextOf(pieces: seq<Piece>): string {
    if pieces == [] then "" else PieceText(pieces[0]) + TextOf(pieces[1..])
  }

  function ValueExpr(path: Path): seq<Piece> {
    [Raw("meta_fields #> "), KeyPath(path)]
  }

  function TextExpr(path: Path): seq<Piece> {
    [Raw("meta_fields #>> "), KeyPath(path)]
  }

  function BlankLiteral(b: Blank): string {
    match b
    case JsonNull => " = 'null'::jsonb"
    case BlankText => " = '\"\"'::jsonb"
    case EmptyArray => " = '[]'::jsonb"
    case EmptyObject => " = '{}'::jsonb"
  }

  function Symbol(c: Comparison): string {
    match c
    case Greater => " > "
    case Less => " < "
    case AtLeast => " >= "
    case AtMost => " <= "
    case Equal => " = "
    case NotEqual => " <> "
  }

  const FORMAT := ", 'YYYY-MM-DD HH24:MI:SS')"

  function Normalized(path: Path): seq<Piece> {
    [Raw("replace(")] + TextExpr(path) + [Raw(", 'T', ' ')")]
  }

  /** A text of this shape is read as a time after adding what it lacks; a text with hours has its `T`
      replaced by a space. */
  datatype TimeShape = TimeShape(pattern: string, hasHours: bool, suffix: string)

  const TWO := "[0-9]{2}"
  const YEAR_MONTH := " ~ '^[0-9]{4}-" + TWO
  const DATE := YEAR_MONTH + "-" + TWO
  const DATE_HOUR := DATE + "[T ]" + TWO

  const MONTH := TimeShape(YEAR_MONTH + "$'", false, " || '-01 00:00:00'")
  const DAY := TimeShape(DATE + "$'", false, " || ' 00:00:00'")
  const HOUR := TimeShape(DATE_HOUR + "$'", true, " || ':00:00'")
  const MINUTE := TimeShape(DATE_HOUR + ":" + TWO + "$'", true, " || ':00'")
  const SECOND := TimeShape(DATE_HOUR + ":" + TWO + ":" + TWO + "$'", true, "")
  const SHAPES := [MONTH, DAY, HOUR, MINUTE, SECOND]

  function When(path: Path, shape: TimeShape): seq<Piece> {
    [Raw("WHEN ")] + TextExpr(path) + [Raw(shape.pattern), Raw(" THEN to_timestamp(")]
    + (if shape.hasHours then Normalized(path) else TextExpr(path)) + [Raw(shape.suffix), Raw(FORMAT), Raw(" ")]
  }

  function Cases(path: Path, shapes: seq<TimeShape>): seq<Piece> {
    if shapes == [] then [Raw("CASE ")]
    else Cases(path, shapes[..|shapes| - 1]) + When(path, shapes[|shapes| - 1])
  }

  function TimeExpr(path: Path): seq<Piece> {
    Cases(path, SHAPES) + [Raw("END")]
  }

  const NUMBER := " ~ '^-?[0-9]+(\\.[0-9]+)?$' THEN ("

  function NumberExpr(path: Path): seq<Piece> {
    [Raw("CASE WHEN ")] + TextExpr(path) + [Raw(NUMBER)] + TextExpr(path) + [Raw(")::DOUBLE PRECISION")]
  }

  function Pieces(e: Sql): seq<Piece> {
    match e
    case Always => [Raw("1=1")]
    case KeyExists(path) => [Open] + ValueExpr(path) + [Close, NotNull]
    case KeyMissing(path) => [Open] + ValueExpr(path) + [Close, IsNull]
    case ValueIs(path, b) => ValueExpr(path) + [Raw(BlankLiteral(b))]
    case TextEquals(path) => [Raw("lower(")] + TextExpr(path) + [Raw(") = "), Slot]
    case HasString(path) => [Raw("jsonb_exists(")] + ValueExpr(path) + [Raw(", "), Slot, Raw(")")]
    case Holds(path) => ValueExpr(path) + [Raw(" @> "), Slot, Raw("::jsonb")]
    case TextLike(path) => [Raw("lower(")] + TextExpr(path) + [Raw(") LIKE "), Slot, Raw(" ESCAPE '\\'")]
    case NumberCompares(path, c) => NumberExpr(path) + [Raw(Symbol(c)), Slot, Raw(" ELSE FALSE END")]
    case TimeCompares(path, c) => TimeExpr(path) + [Raw(Symbol(c)), Raw("to_timestamp("), Slot, Raw(FORMAT)]
    case And(l, r) => Pieces(l) + [Conj] + Pieces(r)
    case Or(l, r) => Pieces(l) + [Disj] + Pieces(r)
    case Paren(i) => [Open] + Pieces(i) + [Close]
    case IsNotTrue(i) => [Open] + Pieces(i) + [Close, NotTrue]
  }

  function Render(e: Sql): string {
    TextOf(Pieces(e))
  }
}
