/** Reading the SQL text of a predicate back, by the precedence of its operators. */
module SqlReading {
  import opened Wrappers
  import opened PythonValues
  import opened MetaFilter
  import opened GaussFilter
  import opened GaussMeaning
  import opened SqlText

  // ----- A parser ------------------------------------------------------------------------
  //
  //   disjunction ::= conjunction | disjunction OR conjunction
  //   conjunction ::= test | conjunction AND test
  //   test        ::= ( disjunction ) | ( disjunction ) IS NOT TRUE
  //                 | ( value ) IS NOT NULL | ( value ) IS NULL | comparison

  function SymbolOf(text: string): Comparison {
    if text == " > " then Greater
    else if text == " < " then Less
    else if text == " >= " then AtLeast
    else if text == " <= " then AtMost
    else if text == " = " then Equal
    else NotEqual
  }

  function BlankOf(text: string): Blank {
    if |text| > 4 && text[4] == 'n' then JsonNull
    else if |text| > 4 && text[4] == '"' then BlankText
    else if |text| > 4 && text[4] == '[' then EmptyArray
    else EmptyObject
  }

  function PathAt(pieces: seq<Piece>, i: nat): Path {
    if i < |pieces| && pieces[i].KeyPath? then pieces[i].path else []
  }

  function TextAt(pieces: seq<Piece>, i: nat): string {
    if i < |pieces| && pieces[i].Raw? then pieces[i].text else ""
  }

  /** The comparison that the first few pieces announce. */
  function Announced(pieces: seq<Piece>): Sql {
    var text := TextAt(pieces, 0);
    if text == "" then Always
    else if text[0] == 'm' then
      if TextAt(pieces, 2) == " @> " then Holds(PathAt(pieces, 1)) else ValueIs(PathAt(pieces, 1), BlankOf(TextAt(pieces, 2)))
    else if text[0] == 'l' then
      if TextAt(pieces, 3) == ") = " then TextEquals(PathAt(pieces, 2)) else TextLike(PathAt(pieces, 2))
    else if text[0] == 'j' then HasString(PathAt(pieces, 2))
    else if text[0] == 'C' && |text| > 5 then NumberCompares(PathAt(pieces, 2), SymbolOf(TextAt(pieces, 7)))
    else if text[0] == 'C' then TimeCompares(PathAt(pieces, 3), SymbolOf(TextAt(pieces, |TimeExpr(PathAt(pieces, 3))|)))
    else Always
  }

  type Reading = Option<(Sql, seq<Piece>)>

  /** A comparison is read if all of its pieces are there. */
  function ReadComparison(pieces: seq<Piece>): (r: Reading)
    ensures r.Some? ==> |r.value.1| < |pieces|
  {
    var e := Announced(pieces);
    if Pieces(e) != [] && Pieces(e) <= pieces then Some((e, pieces[|Pieces(e)|..])) else None
  }

  /** A parenthesis around a value, not around a predicate. */
  predicate IsNullTest(pieces: seq<Piece>) {
    && |pieces| > 4 && pieces[0] == Open && pieces[1] == Raw("meta_fields #> ") && pieces[2].KeyPath? && pieces[3] == Close
    && (pieces[4] == NotNull || pieces[4] == IsNull)
  }

  function ReadTest(pieces: seq<Piece>): (r: Reading)
    ensures r.Some? ==> |r.value.1| < |pieces|
    decreases |pieces|, 0
  {
    if pieces == [] || pieces[0] != Open then ReadComparison(pieces)
    else if IsNullTest(pieces) then
      Some((if pieces[4] == NotNull then KeyExists(pieces[2].path) else KeyMissing(pieces[2].path), pieces[5..]))
    else
      match ReadDisjunction(pieces[1..])
      case None => None
      case Some((i, rest)) =>
        if rest == [] || rest[0] != Close then None
        else if |rest| > 1 && rest[1] == NotTrue then Some((IsNotTrue(i), rest[2..]))
        else Some((Paren(i), rest[1..]))
  }

  function ReadConjunction(pieces: seq<Piece>): (r: Reading)
    ensures r.Some? ==> |r.value.1| < |pieces|
    decreases |pieces|, 1
  {
    match ReadTest(pieces)
    case None => None
    case Some((e, rest)) => MoreConjuncts(e, rest)
  }

  function MoreConjuncts(left: Sql, pieces: seq<Piece>): (r: Reading)
    ensures r.Some? ==> |r.value.1| <= |pieces|
    decreases |pieces|, 2
  {
    if pieces == [] || pieces[0] != Conj then Some((left, pieces))
    else match ReadTest(pieces[1..])
      case None => None
      case Some((e, rest)) => MoreConjuncts(And(left, e), rest)
  }

  function ReadDisjunction(pieces: seq<Piece>): (r: Reading)
    ensures r.Some? ==> |r.value.1| < |pieces|
    decreases |pieces|, 3
  {
    match ReadConjunction(pieces)
    case None => None
    case Some((e, rest)) => MoreDisjuncts(e, rest)
  }

  function MoreDisjuncts(left: Sql, pieces: seq<Piece>): (r: Reading)
    ensures r.Some? ==> |r.value.1| <= |pieces|
    decreases |pieces|, 4
  {
    if pieces == [] || pieces[0] != Disj then Some((left, pieces))
    else match ReadConjunction(pieces[1..])
      case None => None
      case Some((e, rest)) => MoreDisjuncts(Or(left, e), rest)
  }

  /** The tree a text is read as. */
  function Read(pieces: seq<Piece>): Option<Sql> {
    match ReadDisjunction(pieces)
    case None => None
    case Some((e, rest)) => if rest == [] then Some(e) else None
  }

  /** A tree that the text can be read as: operators group to the left, and a disjunction below a
      conjunction stands in parentheses. */
  predicate Grouped(e: Sql) {
    match e
    case And(l, r) => !l.Or? && !r.Or? && !r.And? && Grouped(l) && Grouped(r)
    case Or(l, r) => !r.Or? && Grouped(l) && Grouped(r)
    case Paren(i) => Grouped(i)
    case IsNotTrue(i) => Grouped(i)
    case _ => true
  }

  // ----- Every grouped tree is read from its text -------------------------------------------

  /** What may stand behind a predicate. */
  predicate Ends(rest: seq<Piece>) {
    rest == [] || rest[0] == Close || rest[0] == Conj || rest[0] == Disj
  }

  predicate IsComparison(e: Sql) {
    !e.And? && !e.Or? && !e.Paren? && !e.IsNotTrue? && !e.KeyExists? && !e.KeyMissing?
  }

  lemma SymbolIsRead(c: Comparison)
    ensures SymbolOf(Symbol(c)) == c
  {
    assert " > "[1] == '>' && " < "[1] == '<' && " >= "[1] == '>' && " <= "[1] == '<' && " = "[1] == '=' && " <> "[1] == '<';
    assert " >= "[2] == '=' && " <= "[2] == '=' && " <> "[2] == '>';
  }

  lemma BlankIsRead(b: Blank)
    ensures BlankOf(BlankLiteral(b)) == b && BlankLiteral(b) != " @> "
  {
    assert " = 'null'::jsonb"[4] == 'n' && " = '\"\"'::jsonb"[4] == '"';
    assert " = '[]'::jsonb"[4] == '[' && " = '{}'::jsonb"[4] == '{';
  }

  lemma ValueIsAnnounced(path: Path, b: Blank, rest: seq<Piece>)
    ensures Announced(Pieces(ValueIs(path, b)) + rest) == ValueIs(path, b)
    ensures Announced(Pieces(Holds(path)) + rest) == Holds(path)
  {
    BlankIsRead(b);
    var v, h := Pieces(ValueIs(path, b)) + rest, Pieces(Holds(path)) + rest;
    assert v[0] == Raw("meta_fields #> ") && v[1] == KeyPath(path) && v[2] == Raw(BlankLiteral(b));
    assert h[0] == Raw("meta_fields #> ") && h[1] == KeyPath(path) && h[2] == Raw(" @> ");
    assert "meta_fields #> "[0] == 'm';
  }

  lemma TextIsAnnounced(path: Path, rest: seq<Piece>)
    ensures Announced(Pieces(TextEquals(path)) + rest) == TextEquals(path)
    ensures Announced(Pieces(TextLike(path)) + rest) == TextLike(path)
    ensures Announced(Pieces(HasString(path)) + rest) == HasString(path)
  {
    var e, l, h := Pieces(TextEquals(path)) + rest, Pieces(TextLike(path)) + rest, Pieces(HasString(path)) + rest;
    assert e[0] == Raw("lower(") && e[2] == KeyPath(path) && e[3] == Raw(") = ");
    assert l[0] == Raw("lower(") && l[2] == KeyPath(path) && l[3] == Raw(") LIKE ");
    assert h[0] == Raw("jsonb_exists(") && h[2] == KeyPath(path);
    assert "lower("[0] == 'l' && "jsonb_exists("[0] == 'j' && ") = "[2] == '=' && ") LIKE "[2] == 'L';
  }

  lemma NumberIsAnnounced(path: Path, c: Comparison, rest: seq<Piece>)
    ensures Announced(Pieces(NumberCompares(path, c)) + rest) == NumberCompares(path, c)
  {
    SymbolIsRead(c);
    var n := Pieces(NumberCompares(path, c)) + rest;
    assert n[0] == Raw("CASE WHEN ") && n[2] == KeyPath(path) && n[7] == Raw(Symbol(c));
    assert "CASE WHEN "[0] == 'C' && |"CASE WHEN "| == 10;
  }

  lemma {:induction false} CasesBegin(path: Path, shapes: seq<TimeShape>)
    requires shapes != []
    ensures |Cases(path, shapes)| > 3 && Cases(path, shapes)[0] == Raw("CASE ") && Cases(path, shapes)[3] == KeyPath(path)
  {
    var last, before := shapes[|shapes| - 1], shapes[..|shapes| - 1];
    if before == [] {
      assert Cases(path, shapes) == [Raw("CASE ")] + When(path, last);
      assert When(path, last)[2] == KeyPath(path);
    } else {
      CasesBegin(path, before);
    }
  }

  lemma TimeIsAnnounced(path: Path, c: Comparison, rest: seq<Piece>)
    ensures Announced(Pieces(TimeCompares(path, c)) + rest) == TimeCompares(path, c)
  {
    SymbolIsRead(c);
    CasesBegin(path, SHAPES);
    AnnouncedTime(TimeExpr(path), path, c, rest);
  }

  lemma AnnouncedTime(time: seq<Piece>, path: Path, c: Comparison, rest: seq<Piece>)
    requires time == TimeExpr(path) && |time| > 3 && time[0] == Raw("CASE ") && time[3] == KeyPath(path)
    requires SymbolOf(Symbol(c)) == c
    ensures Announced(time + [Raw(Symbol(c)), Raw("to_timestamp("), Slot, Raw(FORMAT)] + rest) == TimeCompares(path, c)
  {
    var t := time + [Raw(Symbol(c)), Raw("to_timestamp("), Slot, Raw(FORMAT)] + rest;
    assert t[0] == time[0] && t[3] == time[3] && t[|time|] == Raw(Symbol(c));
    assert TextAt(t, |time|) == Symbol(c);
    assert TextAt(t, 0) == "CASE " && PathAt(t, 3) == path;
    assert "CASE "[0] == 'C' && |"CASE "| == 5;
  }

  lemma ComparisonIsAnnounced(e: Sql, rest: seq<Piece>)
    requires IsComparison(e)
    ensures Announced(Pieces(e) + rest) == e && Pieces(e) != [] && Pieces(e)[0] != Open
  {
    match e {
      case Always => assert "1=1"[0] == '1';
      case ValueIs(path, b) => ValueIsAnnounced(path, b, rest);
      case Holds(path) => ValueIsAnnounced(path, JsonNull, rest);
      case TextEquals(path) => TextIsAnnounced(path, rest);
      case TextLike(path) => TextIsAnnounced(path, rest);
      case HasString(path) => TextIsAnnounced(path, rest);
      case NumberCompares(path, c) => NumberIsAnnounced(path, c, rest);
      case TimeCompares(path, c) => {
        TimeIsAnnounced(path, c, rest);
        CasesBegin(path, SHAPES);
        assert Pieces(e)[0] == TimeExpr(path)[0] == Cases(path, SHAPES)[0];
      }
    }
  }

  lemma ComparisonIsRead(e: Sql, rest: seq<Piece>)
    requires IsComparison(e)
    ensures ReadTest(Pieces(e) + rest) == Some((e, rest))
  {
    ComparisonIsAnnounced(e, rest);
    ReadsAnnounced(e, Pieces(e), rest);
  }

  lemma ReadsAnnounced(e: Sql, own: seq<Piece>, rest: seq<Piece>)
    requires own == Pieces(e) && own != [] && own[0] != Open && Announced(own + rest) == e
    ensures ReadTest(own + rest) == Some((e, rest))
  {
    assert (own + rest)[|own|..] == rest;
  }

  /** Nothing but a value in parentheses looks like a null test. */
  predicate LooksLikeValue(pieces: seq<Piece>) {
    |pieces| > 2 && pieces[0].Raw? && pieces[1].KeyPath? && pieces[2] == Close
  }

  lemma {:induction false} NoValueInside(e: Sql, rest: seq<Piece>)
    requires rest != [] && !rest[0].KeyPath?
    ensures Pieces(e) != [] && !Pieces(e)[0].KeyPath? && !LooksLikeValue(Pieces(e) + rest)
  {
    match e {
      case And(l, r) => {
        NoValueInside(l, [Conj] + Pieces(r) + rest);
        Regrouped(Pieces(l), Conj, Pieces(r), rest);
      }
      case Or(l, r) => {
        NoValueInside(l, [Disj] + Pieces(r) + rest);
        Regrouped(Pieces(l), Disj, Pieces(r), rest);
      }
      case Paren(i) => assert Pieces(e)[0] == Open;
      case IsNotTrue(i) => assert Pieces(e)[0] == Open;
      case TimeCompares(path, c) => FirstOfTime(path, c);
      case _ => NoValueInLeaf(e, rest);
    }
  }

  lemma Regrouped(a: seq<Piece>, word: Piece, b: seq<Piece>, rest: seq<Piece>)
    ensures a + [word] + b + rest == a + ([word] + b + rest)
    ensures ([word] + b + rest)[1..] == b + rest
  {
  }

  lemma NoValueInLeaf(e: Sql, rest: seq<Piece>)
    requires rest != [] && !rest[0].KeyPath?
    requires !e.And? && !e.Or? && !e.Paren? && !e.IsNotTrue? && !e.TimeCompares?
    ensures Pieces(e) != [] && !Pieces(e)[0].KeyPath? && !LooksLikeValue(Pieces(e) + rest)
  {
    if e.ValueIs? {
      assert (Pieces(e) + rest)[2] == Raw(BlankLiteral(e.blank));
    } else if e.Holds? {
      assert (Pieces(e) + rest)[2] == Raw(" @> ");
    } else if !e.Always? {
      assert !(Pieces(e) + rest)[1].KeyPath?;
    }
  }

  lemma FirstOfTime(path: Path, c: Comparison)
    ensures |Pieces(TimeCompares(path, c))| > 3 && Pieces(TimeCompares(path, c))[1] == Raw("WHEN ")
    ensures Pieces(TimeCompares(path, c))[0] == Raw("CASE ")
  {
    CasesBegin(path, SHAPES);
    SecondOfCases(path, SHAPES);
    var time := TimeExpr(path);
    assert Pieces(TimeCompares(path, c))[..|time|] == time;
  }

  lemma {:induction false} SecondOfCases(path: Path, shapes: seq<TimeShape>)
    requires shapes != []
    ensures |Cases(path, shapes)| > 3 && Cases(path, shapes)[1] == Raw("WHEN ")
  {
    var last, before := shapes[|shapes| - 1], shapes[..|shapes| - 1];
    if before == [] {
      assert Cases(path, shapes) == [Raw("CASE ")] + When(path, last);
    } else {
      SecondOfCases(path, before);
    }
  }

  lemma {:induction false} TestIsRead(e: Sql, rest: seq<Piece>)
    requires Grouped(e) && !e.And? && !e.Or? && Ends(rest)
    ensures ReadTest(Pieces(e) + rest) == Some((e, rest))
    decreases e, 0
  {
    match e {
      case Paren(i) => {
        EnclosedIsRead(i, [Close] + rest);
        ParenIsRead(i, Pieces(i), rest);
      }
      case IsNotTrue(i) => {
        EnclosedIsRead(i, [Close, NotTrue] + rest);
        DenialIsRead(i, Pieces(i), rest);
      }
      case KeyExists(path) => assert (Pieces(e) + rest)[5..] == rest;
      case KeyMissing(path) => assert (Pieces(e) + rest)[5..] == rest;
      case _ => ComparisonIsRead(e, rest);
    }
  }

  lemma ParenIsRead(i: Sql, own: seq<Piece>, rest: seq<Piece>)
    requires Ends(rest) && ReadDisjunction(own + ([Close] + rest)) == Some((i, [Close] + rest))
    requires !LooksLikeValue(own + ([Close] + rest))
    ensures ReadTest([Open] + own + [Close] + rest) == Some((Paren(i), rest))
  {
    var all := [Open] + own + [Close] + rest;
    assert all[1..] == own + ([Close] + rest);
    assert ([Close] + rest)[1..] == rest;
  }

  lemma DenialIsRead(i: Sql, own: seq<Piece>, rest: seq<Piece>)
    requires ReadDisjunction(own + ([Close, NotTrue] + rest)) == Some((i, [Close, NotTrue] + rest))
    requires !LooksLikeValue(own + ([Close, NotTrue] + rest))
    ensures ReadTest([Open] + own + [Close, NotTrue] + rest) == Some((IsNotTrue(i), rest))
  {
    var all := [Open] + own + [Close, NotTrue] + rest;
    assert all[1..] == own + ([Close, NotTrue] + rest);
    assert ([Close, NotTrue] + rest)[2..] == rest;
  }

  /** Inside parentheses a whole disjunction is read. */
  lemma EnclosedIsRead(i: Sql, rest: seq<Piece>)
    requires Grouped(i) && rest != [] && rest[0] == Close
    ensures ReadDisjunction(Pieces(i) + rest) == Some((i, rest)) && !LooksLikeValue(Pieces(i) + rest)
    decreases i, 3
  {
    DisjunctionIsRead(i, rest);
    NoValueInside(i, rest);
  }

  lemma OneConjunct(e: Sql, own: seq<Piece>, rest: seq<Piece>)
    requires ReadTest(own + rest) == Some((e, rest))
    ensures ReadConjunction(own + rest) == MoreConjuncts(e, rest)
  {
  }

  lemma {:induction false} ConjunctionIsRead(e: Sql, rest: seq<Piece>)
    requires Grouped(e) && !e.Or? && Ends(rest)
    ensures ReadConjunction(Pieces(e) + rest) == MoreConjuncts(e, rest)
    decreases e, 1
  {
    if e.And? {
      ConjunctsAreRead(e.left, e.right, rest);
    } else {
      TestIsRead(e, rest);
      OneConjunct(e, Pieces(e), rest);
    }
  }

  lemma {:induction false} ConjunctsAreRead(l: Sql, r: Sql, rest: seq<Piece>)
    requires Grouped(And(l, r)) && Ends(rest)
    ensures ReadConjunction(Pieces(l) + [Conj] + Pieces(r) + rest) == MoreConjuncts(And(l, r), rest)
    decreases And(l, r), 0
  {
    var after := [Conj] + Pieces(r) + rest;
    ConjunctionIsRead(l, after);
    TestIsRead(r, rest);
    Regrouped(Pieces(l), Conj, Pieces(r), rest);
    AddsConjunct(l, r, after, rest);
  }

  lemma {:induction false} DisjunctionIsRead(e: Sql, rest: seq<Piece>)
    requires Grouped(e) && Ends(rest) && (rest != [] ==> rest[0] != Conj)
    ensures ReadDisjunction(Pieces(e) + rest) == MoreDisjuncts(e, rest)
    decreases e, 2
  {
    if e.Or? {
      DisjunctsAreRead(e.left, e.right, rest);
    } else {
      ConjunctionIsRead(e, rest);
      OneDisjunct(e, Pieces(e), rest);
    }
  }

  lemma {:induction false} DisjunctsAreRead(l: Sql, r: Sql, rest: seq<Piece>)
    requires Grouped(Or(l, r)) && Ends(rest) && (rest != [] ==> rest[0] != Conj)
    ensures ReadDisjunction(Pieces(l) + [Disj] + Pieces(r) + rest) == MoreDisjuncts(Or(l, r), rest)
    decreases Or(l, r), 1
  {
    var after := [Disj] + Pieces(r) + rest;
    DisjunctionIsRead(l, after);
    ConjunctionIsRead(r, rest);
    Regrouped(Pieces(l), Disj, Pieces(r), rest);
    LastConjunct(r, rest);
    AddsDisjunct(l, r, after, rest);
  }

  lemma LastConjunct(e: Sql, rest: seq<Piece>)
    requires rest != [] ==> rest[0] != Conj
    ensures MoreConjuncts(e, rest) == Some((e, rest))
  {
  }

  lemma AddsDisjunct(l: Sql, r: Sql, after: seq<Piece>, rest: seq<Piece>)
    requires after != [] && after[0] == Disj && ReadConjunction(after[1..]) == Some((r, rest))
    ensures MoreDisjuncts(l, after) == MoreDisjuncts(Or(l, r), rest)
  {
  }

  lemma OneDisjunct(e: Sql, own: seq<Piece>, rest: seq<Piece>)
    requires ReadConjunction(own + rest) == MoreConjuncts(e, rest) && (rest != [] ==> rest[0] != Conj)
    ensures ReadDisjunction(own + rest) == MoreDisjuncts(e, rest)
  {
  }

  lemma AddsConjunct(l: Sql, r: Sql, after: seq<Piece>, rest: seq<Piece>)
    requires after != [] && after[0] == Conj && ReadTest(after[1..]) == Some((r, rest))
    ensures MoreConjuncts(l, after) == MoreConjuncts(And(l, r), rest)
  {
  }

  // ----- Only grouped trees are read, and from their own text ----------------------------------

  lemma NullTestIsWritten(pieces: seq<Piece>)
    requires IsNullTest(pieces)
    ensures pieces == [Open] + ValueExpr(pieces[2].path) + [Close, pieces[4]] + pieces[5..]
  {
    var path := pieces[2].path;
    assert pieces == [Open, Raw("meta_fields #> "), KeyPath(path), Close, pieces[4]] + pieces[5..];
    assert [Open] + ValueExpr(path) + [Close, pieces[4]] == [Open, Raw("meta_fields #> "), KeyPath(path), Close, pieces[4]];
  }

  lemma EnclosedIsWritten(pieces: seq<Piece>, own: seq<Piece>, rest: seq<Piece>)
    requires pieces != [] && pieces[0] == Open && pieces[1..] == own + rest && rest != [] && rest[0] == Close
    ensures pieces == [Open] + own + [Close] + rest[1..]
    ensures |rest| > 1 && rest[1] == NotTrue ==> pieces == [Open] + own + [Close, NotTrue] + rest[2..]
  {
    assert pieces == [Open] + (own + rest);
    assert rest == [Close] + rest[1..];
    assert |rest| > 1 && rest[1] == NotTrue ==> rest == [Close, NotTrue] + rest[2..];
  }

  lemma {:induction false} TestIsWritten(pieces: seq<Piece>)
    requires ReadTest(pieces).Some?
    ensures var (e, rest) := ReadTest(pieces).value; Grouped(e) && !e.And? && !e.Or? && pieces == Pieces(e) + rest
    decreases |pieces|, 0
  {
    if pieces == [] || pieces[0] != Open {
      var e := Announced(pieces);
      assert pieces == Pieces(e) + pieces[|Pieces(e)|..];
    } else if IsNullTest(pieces) {
      NullTestIsWritten(pieces);
    } else {
      DisjunctionIsWritten(pieces[1..]);
      var (i, rest) := ReadDisjunction(pieces[1..]).value;
      EnclosedIsWritten(pieces, Pieces(i), rest);
    }
  }

  lemma {:induction false} ConjunctionIsWritten(pieces: seq<Piece>)
    requires ReadConjunction(pieces).Some?
    ensures var (e, rest) := ReadConjunction(pieces).value; Grouped(e) && !e.Or? && pieces == Pieces(e) + rest
    decreases |pieces|, 1
  {
    TestIsWritten(pieces);
    var (e, rest) := ReadTest(pieces).value;
    ConjunctsAreWritten(e, rest);
  }

  lemma Rebuilt(a: seq<Piece>, word: Piece, b: seq<Piece>, rest: seq<Piece>, pieces: seq<Piece>)
    requires pieces != [] && pieces[0] == word && pieces[1..] == b + rest
    ensures a + pieces == a + [word] + b + rest
  {
    assert pieces == [word] + (b + rest);
  }

  lemma {:induction false} ConjunctsAreWritten(left: Sql, pieces: seq<Piece>)
    requires Grouped(left) && !left.Or? && MoreConjuncts(left, pieces).Some?
    ensures var (e, rest) := MoreConjuncts(left, pieces).value; Grouped(e) && !e.Or? && Pieces(left) + pieces == Pieces(e) + rest
    decreases |pieces|, 2
  {
    if pieces != [] && pieces[0] == Conj {
      TestIsWritten(pieces[1..]);
      var (e, rest) := ReadTest(pieces[1..]).value;
      Rebuilt(Pieces(left), Conj, Pieces(e), rest, pieces);
      ConjunctsAreWritten(And(left, e), rest);
    }
  }

  lemma {:induction false} DisjunctionIsWritten(pieces: seq<Piece>)
    requires ReadDisjunction(pieces).Some?
    ensures var (e, rest) := ReadDisjunction(pieces).value; Grouped(e) && pieces == Pieces(e) + rest
    decreases |pieces|, 3
  {
    ConjunctionIsWritten(pieces);
    var (e, rest) := ReadConjunction(pieces).value;
    DisjunctsAreWritten(e, rest);
  }

  lemma {:induction false} DisjunctsAreWritten(left: Sql, pieces: seq<Piece>)
    requires Grouped(left) && MoreDisjuncts(left, pieces).Some?
    ensures var (e, rest) := MoreDisjuncts(left, pieces).value; Grouped(e) && Pieces(left) + pieces == Pieces(e) + rest
    decreases |pieces|, 4
  {
    if pieces != [] && pieces[0] == Disj {
      ConjunctionIsWritten(pieces[1..]);
      var (e, rest) := ReadConjunction(pieces[1..]).value;
      Rebuilt(Pieces(left), Disj, Pieces(e), rest, pieces);
      DisjunctsAreWritten(Or(left, e), rest);
    }
  }

  /** The pieces of a text are read as a tree exactly if the tree is grouped and the text is its own. */
  lemma ReadIff(pieces: seq<Piece>, e: Sql)
    ensures Read(pieces) == Some(e) <==> Grouped(e) && pieces == Pieces(e)
  {
    if Read(pieces).Some? {
      DisjunctionIsWritten(pieces);
      assert pieces == Pieces(Read(pieces).value) + [];
    }
    if Grouped(e) && pieces == Pieces(e) {
      DisjunctionIsRead(e, []);
      assert Pieces(e) + [] == pieces;
    }
  }

  // ----- The compiled predicates are grouped ------------------------------------------------------

  lemma EqualIsGrouped(py: Python, path: Path, v: PyVal)
    ensures EqualPredicate(py, path, v).Ok? ==> Grouped(EqualPredicate(py, path, v).value.sql)
  {
  }

  predicate AllGrouped(sqls: seq<Sql>) {
    forall s :: s in sqls ==> Grouped(s)
  }

  lemma {:induction false} MembersAreGrouped(py: Python, path: Path, ms: seq<PyVal>)
    ensures var r := MembershipPredicates(py, path, ms); r.Ok? ==> AllGrouped(r.value.sqls)
  {
    if ms != [] {
      MembersAreGrouped(py, path, ms[..|ms| - 1]);
      EqualIsGrouped(py, path, ms[|ms| - 1]);
    }
  }

  lemma {:induction false} JoinsAreGrouped(path: Path, sqls: seq<Sql>)
    requires AllGrouped(sqls)
    ensures Grouped(JoinDenied(path, sqls)) && !JoinDenied(path, sqls).Or?
    ensures sqls != [] ==> Grouped(JoinOr(sqls))
    ensures sqls != [] ==> Grouped(JoinAnd(sqls)) && !JoinAnd(sqls).Or?
  {
    if sqls != [] {
      assert sqls[|sqls| - 1] in sqls;
      JoinsAreGrouped(path, sqls[..|sqls| - 1]);
    }
  }

  lemma {:induction false} BlanksAreGrouped(path: Path, blanks: seq<Blank>)
    ensures Grouped(OrBlanks(path, blanks))
    ensures Grouped(AndNoBlanks(path, blanks)) && !AndNoBlanks(path, blanks).Or?
  {
    if blanks != [] {
      BlanksAreGrouped(path, blanks[..|blanks| - 1]);
    }
  }

  lemma DeniedIsGrouped(path: Path, t: Translated)
    requires Grouped(t.sql)
    ensures Grouped(Denied(path, t).sql)
  {
    assert Grouped(IsNotTrue(t.sql));
  }

  lemma MembershipIsGrouped(py: Python, path: Path, op: Op, v: PyVal)
    requires TranslateMembers(py, path, op, v).Ok?
    ensures Grouped(TranslateMembers(py, path, op, v).value.sql)
  {
    var ms := Members(py, v).value;
    MembersAreGrouped(py, path, ms);
    JoinsAreGrouped(path, MembershipPredicates(py, path, ms).value.sqls);
  }

  lemma TextIsGrouped(py: Python, path: Path, op: Op, v: PyVal)
    requires TranslateText(py, path, op, v).Ok?
    ensures Grouped(TranslateText(py, path, op, v).value.sql)
  {
    assert Grouped(HasString(path)) && Grouped(TextLike(path));
    DeniedIsGrouped(path, ContainsPredicate(py, path, Show(py, v)));
  }

  lemma CompareIsGrouped(py: Python, rd: Reader, path: Path, c: Comparison, v: PyVal)
    requires TranslateCompare(py, rd, path, c, v).Ok?
    ensures Grouped(TranslateCompare(py, rd, path, c, v).value.sql)
  {
    if EqualPredicate(py, path, v).Ok? {
      EqualIsGrouped(py, path, v);
      DeniedIsGrouped(path, EqualPredicate(py, path, v).value);
    }
  }

  lemma TranslationIsGrouped(py: Python, rd: Reader, f: Filter)
    requires Translate(py, rd, f).Ok?
    ensures Grouped(Translate(py, rd, f).value.sql)
  {
    var path := PathOf(f.key).value;
    match f.op {
      case Empty => BlanksAreGrouped(path, BLANKS);
      case NotEmpty => BlanksAreGrouped(path, BLANKS);
      case Compares(c) => CompareIsGrouped(py, rd, path, c, f.value);
      case In => MembershipIsGrouped(py, path, f.op, f.value);
      case NotIn => MembershipIsGrouped(py, path, f.op, f.value);
      case Unknown(_) =>
      case _ => TextIsGrouped(py, path, f.op, f.value);
    }
  }

  lemma PlanIsGrouped(py: Python, rd: Reader, filters: seq<Filter>, logic: string)
    requires FilterFor(py, rd, filters, logic).Ok?
    ensures Grouped(FilterFor(py, rd, filters, logic).value.sql)
  {
    var ts := TranslateAll(py, rd, filters).value;
    TranslatedOneByOne(py, rd, filters);
    forall s | s in SqlsOf(ts) ensures Grouped(s) {
      var i :| 0 <= i < |ts| && SqlsOf(ts)[i] == s;
      TranslationIsGrouped(py, rd, filters[i]);
    }
    JoinsAreGrouped([], SqlsOf(ts));
  }

  /** The text of every translated filter is read as exactly the tree that was meant. */
  lemma TranslationReadsBack(py: Python, rd: Reader, f: Filter)
    requires Translate(py, rd, f).Ok?
    ensures Read(Pieces(Translate(py, rd, f).value.sql)) == Some(Translate(py, rd, f).value.sql)
  {
    TranslationIsGrouped(py, rd, f);
    ReadIff(Pieces(Translate(py, rd, f).value.sql), Translate(py, rd, f).value.sql);
  }

  /** So is the text of every plan, with the filters apart from each other. */
  lemma PlanReadsBack(py: Python, rd: Reader, filters: seq<Filter>, logic: string)
    requires FilterFor(py, rd, filters, logic).Ok?
    ensures var sql := FilterFor(py, rd, filters, logic).value.sql; Read(Pieces(sql)) == Some(sql)
  {
    PlanIsGrouped(py, rd, filters, logic);
    ReadIff(Pieces(FilterFor(py, rd, filters, logic).value.sql), FilterFor(py, rd, filters, logic).value.sql);
  }
}
