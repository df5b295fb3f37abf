/** How a database driver counts the placeholders in the text of a predicate. */
module SqlPlaceholders {
  import opened Wrappers
  import opened PythonValues
  import opened MetaFilter
  import opened GaussFilter
  import opened GaussMeaning
  import opened SqlText

  // ----- Placeholders -------------------------------------------------------------------

  /** The placeholders a driver finds: `%s` is one, `%%` a percent sign, any other `%` an error. */
  function Placeholders(text: string): Option<nat> {
    if text == [] then Some(0)
    else if text[0] != '%' then Placeholders(text[1..])
    else if |text| > 1 && text[1] == 's' then Sum(Some(1), Placeholders(text[2..]))
    else if |text| > 1 && text[1] == '%' then Placeholders(text[2..])
    else None
  }

  function Sum(a: Option<nat>, b: Option<nat>): Option<nat> {
    if a.None? || b.None? then None else Some(a.value + b.value)
  }

  predicate EndsPlain(text: string) {
    text == [] || text[|text| - 1] != '%'
  }

  lemma {:induction false} PlaceholdersAdd(a: string, b: string)
    requires EndsPlain(a)
    ensures Placeholders(a + b) == Sum(Placeholders(a), Placeholders(b))
  {
    if a == [] {
      assert a + b == b;
    } else if a[0] != '%' {
      assert (a + b)[1..] == a[1..] + b;
      PlaceholdersAdd(a[1..], b);
    } else {
      assert |a| > 1 && (a + b)[1] == a[1];
      assert (a + b)[2..] == a[2..] + b;
      PlaceholdersAdd(a[2..], b);
    }
  }

  lemma {:induction false} NoPercentNoPlaceholder(text: string)
    requires '%' !in text
    ensures Placeholders(text) == Some(0) && EndsPlain(text)
  {
    if text != [] {
      NoPercentNoPlaceholder(text[1..]);
    }
  }

  predicate IsPlainPiece(p: Piece) {
    p.Raw? ==> '%' !in p.text
  }

  function SlotCount(pieces: seq<Piece>): nat {
    if pieces == [] then 0 else (if pieces[0].Slot? then 1 else 0) + SlotCount(pieces[1..])
  }

  predicate IsClean(path: Path) {
    Placeholders(PathLiteral(path)) == Some(0)
  }

  lemma PieceCounts(p: Piece)
    requires IsPlainPiece(p)
    ensures EndsPlain(PieceText(p))
    ensures Placeholders(PieceText(p)) ==
            if p.KeyPath? then Placeholders(PathLiteral(p.path)) else if p.Slot? then Some(1) else Some(0)
  {
    match p {
      case KeyPath(path) =>
      case Slot => assert "%s"[2..] == [];
      case _ => NoPercentNoPlaceholder(PieceText(p));
    }
  }

  /** The placeholders that key paths bring in. */
  function KeyCount(pieces: seq<Piece>): Option<nat> {
    if pieces == [] then Some(0)
    else if pieces[0].KeyPath? then Sum(Placeholders(PathLiteral(pieces[0].path)), KeyCount(pieces[1..]))
    else KeyCount(pieces[1..])
  }

  predicate ArePlain(pieces: seq<Piece>) {
    forall p :: p in pieces ==> IsPlainPiece(p)
  }

  lemma FirstCounts(first: Piece, rest: string)
    requires IsPlainPiece(first)
    ensures Placeholders(PieceText(first) + rest) ==
            Sum(if first.KeyPath? then Placeholders(PathLiteral(first.path)) else if first.Slot? then Some(1) else Some(0),
                Placeholders(rest))
  {
    PieceCounts(first);
    PlaceholdersAdd(PieceText(first), rest);
  }

  predicate CountsAs(pieces: seq<Piece>) {
    Placeholders(TextOf(pieces)) == Sum(Some(SlotCount(pieces)), KeyCount(pieces))
  }

  lemma FirstPieceCounts(pieces: seq<Piece>)
    requires pieces != [] && IsPlainPiece(pieces[0]) && CountsAs(pieces[1..])
    ensures CountsAs(pieces)
  {
    FirstCounts(pieces[0], TextOf(pieces[1..]));
  }

  lemma {:induction false} PiecesCount(pieces: seq<Piece>)
    requires ArePlain(pieces)
    ensures CountsAs(pieces)
  {
    if pieces != [] {
      assert pieces[0] in pieces && ArePlain(pieces[1..]);
      PiecesCount(pieces[1..]);
      FirstPieceCounts(pieces);
    }
  }

  predicate KeysAreClean(pieces: seq<Piece>) {
    forall p :: p in pieces && p.KeyPath? ==> IsClean(p.path)
  }

  lemma KeysAreCleanCons(first: Piece, rest: seq<Piece>)
    ensures KeysAreClean([first] + rest) <==> (first.KeyPath? ==> IsClean(first.path)) && KeysAreClean(rest)
  {
    assert forall p :: p in [first] + rest <==> p == first || p in rest;
  }

  lemma FirstKeyCounts(pieces: seq<Piece>)
    requires pieces != []
    ensures KeyCount(pieces) == Some(0) <==>
            (pieces[0].KeyPath? ==> IsClean(pieces[0].path)) && KeyCount(pieces[1..]) == Some(0)
  {
  }

  lemma {:induction false} KeysCountIff(pieces: seq<Piece>)
    ensures KeyCount(pieces) == Some(0) <==> KeysAreClean(pieces)
  {
    if pieces != [] {
      KeysCountIff(pieces[1..]);
      KeysAreCleanCons(pieces[0], pieces[1..]);
      FirstKeyCounts(pieces);
      assert pieces == [pieces[0]] + pieces[1..];
    }
  }

  // ----- The pieces of a predicate ----------------------------------------------------------

  lemma {:induction false} SlotCountAdd(a: seq<Piece>, b: seq<Piece>)
    ensures SlotCount(a + b) == SlotCount(a) + SlotCount(b)
  {
    if a == [] {
      assert a + b == b;
    } else {
      assert (a + b)[1..] == a[1..] + b;
      SlotCountAdd(a[1..], b);
    }
  }

  /** Fixed text around certain key paths, with so many placeholders. */
  predicate IsAbout(pieces: seq<Piece>, paths: set<Path>, slots: nat) {
    && (forall p :: p in pieces ==> IsPlainPiece(p) && (p.KeyPath? ==> p.path in paths))
    && (forall path :: path in paths ==> KeyPath(path) in pieces)
    && SlotCount(pieces) == slots
  }

  lemma Join(a: seq<Piece>, pa: set<Path>, na: nat, b: seq<Piece>, pb: set<Path>, nb: nat)
    requires IsAbout(a, pa, na) && IsAbout(b, pb, nb)
    ensures IsAbout(a + b, pa + pb, na + nb)
  {
    SlotCountAdd(a, b);
  }

  lemma RawIs(text: string)
    requires '%' !in text
    ensures IsAbout([Raw(text)], {}, 0)
  {
    assert [Raw(text)][1..] == [];
  }

  /** A word is neither a path nor a placeholder. */
  predicate IsWord(p: Piece) {
    !p.Raw? && !p.KeyPath? && !p.Slot?
  }

  lemma WordIs(p: Piece)
    requires IsWord(p)
    ensures IsAbout([p], {}, 0)
  {
    assert [p][1..] == [];
  }

  /** Parentheses, and a test behind them. */
  lemma Enclosed(a: seq<Piece>, pa: set<Path>, na: nat, test: Piece)
    requires IsAbout(a, pa, na) && IsWord(test)
    ensures IsAbout([Open] + a + [Close], pa, na) && IsAbout([Open] + a + [Close, test], pa, na)
  {
    WordIs(Open);
    WordIs(Close);
    WordIs(test);
    Join([Open], {}, 0, a, pa, na);
    assert {} + pa == pa;
    JoinPlain([Open] + a, pa, na, [Close], 0);
    JoinPlain([Open] + a + [Close], pa, na, [test], 0);
    assert [Open] + a + [Close] + [test] == [Open] + a + [Close, test];
  }

  lemma SlotIs()
    ensures IsAbout([Slot], {}, 1)
  {
    assert [Slot][1..] == [];
  }

  /** Fixed text before and after. */
  lemma Around(before: string, a: seq<Piece>, pa: set<Path>, na: nat, after: string)
    requires '%' !in before && '%' !in after && IsAbout(a, pa, na)
    ensures IsAbout([Raw(before)] + a + [Raw(after)], pa, na)
    ensures IsAbout([Raw(before)] + a, pa, na) && IsAbout(a + [Raw(after)], pa, na)
  {
    RawIs(before);
    RawIs(after);
    Join([Raw(before)], {}, 0, a, pa, na);
    Join(a, pa, na, [Raw(after)], {}, 0);
    Join([Raw(before)] + a, pa, na, [Raw(after)], {}, 0);
    assert {} + pa == pa && pa + {} == pa;
  }

  lemma ExprsAre(path: Path)
    ensures IsAbout(ValueExpr(path), {path}, 0) && IsAbout(TextExpr(path), {path}, 0)
  {
    var key := [KeyPath(path)];
    assert key[1..] == [];
    assert IsAbout(key, {path}, 0);
    Around("meta_fields #> ", key, {path}, 0, "");
    Around("meta_fields #>> ", key, {path}, 0, "");
    assert [Raw("meta_fields #> ")] + key == ValueExpr(path);
    assert [Raw("meta_fields #>> ")] + key == TextExpr(path);
  }

  /** A placeholder after the expression. */
  lemma Compared(a: seq<Piece>, path: Path, between: string, after: string)
    requires IsAbout(a, {path}, 0) && '%' !in between && '%' !in after
    ensures IsAbout(a + [Raw(between), Slot], {path}, 1)
    ensures IsAbout(a + [Raw(between), Slot, Raw(after)], {path}, 1)
  {
    RawIs(between);
    RawIs(after);
    SlotIs();
    Join(a, {path}, 0, [Raw(between)], {}, 0);
    Join(a + [Raw(between)], {path} + {}, 0, [Slot], {}, 1);
    Join(a + [Raw(between)] + [Slot], {path} + {} + {}, 1, [Raw(after)], {}, 0);
    assert {path} + {} == {path} && {path} + {} + {} == {path} && {path} + {} + {} + {} == {path};
    assert a + [Raw(between)] + [Slot] == a + [Raw(between), Slot];
    assert a + [Raw(between), Slot] + [Raw(after)] == a + [Raw(between), Slot, Raw(after)];
  }

  lemma JoinPlain(a: seq<Piece>, pa: set<Path>, na: nat, b: seq<Piece>, nb: nat)
    requires IsAbout(a, pa, na) && IsAbout(b, {}, nb)
    ensures IsAbout(a + b, pa, na + nb)
  {
    Join(a, pa, na, b, {}, nb);
    assert pa + {} == pa;
  }

  lemma JoinSame(a: seq<Piece>, pa: set<Path>, na: nat, b: seq<Piece>, nb: nat)
    requires IsAbout(a, pa, na) && IsAbout(b, pa, nb)
    ensures IsAbout(a + b, pa, na + nb)
  {
    Join(a, pa, na, b, pa, nb);
    assert pa + pa == pa;
  }

  lemma RawsAre(x: string, y: string, z: string)
    requires '%' !in x && '%' !in y && '%' !in z
    ensures IsAbout([Raw(x), Raw(y)], {}, 0) && IsAbout([Raw(x), Raw(y), Raw(z)], {}, 0)
  {
    RawIs(x);
    RawIs(y);
    RawIs(z);
    JoinPlain([Raw(x)], {}, 0, [Raw(y)], 0);
    assert [Raw(x)] + [Raw(y)] == [Raw(x), Raw(y)];
    JoinPlain([Raw(x), Raw(y)], {}, 0, [Raw(z)], 0);
    assert [Raw(x), Raw(y)] + [Raw(z)] == [Raw(x), Raw(y), Raw(z)];
  }

  lemma FiveParts(path: Path, a: seq<Piece>, b: seq<Piece>, c: seq<Piece>, d: seq<Piece>, e: seq<Piece>)
    requires IsAbout(a, {}, 0) && IsAbout(b, {path}, 0) && IsAbout(c, {}, 0) && IsAbout(d, {path}, 0) && IsAbout(e, {}, 0)
    ensures IsAbout(a + b + c + d + e, {path}, 0)
  {
    Join(a, {}, 0, b, {path}, 0);
    assert {} + {path} == {path};
    JoinPlain(a + b, {path}, 0, c, 0);
    JoinSame(a + b + c, {path}, 0, d, 0);
    JoinPlain(a + b + c + d, {path}, 0, e, 0);
  }

  predicate IsPlainShape(shape: TimeShape) {
    '%' !in shape.pattern && '%' !in shape.suffix
  }

  lemma WhenIs(path: Path, shape: TimeShape)
    requires IsPlainShape(shape)
    ensures IsAbout(When(path, shape), {path}, 0)
  {
    ExprsAre(path);
    Around("replace(", TextExpr(path), {path}, 0, ", 'T', ' ')");
    RawIs("WHEN ");
    RawsAre(shape.pattern, " THEN to_timestamp(", "");
    RawsAre(shape.suffix, FORMAT, " ");
    FiveParts(path, [Raw("WHEN ")], TextExpr(path), [Raw(shape.pattern), Raw(" THEN to_timestamp(")],
              if shape.hasHours then Normalized(path) else TextExpr(path), [Raw(shape.suffix), Raw(FORMAT), Raw(" ")]);
  }

  lemma {:induction false} CasesAre(path: Path, shapes: seq<TimeShape>)
    requires shapes != [] && forall shape :: shape in shapes ==> IsPlainShape(shape)
    ensures IsAbout(Cases(path, shapes), {path}, 0)
  {
    var last, before := shapes[|shapes| - 1], shapes[..|shapes| - 1];
    WhenIs(path, last);
    if before == [] {
      RawIs("CASE ");
      Join([Raw("CASE ")], {}, 0, When(path, last), {path}, 0);
      assert {} + {path} == {path};
      assert Cases(path, shapes) == [Raw("CASE ")] + When(path, last);
    } else {
      CasesAre(path, before);
      JoinSame(Cases(path, before), {path}, 0, When(path, last), 0);
    }
  }

  lemma PartsArePlain()
    ensures '%' !in TWO && '%' !in DATE && '%' !in DATE_HOUR && '%' !in YEAR_MONTH
  {
    assert '%' !in TWO;
    assert '%' !in YEAR_MONTH;
    assert '%' !in DATE;
  }

  lemma DateShapesArePlain()
    ensures IsPlainShape(MONTH) && IsPlainShape(DAY)
  {
    PartsArePlain();
  }

  lemma HourShapesArePlain()
    ensures IsPlainShape(HOUR) && IsPlainShape(MINUTE) && IsPlainShape(SECOND)
  {
    PartsArePlain();
    assert '%' !in DATE_HOUR + ":" + TWO;
  }

  lemma TimeExprIs(path: Path)
    ensures IsAbout(TimeExpr(path), {path}, 0)
  {
    DateShapesArePlain();
    HourShapesArePlain();
    assert forall shape :: shape in SHAPES ==> shape == MONTH || shape == DAY || shape == HOUR || shape == MINUTE || shape == SECOND;
    CasesAre(path, SHAPES);
    RawIs("END");
    JoinPlain(Cases(path, SHAPES), {path}, 0, [Raw("END")], 0);
  }

  lemma NumberExprIs(path: Path)
    ensures IsAbout(NumberExpr(path), {path}, 0)
  {
    ExprsAre(path);
    RawIs("CASE WHEN ");
    RawIs(NUMBER);
    RawIs(")::DOUBLE PRECISION");
    FiveParts(path, [Raw("CASE WHEN ")], TextExpr(path), [Raw(NUMBER)], TextExpr(path), [Raw(")::DOUBLE PRECISION")]);
  }

  /** The paths a predicate looks at. */
  function Paths(e: Sql): set<Path> {
    match e
    case Always => {}
    case And(l, r) => Paths(l) + Paths(r)
    case Or(l, r) => Paths(l) + Paths(r)
    case Paren(i) => Paths(i)
    case IsNotTrue(i) => Paths(i)
    case KeyExists(path) => {path}
    case KeyMissing(path) => {path}
    case ValueIs(path, _) => {path}
    case _ => {e.path}
  }

  lemma KeyLeafIs(path: Path)
    ensures IsAbout(Pieces(KeyExists(path)), {path}, 0) && IsAbout(Pieces(KeyMissing(path)), {path}, 0)
  {
    ExprsAre(path);
    Enclosed(ValueExpr(path), {path}, 0, NotNull);
    Enclosed(ValueExpr(path), {path}, 0, IsNull);
  }

  lemma BlankLeafIs(path: Path, b: Blank)
    ensures IsAbout(Pieces(ValueIs(path, b)), {path}, 0)
  {
    ExprsAre(path);
    Around("", ValueExpr(path), {path}, 0, BlankLiteral(b));
  }

  /** Fixed text, an expression, and a comparison with a placeholder. */
  lemma CalledLeaf(before: string, a: seq<Piece>, path: Path, between: string, after: string)
    requires IsAbout(a, {path}, 0) && '%' !in before && '%' !in between && '%' !in after
    ensures IsAbout([Raw(before)] + a + [Raw(between), Slot], {path}, 1)
    ensures IsAbout([Raw(before)] + a + [Raw(between), Slot, Raw(after)], {path}, 1)
  {
    Around(before, a, {path}, 0, "");
    Compared([Raw(before)] + a, path, between, after);
  }

  lemma TextEqualsIs(path: Path)
    ensures IsAbout(Pieces(TextEquals(path)), {path}, 1)
  {
    ExprsAre(path);
    CalledLeaf("lower(", TextExpr(path), path, ") = ", "");
  }

  lemma TextLikeIs(path: Path)
    ensures IsAbout(Pieces(TextLike(path)), {path}, 1)
  {
    ExprsAre(path);
    CalledLeaf("lower(", TextExpr(path), path, ") LIKE ", " ESCAPE '\\'");
  }

  lemma HasStringIs(path: Path)
    ensures IsAbout(Pieces(HasString(path)), {path}, 1)
  {
    ExprsAre(path);
    CalledLeaf("jsonb_exists(", ValueExpr(path), path, ", ", ")");
  }

  lemma HoldsIs(path: Path)
    ensures IsAbout(Pieces(Holds(path)), {path}, 1)
  {
    ExprsAre(path);
    Compared(ValueExpr(path), path, " @> ", "::jsonb");
  }

  lemma NumberLeafIs(path: Path, c: Comparison)
    ensures IsAbout(Pieces(NumberCompares(path, c)), {path}, 1)
  {
    NumberExprIs(path);
    Compared(NumberExpr(path), path, Symbol(c), " ELSE FALSE END");
  }

  lemma ComparedTime(time: seq<Piece>, path: Path, c: Comparison)
    requires IsAbout(time, {path}, 0)
    ensures IsAbout(time + [Raw(Symbol(c)), Raw("to_timestamp("), Slot, Raw(FORMAT)], {path}, 1)
  {
    Around("", time, {path}, 0, Symbol(c));
    Compared(time + [Raw(Symbol(c))], path, "to_timestamp(", FORMAT);
    assert time + [Raw(Symbol(c))] + [Raw("to_timestamp("), Slot, Raw(FORMAT)] ==
           time + [Raw(Symbol(c)), Raw("to_timestamp("), Slot, Raw(FORMAT)];
  }

  lemma TimeLeafIs(path: Path, c: Comparison)
    ensures IsAbout(Pieces(TimeCompares(path, c)), {path}, 1)
  {
    TimeExprIs(path);
    ComparedTime(TimeExpr(path), path, c);
  }

  lemma LeafIs(e: Sql)
    requires !e.And? && !e.Or? && !e.Paren? && !e.IsNotTrue? && !e.Always?
    ensures IsAbout(Pieces(e), {e.path}, Slots(e))
  {
    match e {
      case KeyExists(path) => KeyLeafIs(path);
      case KeyMissing(path) => KeyLeafIs(path);
      case ValueIs(path, b) => BlankLeafIs(path, b);
      case TextEquals(path) => TextEqualsIs(path);
      case TextLike(path) => TextLikeIs(path);
      case HasString(path) => HasStringIs(path);
      case Holds(path) => HoldsIs(path);
      case NumberCompares(path, c) => NumberLeafIs(path, c);
      case TimeCompares(path, c) => TimeLeafIs(path, c);
    }
  }

  lemma Between(a: seq<Piece>, pa: set<Path>, na: nat, word: Piece, b: seq<Piece>, pb: set<Path>, nb: nat)
    requires IsAbout(a, pa, na) && IsWord(word) && IsAbout(b, pb, nb)
    ensures IsAbout(a + [word] + b, pa + pb, na + nb)
  {
    WordIs(word);
    JoinPlain(a, pa, na, [word], 0);
    Join(a + [word], pa, na, b, pb, nb);
  }

  /** The pieces of a predicate are its own paths and placeholders and nothing else that counts. */
  lemma {:induction false} PiecesAre(e: Sql)
    ensures IsAbout(Pieces(e), Paths(e), Slots(e))
  {
    match e {
      case Always => RawIs("1=1");
      case And(l, r) => {
        PiecesAre(l);
        PiecesAre(r);
        Between(Pieces(l), Paths(l), Slots(l), Conj, Pieces(r), Paths(r), Slots(r));
      }
      case Or(l, r) => {
        PiecesAre(l);
        PiecesAre(r);
        Between(Pieces(l), Paths(l), Slots(l), Disj, Pieces(r), Paths(r), Slots(r));
      }
      case Paren(i) => {
        PiecesAre(i);
        Enclosed(Pieces(i), Paths(i), Slots(i), NotTrue);
      }
      case IsNotTrue(i) => {
        PiecesAre(i);
        Enclosed(Pieces(i), Paths(i), Slots(i), NotTrue);
      }
      case _ => LeafIs(e);
    }
  }

  /** A driver finds exactly the placeholders meant in the text of a predicate if and only if no key path
      in it brings in placeholders of its own. */
  lemma RenderedPlaceholdersIff(e: Sql)
    ensures Placeholders(Render(e)) == Some(Slots(e)) <==> forall path :: path in Paths(e) ==> IsClean(path)
  {
    PiecesAre(e);
    AboutCounts(Pieces(e), Paths(e), Slots(e));
  }

  lemma KeysAreThePaths(pieces: seq<Piece>, paths: set<Path>, slots: nat)
    requires IsAbout(pieces, paths, slots)
    ensures KeysAreClean(pieces) <==> forall path :: path in paths ==> IsClean(path)
  {
    forall path | path in paths ensures KeyPath(path) in pieces {
    }
  }

  lemma SumIsFirst(sum: Option<nat>, a: nat, b: Option<nat>)
    requires sum == Sum(Some(a), b)
    ensures sum == Some(a) <==> b == Some(0)
  {
  }

  lemma OnlySlotsCount(pieces: seq<Piece>)
    requires ArePlain(pieces)
    ensures Placeholders(TextOf(pieces)) == Some(SlotCount(pieces)) <==> KeysAreClean(pieces)
  {
    PiecesCount(pieces);
    KeysCountIff(pieces);
    SumIsFirst(Placeholders(TextOf(pieces)), SlotCount(pieces), KeyCount(pieces));
  }

  lemma AboutCounts(pieces: seq<Piece>, paths: set<Path>, slots: nat)
    requires IsAbout(pieces, paths, slots)
    ensures Placeholders(TextOf(pieces)) == Some(slots) <==> forall path :: path in paths ==> IsClean(path)
  {
    OnlySlotsCount(pieces);
    KeysAreThePaths(pieces, paths, slots);
  }

  // ----- The placeholders of a plan -----------------------------------------------------------

  lemma {:induction false} MemberPaths(py: Python, path: Path, ms: seq<PyVal>)
    ensures var r := MembershipPredicates(py, path, ms); r.Ok? ==> forall s :: s in r.value.sqls ==> Paths(s) == {path}
  {
    if ms != [] {
      MemberPaths(py, path, ms[..|ms| - 1]);
    }
  }

  lemma {:induction false} JoinedPaths(path: Path, sqls: seq<Sql>)
    requires forall s :: s in sqls ==> Paths(s) == {path}
    ensures Paths(JoinDenied(path, sqls)) == {path}
    ensures sqls != [] ==> Paths(JoinOr(sqls)) == {path}
  {
    if sqls != [] {
      assert sqls[|sqls| - 1] in sqls;
      JoinedPaths(path, sqls[..|sqls| - 1]);
    }
  }

  lemma {:induction false} BlanksPaths(path: Path, blanks: seq<Blank>)
    ensures Paths(OrBlanks(path, blanks)) == {path} && Paths(AndNoBlanks(path, blanks)) == {path}
  {
    if blanks != [] {
      BlanksPaths(path, blanks[..|blanks| - 1]);
      assert Paths(ValueIs(path, blanks[|blanks| - 1])) == {path};
    }
  }

  lemma TranslatedPaths(py: Python, rd: Reader, f: Filter)
    requires Translate(py, rd, f).Ok?
    ensures Paths(Translate(py, rd, f).value.sql) == {PathOf(f.key).value}
  {
    var path := PathOf(f.key).value;
    match f.op {
      case Empty => BlanksPaths(path, BLANKS);
      case NotEmpty => BlanksPaths(path, BLANKS);
      case Compares(_) => ComparePaths(py, rd, path, f);
      case In => MembersPaths(py, path, f);
      case NotIn => MembersPaths(py, path, f);
      case Unknown(_) =>
      case _ =>
        assert Paths(Or(HasString(path), TextLike(path))) == {path};
        assert Paths(IsNotTrue(Or(HasString(path), TextLike(path)))) == {path};
    }
  }

  lemma ComparePaths(py: Python, rd: Reader, path: Path, f: Filter)
    requires f.op.Compares? && TranslateCompare(py, rd, path, f.op.c, f.value).Ok?
    ensures Paths(TranslateCompare(py, rd, path, f.op.c, f.value).value.sql) == {path}
  {
    if f.op.c == Equal || f.op.c == NotEqual {
      var t := EqualPredicate(py, path, f.value).value;
      assert Paths(t.sql) == {path};
      assert Paths(IsNotTrue(t.sql)) == {path};
    }
  }

  lemma MembersPaths(py: Python, path: Path, f: Filter)
    requires TranslateMembers(py, path, f.op, f.value).Ok?
    ensures Paths(TranslateMembers(py, path, f.op, f.value).value.sql) == {path}
  {
    var ms := Members(py, f.value).value;
    MemberPaths(py, path, ms);
    JoinedPaths(path, MembershipPredicates(py, path, ms).value.sqls);
  }

  predicate InSome(sqls: seq<Sql>, path: Path) {
    exists s :: s in sqls && path in Paths(s)
  }

  lemma InSomeSnoc(before: seq<Sql>, last: Sql)
    ensures forall path :: InSome(before + [last], path) <==> InSome(before, path) || path in Paths(last)
  {
    assert forall s :: s in before + [last] <==> s in before || s == last;
  }

  lemma {:induction false} JoinPaths(sqls: seq<Sql>)
    requires sqls != []
    ensures forall path :: path in Paths(JoinOr(sqls)) <==> InSome(sqls, path)
    ensures forall path :: path in Paths(JoinAnd(sqls)) <==> InSome(sqls, path)
  {
    var last, before := sqls[|sqls| - 1], sqls[..|sqls| - 1];
    InSomeSnoc(before, last);
    assert sqls == before + [last];
    if before == [] {
      assert Paths(JoinOr(sqls)) == Paths(Paren(last)) == Paths(last) == Paths(JoinAnd(sqls));
    } else {
      JoinPaths(before);
      assert Paths(JoinOr(sqls)) == Paths(JoinOr(before)) + Paths(Paren(last));
      assert Paths(JoinAnd(sqls)) == Paths(JoinAnd(before)) + Paths(Paren(last));
    }
  }

  /** The placeholders in the text of a plan are as many as its parameters if and only if the path of no
      key brings in others. */
  lemma PlanCountsIff(py: Python, rd: Reader, filters: seq<Filter>, logic: string)
    requires FilterFor(py, rd, filters, logic).Ok?
    ensures forall f :: f in filters ==> PathOf(f.key).Ok?
    ensures var t := FilterFor(py, rd, filters, logic).value;
            Placeholders(Render(t.sql)) == Some(|t.params|) <==> forall f :: f in filters ==> IsClean(PathOf(f.key).value)
  {
    var t := FilterFor(py, rd, filters, logic).value;
    PlanFits(py, rd, filters, logic);
    RenderedPlaceholdersIff(t.sql);
    PlanPaths(py, rd, filters, logic);
    if forall f :: f in filters ==> IsClean(PathOf(f.key).value) {
      assert forall path :: path in Paths(t.sql) ==> IsClean(path);
    }
    if forall path :: path in Paths(t.sql) ==> IsClean(path) {
      assert forall f :: f in filters ==> PathOf(f.key).value in Paths(t.sql);
    }
  }

  lemma PlanPaths(py: Python, rd: Reader, filters: seq<Filter>, logic: string)
    requires FilterFor(py, rd, filters, logic).Ok?
    ensures forall f :: f in filters ==> PathOf(f.key).Ok?
    ensures forall path :: path in Paths(FilterFor(py, rd, filters, logic).value.sql) <==>
                           exists f :: f in filters && PathOf(f.key).value == path
  {
    var ts := TranslateAll(py, rd, filters).value;
    TranslatedOneByOne(py, rd, filters);
    var sqls := SqlsOf(ts);
    forall i | 0 <= i < |filters| ensures PathOf(filters[i].key).Ok? && Paths(sqls[i]) == {PathOf(filters[i].key).value} {
      TranslatedPaths(py, rd, filters[i]);
    }
    if filters != [] {
      JoinPaths(sqls);
      KeysOfSqls(filters, sqls);
    }
  }

  lemma KeysOfSqls(filters: seq<Filter>, sqls: seq<Sql>)
    requires |filters| == |sqls|
    requires forall i :: 0 <= i < |filters| ==> PathOf(filters[i].key).Ok? && Paths(sqls[i]) == {PathOf(filters[i].key).value}
    ensures forall f :: f in filters ==> PathOf(f.key).Ok?
    ensures forall path :: InSome(sqls, path) <==> exists f :: f in filters && PathOf(f.key).value == path
  {
    forall s | s in sqls ensures exists f :: f in filters && Paths(s) == {PathOf(f.key).value} {
      var i :| 0 <= i < |sqls| && sqls[i] == s;
      assert filters[i] in filters;
    }
    forall f | f in filters ensures exists s :: s in sqls && Paths(s) == {PathOf(f.key).value} {
      var i :| 0 <= i < |filters| && filters[i] == f;
      assert sqls[i] in sqls;
    }
  }
}
