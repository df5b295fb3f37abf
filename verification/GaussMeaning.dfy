/** What the compiled SQL predicate selects, and that its parameters fit its placeholders. */
module GaussMeaning {
  import opened Wrappers
  import opened Text
  import opened Patterns
  import opened Documents
  import opened PythonValues
  import opened MetaFilter
  import opened GaussFilter

  // ----- Parameters fit ---------------------------------------------------------

  /** The predicate takes exactly the parameters it comes with. */
  predicate Fits(t: Translated) {
    |t.params| == Slots(t.sql)
  }

  function SlotsOf(sqls: seq<Sql>): nat {
    if sqls == [] then 0 else SlotsOf(sqls[..|sqls| - 1]) + Slots(sqls[|sqls| - 1])
  }

  lemma {:induction false} JoinedSlots(path: Path, sqls: seq<Sql>)
    ensures Slots(JoinDenied(path, sqls)) == SlotsOf(sqls)
    ensures sqls != [] ==> Slots(JoinOr(sqls)) == SlotsOf(sqls) && Slots(JoinAnd(sqls)) == SlotsOf(sqls)
  {
    if sqls != [] {
      JoinedSlots(path, sqls[..|sqls| - 1]);
    }
  }

  lemma EqualFits(py: Python, path: Path, v: PyVal)
    ensures EqualPredicate(py, path, v).Ok? ==> Fits(EqualPredicate(py, path, v).value)
  {
  }

  lemma {:induction false} MembersFit(py: Python, path: Path, ms: seq<PyVal>)
    ensures var r := MembershipPredicates(py, path, ms);
            r.Ok? ==> |r.value.params| == SlotsOf(r.value.sqls)
  {
    if ms != [] {
      MembersFit(py, path, ms[..|ms| - 1]);
      EqualFits(py, path, ms[|ms| - 1]);
      var r := MembershipPredicates(py, path, ms);
      if r.Ok? {
        assert r.value.sqls[..|ms| - 1] == MembershipPredicates(py, path, ms[..|ms| - 1]).value.sqls;
      }
    }
  }

  lemma {:induction false} BlanksFit(path: Path, blanks: seq<Blank>)
    ensures Slots(OrBlanks(path, blanks)) == 0 && Slots(AndNoBlanks(path, blanks)) == 0
  {
    if blanks != [] {
      BlanksFit(path, blanks[..|blanks| - 1]);
    }
  }

  lemma DeniedFits(path: Path, t: Translated)
    requires Fits(t)
    ensures Fits(Denied(path, t))
  {
    assert Slots(IsNotTrue(t.sql)) == Slots(t.sql);
  }

  lemma MembershipFits(py: Python, path: Path, op: Op, v: PyVal)
    ensures TranslateMembers(py, path, op, v).Ok? ==> Fits(TranslateMembers(py, path, op, v).value)
  {
    if TranslateMembers(py, path, op, v).Ok? {
      var ms := Members(py, v).value;
      MembersFit(py, path, ms);
      JoinedSlots(path, MembershipPredicates(py, path, ms).value.sqls);
    }
  }

  lemma TextFits(py: Python, path: Path, op: Op, v: PyVal)
    ensures TranslateText(py, path, op, v).Ok? ==> Fits(TranslateText(py, path, op, v).value)
  {
    if TranslateText(py, path, op, v).Ok? {
      DeniedFits(path, ContainsPredicate(py, path, Show(py, v)));
    }
  }

  lemma CompareFits(py: Python, rd: Reader, path: Path, c: Comparison, v: PyVal)
    ensures TranslateCompare(py, rd, path, c, v).Ok? ==> Fits(TranslateCompare(py, rd, path, c, v).value)
  {
    if EqualPredicate(py, path, v).Ok? {
      EqualFits(py, path, v);
      DeniedFits(path, EqualPredicate(py, path, v).value);
    }
  }

  lemma TranslationFits(py: Python, rd: Reader, f: Filter)
    ensures Translate(py, rd, f).Ok? ==> Fits(Translate(py, rd, f).value)
  {
    if PathOf(f.key).Ok? {
      var path := PathOf(f.key).value;
      match f.op {
        case Empty => BlanksFit(path, BLANKS);
        case NotEmpty => BlanksFit(path, BLANKS);
        case Compares(c) => CompareFits(py, rd, path, c, f.value);
        case In => MembershipFits(py, path, f.op, f.value);
        case NotIn => MembershipFits(py, path, f.op, f.value);
        case Unknown(_) =>
        case _ => TextFits(py, path, f.op, f.value);
      }
    }
  }

  lemma {:induction false} TranslatedOneByOne(py: Python, rd: Reader, filters: seq<Filter>)
    requires TranslateAll(py, rd, filters).Ok?
    ensures var ts := TranslateAll(py, rd, filters).value;
            |ts| == |filters| && forall i :: 0 <= i < |filters| ==> Translate(py, rd, filters[i]) == Ok(ts[i])
  {
    if filters != [] {
      TranslatedOneByOne(py, rd, filters[..|filters| - 1]);
    }
  }

  lemma {:induction false} ParamsFit(ts: seq<Translated>)
    requires forall t :: t in ts ==> Fits(t)
    ensures |ParamsOf(ts)| == SlotsOf(SqlsOf(ts))
  {
    if ts != [] {
      var last := |ts| - 1;
      assert ts[last] in ts;
      ParamsFit(ts[..last]);
      assert SqlsOf(ts)[..last] == SqlsOf(ts[..last]);
    }
  }

  lemma TranslatedFit(py: Python, rd: Reader, filters: seq<Filter>)
    requires TranslateAll(py, rd, filters).Ok?
    ensures forall t :: t in TranslateAll(py, rd, filters).value ==> Fits(t)
  {
    var ts := TranslateAll(py, rd, filters).value;
    TranslatedOneByOne(py, rd, filters);
    forall t | t in ts ensures Fits(t) {
      var i :| 0 <= i < |ts| && ts[i] == t;
      TranslationFits(py, rd, filters[i]);
    }
  }

  /** A whole plan consumes exactly the parameter list. */
  lemma PlanFits(py: Python, rd: Reader, filters: seq<Filter>, logic: string)
    requires FilterFor(py, rd, filters, logic).Ok?
    ensures Fits(FilterFor(py, rd, filters, logic).value)
  {
    var ts := TranslateAll(py, rd, filters).value;
    TranslatedFit(py, rd, filters);
    ParamsFit(ts);
    JoinedSlots([], SqlsOf(ts));
  }

  // ----- Selecting --------------------------------------------------------------------

  /** A row is selected when the predicate is true, not when it is unknown. */
  predicate Selects(db: Database, j: Json, t: Translated)
    requires Fits(t)
  {
    Eval(db, j, t.sql, t.params) == True
  }

  predicate HasKey(db: Database, j: Json, path: Path) {
    ValueAt(db, j, path).Some?
  }

  predicate SelectsSome(db: Database, j: Json, ts: seq<Translated>)
    requires forall t :: t in ts ==> Fits(t)
  {
    exists t :: t in ts && Selects(db, j, t)
  }

  predicate SelectsAll(db: Database, j: Json, ts: seq<Translated>)
    requires forall t :: t in ts ==> Fits(t)
  {
    forall t :: t in ts ==> Selects(db, j, t)
  }

  lemma SplitParams(db: Database, j: Json, l: Sql, r: Sql, pl: seq<Param>, pr: seq<Param>)
    requires |pl| == Slots(l) && |pr| == Slots(r)
    ensures Eval(db, j, And(l, r), pl + pr) == And3(Eval(db, j, l, pl), Eval(db, j, r, pr))
    ensures Eval(db, j, Or(l, r), pl + pr) == Or3(Eval(db, j, l, pl), Eval(db, j, r, pr))
  {
    SplitAnd(db, j, l, r, pl + pr);
    SplitOr(db, j, l, r, pl + pr);
    assert (pl + pr)[..Slots(l)] == pl && (pl + pr)[Slots(l)..] == pr;
  }

  lemma SplitAnd(db: Database, j: Json, l: Sql, r: Sql, all: seq<Param>)
    requires |all| == Slots(l) + Slots(r)
    ensures Eval(db, j, And(l, r), all) == And3(Eval(db, j, l, all[..Slots(l)]), Eval(db, j, r, all[Slots(l)..]))
  {
  }

  lemma SplitOr(db: Database, j: Json, l: Sql, r: Sql, all: seq<Param>)
    requires |all| == Slots(l) + Slots(r)
    ensures Eval(db, j, Or(l, r), all) == Or3(Eval(db, j, l, all[..Slots(l)]), Eval(db, j, r, all[Slots(l)..]))
  {
  }

  predicate AllFit(ts: seq<Translated>) {
    forall t :: t in ts ==> Fits(t)
  }

  /** The truth of the disjunction, of the conjunction, and of the key with none of the predicates true,
      each predicate with its own parameters. */
  function SomeTruth(db: Database, j: Json, ts: seq<Translated>): Truth
    requires AllFit(ts)
  {
    if ts == [] then False
    else
      var last := ts[|ts| - 1];
      assert last in ts;
      Or3(SomeTruth(db, j, ts[..|ts| - 1]), Eval(db, j, last.sql, last.params))
  }

  function EveryTruth(db: Database, j: Json, ts: seq<Translated>): Truth
    requires AllFit(ts)
  {
    if ts == [] then True
    else
      var last := ts[|ts| - 1];
      assert last in ts;
      And3(EveryTruth(db, j, ts[..|ts| - 1]), Eval(db, j, last.sql, last.params))
  }

  lemma {:induction false} TruthSelects(db: Database, j: Json, ts: seq<Translated>)
    requires AllFit(ts)
    ensures SomeTruth(db, j, ts) == True <==> SelectsSome(db, j, ts)
    ensures EveryTruth(db, j, ts) == True <==> SelectsAll(db, j, ts)
  {
    if ts != [] {
      var last, before := ts[|ts| - 1], ts[..|ts| - 1];
      assert forall t :: t in ts <==> t in before || t == last by { assert ts == before + [last]; }
      TruthSelects(db, j, before);
      assert SelectsSome(db, j, ts) <==> SelectsSome(db, j, before) || Selects(db, j, last);
      assert SelectsAll(db, j, ts) <==> SelectsAll(db, j, before) && Selects(db, j, last);
    }
  }

  lemma LastFits(ts: seq<Translated>)
    requires ts != [] && AllFit(ts)
    ensures var last, before := ts[|ts| - 1], ts[..|ts| - 1];
            && AllFit(before) && Fits(last)
            && SqlsOf(ts)[..|ts| - 1] == SqlsOf(before)
            && |ParamsOf(before)| == SlotsOf(SqlsOf(before)) && ParamsOf(ts) == ParamsOf(before) + last.params
  {
    ParamsFit(ts[..|ts| - 1]);
  }

  lemma ParenEval(db: Database, j: Json, t: Translated)
    requires Fits(t)
    ensures Slots(Paren(t.sql)) == |t.params| && Eval(db, j, Paren(t.sql), t.params) == Eval(db, j, t.sql, t.params)
  {
  }

  lemma WithParen(db: Database, j: Json, l: Sql, pl: seq<Param>, t: Translated)
    requires |pl| == Slots(l) && Fits(t)
    ensures Slots(Or(l, Paren(t.sql))) == |pl + t.params| && Slots(And(l, Paren(t.sql))) == |pl + t.params|
    ensures Eval(db, j, Or(l, Paren(t.sql)), pl + t.params) == Or3(Eval(db, j, l, pl), Eval(db, j, t.sql, t.params))
    ensures Eval(db, j, And(l, Paren(t.sql)), pl + t.params) == And3(Eval(db, j, l, pl), Eval(db, j, t.sql, t.params))
  {
    ParenEval(db, j, t);
    SplitParams(db, j, l, Paren(t.sql), pl, t.params);
  }

  lemma WithDenial(db: Database, j: Json, l: Sql, pl: seq<Param>, t: Translated)
    requires |pl| == Slots(l) && Fits(t)
    ensures Slots(And(l, IsNotTrue(t.sql))) == |pl + t.params|
    ensures Eval(db, j, And(l, IsNotTrue(t.sql)), pl + t.params) ==
            And3(Eval(db, j, l, pl), Of(Eval(db, j, t.sql, t.params) != True))
  {
    SplitParams(db, j, l, IsNotTrue(t.sql), pl, t.params);
  }

  /** Joined predicates read their parameters off the common list, each its own. */
  lemma {:induction false} JoinOrSelects(db: Database, j: Json, ts: seq<Translated>)
    requires ts != [] && AllFit(ts)
    ensures |ParamsOf(ts)| == Slots(JoinOr(SqlsOf(ts)))
    ensures Eval(db, j, JoinOr(SqlsOf(ts)), ParamsOf(ts)) == SomeTruth(db, j, ts)
  {
    var last, before := ts[|ts| - 1], ts[..|ts| - 1];
    LastFits(ts);
    if before == [] {
      assert ParamsOf(ts) == [] + last.params == last.params;
      assert JoinOr(SqlsOf(ts)) == Paren(last.sql);
      ParenEval(db, j, last);
    } else {
      JoinOrSelects(db, j, before);
      assert JoinOr(SqlsOf(ts)) == Or(JoinOr(SqlsOf(before)), Paren(last.sql));
      WithParen(db, j, JoinOr(SqlsOf(before)), ParamsOf(before), last);
    }
  }

  lemma {:induction false} JoinAndSelects(db: Database, j: Json, ts: seq<Translated>)
    requires ts != [] && AllFit(ts)
    ensures |ParamsOf(ts)| == Slots(JoinAnd(SqlsOf(ts)))
    ensures Eval(db, j, JoinAnd(SqlsOf(ts)), ParamsOf(ts)) == EveryTruth(db, j, ts)
  {
    var last, before := ts[|ts| - 1], ts[..|ts| - 1];
    LastFits(ts);
    if before == [] {
      assert ParamsOf(ts) == [] + last.params == last.params;
      assert JoinAnd(SqlsOf(ts)) == Paren(last.sql);
      ParenEval(db, j, last);
    } else {
      JoinAndSelects(db, j, before);
      assert JoinAnd(SqlsOf(ts)) == And(JoinAnd(SqlsOf(before)), Paren(last.sql));
      WithParen(db, j, JoinAnd(SqlsOf(before)), ParamsOf(before), last);
    }
  }

  /** The key is there and none of the fragments is true: an unknown fragment does not deny. */
  lemma {:induction false} JoinDeniedSelects(db: Database, j: Json, path: Path, ts: seq<Translated>)
    requires AllFit(ts)
    ensures |ParamsOf(ts)| == Slots(JoinDenied(path, SqlsOf(ts)))
    ensures Eval(db, j, JoinDenied(path, SqlsOf(ts)), ParamsOf(ts)) ==
            Of(HasKey(db, j, path) && SomeTruth(db, j, ts) != True)
  {
    if ts != [] {
      var last, before := ts[|ts| - 1], ts[..|ts| - 1];
      LastFits(ts);
      JoinDeniedSelects(db, j, path, before);
      assert JoinDenied(path, SqlsOf(ts)) == And(JoinDenied(path, SqlsOf(before)), IsNotTrue(last.sql));
      WithDenial(db, j, JoinDenied(path, SqlsOf(before)), ParamsOf(before), last);
    }
  }

  /** The predicate of a plan selects a document exactly when all, or for "or" some, of its filters do;
      without filters it selects every document. */
  lemma PlanSelects(py: Python, rd: Reader, db: Database, j: Json, filters: seq<Filter>, logic: string)
    requires FilterFor(py, rd, filters, logic).Ok?
    ensures Fits(FilterFor(py, rd, filters, logic).value)
    ensures forall f :: f in filters ==> Translate(py, rd, f).Ok? && Fits(Translate(py, rd, f).value)
    ensures Selects(db, j, FilterFor(py, rd, filters, logic).value) <==>
            (filters == [] ||
             if logic == "and" then forall f :: f in filters ==> Selects(db, j, Translate(py, rd, f).value)
             else exists f :: f in filters && Selects(db, j, Translate(py, rd, f).value))
  {
    PlanFits(py, rd, filters, logic);
    var ts := TranslateAll(py, rd, filters).value;
    TranslatedOneByOne(py, rd, filters);
    TranslatedFit(py, rd, filters);
    forall f | f in filters ensures Translate(py, rd, f).Ok? && Translate(py, rd, f).value in ts {
      var i :| 0 <= i < |filters| && filters[i] == f;
      assert ts[i] in ts;
    }
    if filters != [] {
      JoinAndSelects(db, j, ts);
      JoinOrSelects(db, j, ts);
      TruthSelects(db, j, ts);
      forall t | t in ts ensures exists f :: f in filters && Translate(py, rd, f) == Ok(t) {
        var i :| 0 <= i < |ts| && ts[i] == t;
        assert filters[i] in filters;
      }
    }
  }

  // ----- Negative filters and their twins ---------------------------------------------------

  predicate IsNegative(op: Op) {
    op == Compares(NotEqual) || op == NotIn || op == NotContains
  }

  /** The same filter with the operator that a negative one denies. */
  function Twin(f: Filter): Filter {
    if f.op == Compares(NotEqual) then f.(op := Compares(Equal))
    else if f.op == NotIn then f.(op := MetaFilter.In)
    else f.(op := Contains)
  }

  lemma DeniedSelects(db: Database, j: Json, path: Path, t: Translated)
    requires Fits(t)
    ensures Fits(Denied(path, t))
    ensures Selects(db, j, Denied(path, t)) <==> HasKey(db, j, path) && !Selects(db, j, t)
  {
    SplitParams(db, j, KeyExists(path), IsNotTrue(t.sql), [], t.params);
    assert [] + t.params == t.params;
  }

  lemma OneMoreTranslated(before: seq<Translated>, t: Translated)
    ensures SqlsOf(before + [t]) == SqlsOf(before) + [t.sql]
    ensures ParamsOf(before + [t]) == ParamsOf(before) + t.params
  {
    assert (before + [t])[..|before|] == before;
  }

  /** The members' equalities one by one. */
  lemma {:induction false} MembersOneByOne(py: Python, path: Path, ms: seq<PyVal>) returns (ts: seq<Translated>)
    requires MembershipPredicates(py, path, ms).Ok?
    ensures forall t :: t in ts ==> Fits(t)
    ensures MembershipPredicates(py, path, ms) == Ok(Fragments(SqlsOf(ts), ParamsOf(ts)))
  {
    if ms == [] {
      ts := [];
    } else {
      var last := |ms| - 1;
      var before := MembersOneByOne(py, path, ms[..last]);
      var t := EqualPredicate(py, path, ms[last]).value;
      EqualFits(py, path, ms[last]);
      ts := before + [t];
      OneMoreTranslated(before, t);
    }
  }

  /** `in` selects where some member is equal, `not in` where the key exists and none is. */
  lemma MembershipSelects(py: Python, db: Database, j: Json, path: Path, v: PyVal)
    requires TranslateMembers(py, path, MetaFilter.In, v).Ok?
    ensures TranslateMembers(py, path, NotIn, v).Ok?
    ensures var pos, neg := TranslateMembers(py, path, MetaFilter.In, v).value, TranslateMembers(py, path, NotIn, v).value;
            && Fits(pos) && Fits(neg)
            && (Selects(db, j, neg) <==> HasKey(db, j, path) && !Selects(db, j, pos))
  {
    var ms := Members(py, v).value;
    var ts := MembersOneByOne(py, path, ms);
    assert AllFit(ts);
    JoinOrSelects(db, j, ts);
    JoinDeniedSelects(db, j, path, ts);
  }

  /** Each of `≠`, `not in` and `not contains` can be translated exactly when its positive twin can, and
      selects exactly the documents that have the key and that the twin does not select. */
  lemma NegativesComplement(py: Python, rd: Reader, db: Database, j: Json, f: Filter)
    requires IsNegative(f.op)
    ensures Translate(py, rd, f).Ok? <==> Translate(py, rd, Twin(f)).Ok?
    ensures Translate(py, rd, f).Ok? ==>
              var neg, pos := Translate(py, rd, f).value, Translate(py, rd, Twin(f)).value;
              && Fits(neg) && Fits(pos)
              && (Selects(db, j, neg) <==> HasKey(db, j, PathOf(f.key).value) && !Selects(db, j, pos))
  {
    TranslationFits(py, rd, f);
    TranslationFits(py, rd, Twin(f));
    if Translate(py, rd, Twin(f)).Ok? {
      var path := PathOf(f.key).value;
      if f.op == NotIn {
        MembershipSelects(py, db, j, path, f.value);
      } else {
        DeniedSelects(db, j, path, Translate(py, rd, Twin(f)).value);
      }
    }
  }

  // ----- Empty -------------------------------------------------------------------------------

  predicate IsEmptyValue(v: Option<Json>) {
    v.None? || v.value == NULL || v.value == Str("") || v.value == Arr([]) || v.value == Obj([])
  }

  predicate IsOneOf(v: Json, blanks: seq<Blank>) {
    exists i | 0 <= i < |blanks| :: v == JsonOf(blanks[i])
  }

  lemma {:induction false} BlanksSelect(db: Database, j: Json, path: Path, blanks: seq<Blank>)
    ensures Slots(OrBlanks(path, blanks)) == 0 && Slots(AndNoBlanks(path, blanks)) == 0
    ensures var v := ValueAt(db, j, path);
            && (Eval(db, j, OrBlanks(path, blanks), []) == True <==> (v.None? || IsOneOf(v.value, blanks)))
            && Eval(db, j, AndNoBlanks(path, blanks), []) == Of(v.Some? && !IsOneOf(v.value, blanks))
  {
    BlanksFit(path, blanks);
    if blanks != [] {
      var last, before := blanks[|blanks| - 1], blanks[..|blanks| - 1];
      BlanksSelect(db, j, path, before);
      var none: seq<Param> := [];
      assert none + none == none;
      SplitParams(db, j, OrBlanks(path, before), ValueIs(path, last), none, none);
      SplitParams(db, j, AndNoBlanks(path, before), IsNotTrue(ValueIs(path, last)), none, none);
      var v := ValueAt(db, j, path);
      if v.Some? {
        OneMoreBlank(v.value, before, last);
        assert blanks == before + [last];
      }
    }
  }

  lemma OneMoreBlank(v: Json, blanks: seq<Blank>, b: Blank)
    ensures IsOneOf(v, blanks + [b]) <==> IsOneOf(v, blanks) || v == JsonOf(b)
  {
    var all := blanks + [b];
    if IsOneOf(v, blanks) {
      var i :| 0 <= i < |blanks| && v == JsonOf(blanks[i]);
      assert all[i] == blanks[i];
    }
    assert all[|blanks|] == b;
  }

  lemma EmptyValues(v: Json)
    ensures IsOneOf(v, BLANKS) <==> IsEmptyValue(Some(v))
  {
    assert BLANKS[0] == JsonNull && BLANKS[1] == BlankText && BLANKS[2] == EmptyArray && BLANKS[3] == EmptyObject;
  }

  /** `empty` selects a document without the key or with null or an empty value there, `not empty`
      every other document: between them they select each document once. */
  lemma EmptyPartitions(py: Python, rd: Reader, db: Database, j: Json, f: Filter)
    requires PathOf(f.key).Ok?
    ensures var path := PathOf(f.key).value;
            var e, n := Translated(OrBlanks(path, BLANKS), []), Translated(AndNoBlanks(path, BLANKS), []);
            && Translate(py, rd, f.(op := Empty)) == Ok(e) && Translate(py, rd, f.(op := NotEmpty)) == Ok(n)
            && Fits(e) && Fits(n)
            && (Selects(db, j, e) <==> IsEmptyValue(ValueAt(db, j, path)))
            && (Selects(db, j, n) <==> !IsEmptyValue(ValueAt(db, j, path)))
  {
    var path := PathOf(f.key).value;
    BlanksSelect(db, j, path, BLANKS);
    if ValueAt(db, j, path).Some? {
      EmptyValues(ValueAt(db, j, path).value);
    }
  }

  // ----- Text filters ---------------------------------------------------------------------------

  predicate FindsText(db: Database, op: Op, value: Option<Json>, text: Option<string>, want: string) {
    match op
    case Contains => (text.Some? && Occurs(want, db.lower(text.value))) || (value.Some? && StringIn(value.value, want))
    case StartWith => text.Some? && StartsWith(db.lower(text.value), want)
    case _ => text.Some? && EndsWith(db.lower(text.value), want)
  }

  predicate EqualsText(db: Database, value: Option<Json>, want: string) {
    match value
    case None => false
    case Some(Str(s)) => db.lower(s) == want || s == want
    case Some(v) => StringIn(v, want) || (v != NULL && db.lower(db.show(v)) == want)
  }

  /** What a text filter finds: in the text at the path, and for `contains` also as a whole string of
      the value. */
  lemma TextFiltersSelect(py: Python, rd: Reader, db: Database, j: Json, f: Filter)
    requires f.op in {Contains, StartWith, EndWith} && Translate(py, rd, f).Ok?
    ensures Fits(Translate(py, rd, f).value)
    ensures var path, want := PathOf(f.key).value, Lower(py, Show(py, f.value));
            Selects(db, j, Translate(py, rd, f).value) <==> FindsText(db, f.op, ValueAt(db, j, path), TextAt(db, j, path), want)
  {
    var path, want := PathOf(f.key).value, Lower(py, Show(py, f.value));
    TranslationFits(py, rd, f);
    if f.op == Contains {
      ContainsSelects(db, j, path, want);
    } else if f.op == StartWith {
      LikeSelects(db, j, path, EscapeLike(want) + "%", want, f.op);
    } else {
      LikeSelects(db, j, path, "%" + EscapeLike(want), want, f.op);
    }
  }

  lemma LikeSelects(db: Database, j: Json, path: Path, pattern: string, want: string, op: Op)
    requires (op == StartWith && pattern == EscapeLike(want) + "%") || (op == EndWith && pattern == "%" + EscapeLike(want))
    ensures Eval(db, j, TextLike(path), [TextParam(pattern)]) == True <==>
            FindsText(db, op, ValueAt(db, j, path), TextAt(db, j, path), want)
  {
    if TextAt(db, j, path).Some? {
      LikeStarts(want, db.lower(TextAt(db, j, path).value));
      LikeEnds(want, db.lower(TextAt(db, j, path).value));
    }
  }

  lemma ContainsSelects(db: Database, j: Json, path: Path, want: string)
    ensures Eval(db, j, Or(HasString(path), TextLike(path)), [TextParam(want), TextParam("%" + EscapeLike(want) + "%")]) == True <==>
            FindsText(db, Contains, ValueAt(db, j, path), TextAt(db, j, path), want)
  {
    var like := TextParam("%" + EscapeLike(want) + "%");
    SplitParams(db, j, HasString(path), TextLike(path), [TextParam(want)], [like]);
    assert [TextParam(want)] + [like] == [TextParam(want), like];
    if TextAt(db, j, path).Some? {
      LikeContains(want, db.lower(TextAt(db, j, path).value));
    }
  }

  /** `=` a text finds a string without regard to case, but an element of an array only if it is written
      in lower case: the lower-cased text is compared with the elements as they are. */
  lemma EqualTextSelects(py: Python, rd: Reader, db: Database, j: Json, f: Filter)
    requires f.op == Compares(Equal) && PathOf(f.key).Ok?
    requires f.value.PStr? && f.value.s != "" && CoerceScalar(py, f.value) == Ok(f.value)
    ensures Translate(py, rd, f).Ok? && Fits(Translate(py, rd, f).value)
    ensures var path, want := PathOf(f.key).value, Lower(py, f.value.s);
            Selects(db, j, Translate(py, rd, f).value) <==> EqualsText(db, ValueAt(db, j, path), want)
  {
    var path, want := PathOf(f.key).value, Lower(py, f.value.s);
    TranslationFits(py, rd, f);
    SplitParams(db, j, TextEquals(path), HasString(path), [TextParam(want)], [TextParam(want)]);
    assert [TextParam(want)] + [TextParam(want)] == [TextParam(want), TextParam(want)];
  }

  /** Some element of the array is the wanted text but for its case. */
  predicate HasElement(db: Database, items: seq<Json>, want: string) {
    exists i | 0 <= i < |items| :: items[i].Str? && db.lower(items[i].s) == want
  }

  /** The wanted text is there, but no element is written in lower case. */
  predicate OnlyInOtherCase(db: Database, items: seq<Json>, want: string) {
    HasElement(db, items, want) && Str(want) !in items
  }

  /** On an array, `=` a text is equality with some element without regard to case exactly where the text
      is not there in other cases only. (The text of the array itself is compared, too; where that should
      be the wanted text, an element has to be it as well.) */
  lemma ArrayEqualityIff(py: Python, rd: Reader, db: Database, j: Json, f: Filter, items: seq<Json>)
    requires f.op == Compares(Equal) && PathOf(f.key).Ok?
    requires f.value.PStr? && f.value.s != "" && CoerceScalar(py, f.value) == Ok(f.value)
    requires ValueAt(db, j, PathOf(f.key).value) == Some(Arr(items))
    requires db.lower(Lower(py, f.value.s)) == Lower(py, f.value.s)
    ensures Translate(py, rd, f).Ok? && Fits(Translate(py, rd, f).value)
    ensures var want := Lower(py, f.value.s);
            (Selects(db, j, Translate(py, rd, f).value) <==> HasElement(db, items, want)) <==>
            if db.lower(db.show(Arr(items))) == want then HasElement(db, items, want) else !OnlyInOtherCase(db, items, want)
  {
    EqualTextSelects(py, rd, db, j, f);
    var want := Lower(py, f.value.s);
    if Str(want) in items {
      var i :| 0 <= i < |items| && items[i] == Str(want);
      assert HasElement(db, items, want);
    }
  }

  lemma {:induction false} NoDots(key: string)
    requires '.' !in key
    ensures SplitDots(key) == [key]
  {
    if key != "" {
      NoDots(key[1..]);
      assert [key[1..]][1..] == [];
      assert [key[0]] + key[1..] == key;
    }
  }

  /** A key without dots is one segment. */
  lemma PlainKeyIsPath(key: string)
    requires key != "" && '.' !in key && '\0' !in key
    ensures PathOf(PStr(key)) == Ok([key])
  {
    NoDots(key);
    assert forall p :: p in SplitDots(key) ==> p == key;
  }

  lemma FieldValue(db: Database, key: string, v: Json)
    ensures ValueAt(db, Obj([Field(key, v)]), [key]) == Some(v)
  {
    assert [key][1..] == [];
    assert ValueAt(db, v, []) == Some(v);
  }

  lemma MixedCaseArray(db: Database)
    requires db.lower("Ab") == "ab" && db.lower(db.show(Arr([Str("Ab")]))) != "ab"
    ensures !EqualsText(db, Some(Arr([Str("Ab")])), "ab") && HasElement(db, [Str("Ab")], "ab")
  {
    var items := [Str("Ab")];
    assert items[0] == Str("Ab") && "Ab"[0] == 'A' && "ab"[0] == 'a';
    assert forall x :: x in items ==> x == Str("Ab");
  }

  /** An element in mixed case is not found. */
  lemma MixedCaseElementIsMissed(py: Python, rd: Reader, db: Database)
    requires py.literal("ab").None? && py.lower('a') == 'a' && py.lower('b') == 'b'
    requires db.lower("Ab") == "ab" && db.lower(db.show(Arr([Str("Ab")]))) != "ab"
    ensures var f := Filter(PStr("k"), Compares(Equal), PStr("ab"));
            var j := Obj([Field("k", Arr([Str("Ab")]))]);
            && Translate(py, rd, f).Ok? && Fits(Translate(py, rd, f).value)
            && !Selects(db, j, Translate(py, rd, f).value)
            && ValueAt(db, j, ["k"]) == Some(Arr([Str("Ab")])) && HasElement(db, [Str("Ab")], "ab")
  {
    var f := Filter(PStr("k"), Compares(Equal), PStr("ab"));
    var items := [Str("Ab")];
    var j := Obj([Field("k", Arr(items))]);
    PlainKeyIsPath("k");
    assert Strip("ab") == "ab";
    assert Lower(py, "ab") == "ab";
    FieldValue(db, "k", Arr(items));
    EqualTextSelects(py, rd, db, j, f);
    MixedCaseArray(db);
  }
}
