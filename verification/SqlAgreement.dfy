/** When the SQL predicate and the in-memory filter find the same documents, on fields of one text. */
module SqlAgreement {
  import opened Wrappers
  import opened Text
  import opened Patterns
  import opened Documents
  import opened PythonValues
  import opened MetaFilter
  import opened MetaIndex
  import opened GaussFilter
  import opened GaussMeaning

  // ----- Texts and filters that can agree -------------------------------------------------

  /** Lower-casing twice is lower-casing once. */
  predicate Lowers(py: Python, s: string) {
    Lower(py, Lower(py, s)) == Lower(py, s)
  }

  /** Python and the database lower-case the text alike. */
  predicate LowersAlike(py: Python, db: Database, s: string) {
    Lowers(py, s) && db.lower(s) == Lower(py, s)
  }

  /** A text that both sides compare as it is: no literal, no date. */
  predicate IsKept(py: Python, v: PyVal) {
    && v.PStr? && Lowers(py, v.s)
    && py.literal(v.s).None? && py.literal(Strip(v.s)).None? && AsDate(py, v).None?
  }

  predicate AreKept(py: Python, ms: seq<PyVal>) {
    forall i | 0 <= i < |ms| :: IsKept(py, ms[i])
  }

  function PositiveOp(op: Op): Op {
    if op == Compares(NotEqual) then Compares(Equal)
    else if op == NotIn then MetaFilter.In
    else if op == NotContains then Contains
    else op
  }

  predicate IsComparable(py: Python, f: Filter) {
    PathOf(f.key).Ok? &&
    match PositiveOp(f.op)
    case Contains => f.value.PStr? && f.value.s != "" && Lowers(py, f.value.s)
    case StartWith => f.value.PStr? && f.value.s != "" && Lowers(py, f.value.s)
    case EndWith => f.value.PStr? && f.value.s != "" && Lowers(py, f.value.s)
    case In => f.value.PList? && f.value.items != [] && AreKept(py, f.value.items)
    case Compares(c) => c == Equal && IsKept(py, f.value)
    case _ => false
  }

  /** The column holds at the path what the document has under the key: nothing, null or one text. */
  predicate SameField(py: Python, db: Database, doc: Document, j: Json, key: PyVal)
    requires PathOf(key).Ok?
  {
    var value := ValueAt(db, j, PathOf(key).value);
    if key.s !in doc.meta then value.None?
    else match doc.meta[key.s]
      case PNone => value == Some(NULL)
      case PStr(s) => value == Some(Str(s)) && LowersAlike(py, db, s)
      case _ => false
  }

  predicate IsNull(doc: Document, key: PyVal)
    requires key.PStr?
  {
    key.s in doc.meta && doc.meta[key.s] == PNone
  }

  // ----- One text ------------------------------------------------------------------------------

  /** What the positive filter asks of a text. */
  predicate Meets(py: Python, op: Op, value: PyVal, s: string) {
    match op
    case Contains => value.PStr? && Occurs(Lower(py, value.s), Lower(py, s))
    case StartWith => value.PStr? && StartsWith(Lower(py, s), Lower(py, value.s))
    case EndWith => value.PStr? && EndsWith(Lower(py, s), Lower(py, value.s))
    case In => value.PList? && IsOne(py, value.items, s)
    case _ => value.PStr? && Lower(py, s) == Lower(py, value.s)
  }

  predicate IsOne(py: Python, ms: seq<PyVal>, s: string) {
    exists i | 0 <= i < |ms| :: ms[i].PStr? && Lower(py, s) == Lower(py, ms[i].s)
  }

  lemma MemberAccepts(py: Python, ms: seq<PyVal>, s: string)
    requires forall i | 0 <= i < |ms| :: ms[i].PStr?
    ensures Accepts(py, MetaFilter.In, PList(ms), PStr(s)) <==> IsOne(py, ms, s)
    ensures Accepts(py, NotIn, PList(ms), PStr(s)) <==> !IsOne(py, ms, s)
  {
    var items := LowerItems(py, ms);
    forall i | 0 <= i < |ms| ensures Same(PStr(Lower(py, s)), items[i]) <==> Lower(py, s) == Lower(py, ms[i].s) {
    }
    assert NormalizeStrings(py, PList(ms)) == PList(items);
  }

  /** In memory a text meets the positive filter as stated, and the negative one when it does not. */
  lemma TextAccepts(py: Python, f: Filter, s: string)
    requires IsComparable(py, f) && Lowers(py, s)
    ensures Accepts(py, f.op, f.value, PStr(s)) <==> (Meets(py, PositiveOp(f.op), f.value, s) != IsNegative(f.op))
  {
    if f.value.PList? {
      MemberAccepts(py, f.value.items, s);
    } else if PositiveOp(f.op) == Compares(Equal) {
      assert Operands(py, f.value, PStr(s)) == Some((PStr(Lower(py, s)), PStr(Lower(py, f.value.s))));
    }
  }

  /** The field is missing, null or one text. */
  predicate IsSingle(py: Python, doc: Document, key: PyVal) {
    key.PStr? &&
    (key.s in doc.meta ==> doc.meta[key.s].PNone? || (doc.meta[key.s].PStr? && Lowers(py, doc.meta[key.s].s)))
  }

  lemma SingleTexts(py: Python, doc: Document, key: PyVal)
    requires IsSingle(py, doc, key)
    ensures TextsOf(py, doc, key) == if HoldsText(doc, key) then [doc.meta[key.s].s] else []
  {
    if key.s in doc.meta {
      var v := doc.meta[key.s];
      assert Texts(py, [v]) == (if v.PNone? then [] else [Show(py, v)]) + Texts(py, [v][1..]);
      assert [v][1..] == [];
    }
  }

  predicate HoldsText(doc: Document, key: PyVal)
    requires key.PStr?
  {
    key.s in doc.meta && doc.meta[key.s].PStr?
  }

  lemma MemoryFinds(py: Python, doc: Document, f: Filter)
    requires IsComparable(py, f) && IsSingle(py, doc, f.key)
    ensures Meant(py, doc, f) <==>
            HoldsText(doc, f.key) && (Meets(py, PositiveOp(f.op), f.value, doc.meta[f.key.s].s) != IsNegative(f.op))
  {
    SingleTexts(py, doc, f.key);
    if HoldsText(doc, f.key) {
      var s := doc.meta[f.key.s].s;
      TextAccepts(py, f, s);
      assert s in TextsOf(py, doc, f.key);
    }
  }

  // ----- The predicate's side -------------------------------------------------------------------

  predicate IsTextOrNull(value: Option<Json>) {
    value.None? || value == Some(NULL) || value.value.Str?
  }

  predicate HasText(value: Option<Json>) {
    value.Some? && value.value.Str?
  }

  lemma KeptSelects(py: Python, db: Database, j: Json, path: Path, v: PyVal)
    requires IsKept(py, v) && IsTextOrNull(ValueAt(db, j, path))
    requires HasText(ValueAt(db, j, path)) ==> LowersAlike(py, db, ValueAt(db, j, path).value.s)
    ensures EqualPredicate(py, path, v) == Ok(EqualTo(py, path, v)) && Fits(EqualTo(py, path, v))
    ensures var value := ValueAt(db, j, path);
            Selects(db, j, EqualTo(py, path, v)) <==> HasText(value) && Lower(py, value.value.s) == Lower(py, v.s)
  {
    if v.s == "" {
      assert forall s :: Lower(py, s) == "" <==> s == "";
    } else {
      var want := TextParam(Lower(py, v.s));
      SplitParams(db, j, TextEquals(path), HasString(path), [want], [want]);
      assert [want] + [want] == [want, want];
    }
  }

  lemma OneMoreMember(py: Python, ms: seq<PyVal>, m: PyVal, s: string)
    requires m.PStr?
    ensures IsOne(py, ms + [m], s) <==> IsOne(py, ms, s) || Lower(py, s) == Lower(py, m.s)
  {
    var all := ms + [m];
    assert all[|ms|] == m;
    if IsOne(py, ms, s) {
      var i :| 0 <= i < |ms| && ms[i].PStr? && Lower(py, s) == Lower(py, ms[i].s);
      assert all[i] == ms[i];
    }
  }

  /** The predicates select where a text is one of the members. */
  predicate SelectOne(py: Python, db: Database, j: Json, path: Path, ms: seq<PyVal>, ts: seq<Translated>)
    requires AllFit(ts)
  {
    var value := ValueAt(db, j, path);
    SelectsSome(db, j, ts) <==> HasText(value) && IsOne(py, ms, value.value.s)
  }

  lemma OneMoreSelects(py: Python, db: Database, j: Json, path: Path, ms: seq<PyVal>, ts: seq<Translated>,
                       m: PyVal, t: Translated)
    requires AllFit(ts) && SelectOne(py, db, j, path, ms, ts) && m.PStr? && Fits(t)
    requires var value := ValueAt(db, j, path);
             Selects(db, j, t) <==> HasText(value) && Lower(py, value.value.s) == Lower(py, m.s)
    ensures AllFit(ts + [t]) && SelectOne(py, db, j, path, ms + [m], ts + [t])
  {
    assert forall u :: u in ts + [t] <==> u in ts || u == t;
    assert SelectsSome(db, j, ts + [t]) <==> SelectsSome(db, j, ts) || Selects(db, j, t);
    if HasText(ValueAt(db, j, path)) {
      OneMoreMember(py, ms, m, ValueAt(db, j, path).value.s);
    }
  }

  lemma {:induction false} MembersSelect(py: Python, db: Database, j: Json, path: Path, ms: seq<PyVal>)
      returns (ts: seq<Translated>)
    requires IsTextOrNull(ValueAt(db, j, path))
    requires HasText(ValueAt(db, j, path)) ==> LowersAlike(py, db, ValueAt(db, j, path).value.s)
    requires AreKept(py, ms)
    ensures |ts| == |ms| && AllFit(ts)
    ensures MembershipPredicates(py, path, ms) == Ok(Fragments(SqlsOf(ts), ParamsOf(ts)))
    ensures SelectOne(py, db, j, path, ms, ts)
  {
    if ms == [] {
      ts := [];
    } else {
      var last := |ms| - 1;
      assert IsKept(py, ms[last]) && AreKept(py, ms[..last]);
      var before := MembersSelect(py, db, j, path, ms[..last]);
      var t := EqualTo(py, path, ms[last]);
      KeptSelects(py, db, j, path, ms[last]);
      ts := before + [t];
      OneMoreTranslated(before, t);
      OneMoreSelects(py, db, j, path, ms[..last], before, ms[last], t);
      assert ms == ms[..last] + [ms[last]];
    }
  }

  lemma KeptCoerces(py: Python, v: PyVal)
    requires IsKept(py, v)
    ensures CoerceScalar(py, v) == Ok(v)
  {
  }

  lemma {:induction false} KeptCoerce(py: Python, ms: seq<PyVal>)
    requires AreKept(py, ms)
    ensures CoerceAll(py, ms) == Ok(ms)
  {
    if ms != [] {
      assert IsKept(py, ms[0]) && AreKept(py, ms[1..]);
      KeptCoerce(py, ms[1..]);
      KeptCoerces(py, ms[0]);
      assert ms == [ms[0]] + ms[1..];
    }
  }

  lemma MembershipFinds(py: Python, rd: Reader, db: Database, j: Json, f: Filter)
    requires IsComparable(py, f) && f.op == MetaFilter.In
    requires IsTextOrNull(ValueAt(db, j, PathOf(f.key).value))
    requires HasText(ValueAt(db, j, PathOf(f.key).value)) ==> LowersAlike(py, db, ValueAt(db, j, PathOf(f.key).value).value.s)
    ensures Translate(py, rd, f).Ok? && Fits(Translate(py, rd, f).value)
    ensures var value := ValueAt(db, j, PathOf(f.key).value);
            Selects(db, j, Translate(py, rd, f).value) <==> HasText(value) && IsOne(py, f.value.items, value.value.s)
  {
    var path, ms := PathOf(f.key).value, f.value.items;
    KeptCoerce(py, ms);
    var ts := MembersSelect(py, db, j, path, ms);
    TranslationFits(py, rd, f);
    JoinOrSelects(db, j, ts);
    TruthSelects(db, j, ts);
  }

  /** The predicate of a positive filter is true exactly where a text meets the filter. */
  lemma PositiveFinds(py: Python, rd: Reader, db: Database, j: Json, f: Filter)
    requires IsComparable(py, f) && !IsNegative(f.op)
    requires IsTextOrNull(ValueAt(db, j, PathOf(f.key).value))
    requires HasText(ValueAt(db, j, PathOf(f.key).value)) ==> LowersAlike(py, db, ValueAt(db, j, PathOf(f.key).value).value.s)
    ensures Translate(py, rd, f).Ok? && Fits(Translate(py, rd, f).value)
    ensures var value := ValueAt(db, j, PathOf(f.key).value);
            Selects(db, j, Translate(py, rd, f).value) <==> HasText(value) && Meets(py, f.op, f.value, value.value.s)
  {
    if f.op == MetaFilter.In {
      MembershipFinds(py, rd, db, j, f);
    } else if f.op == Compares(Equal) {
      KeptSelects(py, db, j, PathOf(f.key).value, f.value);
    } else {
      TextFiltersSelect(py, rd, db, j, f);
      var value := ValueAt(db, j, PathOf(f.key).value);
      if HasText(value) && value.value.s == Lower(py, f.value.s) {
        OccursInItself(Lower(py, f.value.s));
      }
    }
  }

  lemma OccursInItself(s: string)
    ensures Occurs(s, s)
  {
    assert s[0..] == s && StartsWith(s[0..], s);
  }

  // ----- Agreement -----------------------------------------------------------------------------------

  /** On a field that is missing, null or one text, `contains`, `start with`, `end with`, `=`, `in` and their
      negatives find the same documents in SQL as in memory, but for the negatives on null: SQL takes null for
      a value, memory does not. */
  lemma SingleTextsAgreeIff(py: Python, rd: Reader, db: Database, doc: Document, j: Json, f: Filter)
    requires IsComparable(py, f) && SameField(py, db, doc, j, f.key)
    ensures Translate(py, rd, f).Ok? && Fits(Translate(py, rd, f).value)
    ensures (Selects(db, j, Translate(py, rd, f).value) <==> Meant(py, doc, f)) <==> !(IsNegative(f.op) && IsNull(doc, f.key))
  {
    MemoryFinds(py, doc, f);
    if IsNegative(f.op) {
      NegativesComplement(py, rd, db, j, f);
      PositiveFinds(py, rd, db, j, Twin(f));
    } else {
      PositiveFinds(py, rd, db, j, f);
    }
  }

  /** `not empty` agrees on every such field, `empty` exactly on those with a text. */
  lemma EmptyAgreesIff(py: Python, rd: Reader, db: Database, doc: Document, j: Json, f: Filter)
    requires PathOf(f.key).Ok? && SameField(py, db, doc, j, f.key) && (f.op == Empty || f.op == NotEmpty)
    ensures Translate(py, rd, f).Ok? && Fits(Translate(py, rd, f).value)
    ensures (Selects(db, j, Translate(py, rd, f).value) <==> Meant(py, doc, f)) <==>
            f.op == NotEmpty || HoldsText(doc, f.key)
  {
    EmptyPartitions(py, rd, db, j, f);
    assert f.(op := f.op) == f;
    SingleTexts(py, doc, f.key);
    if HoldsText(doc, f.key) {
      var s := doc.meta[f.key.s].s;
      assert s in TextsOf(py, doc, f.key);
      assert Accepts(py, f.op, f.value, PStr(s)) <==> (s == "") == (f.op == Empty);
    }
  }

  // ----- Requests ---------------------------------------------------------------------------------------

  predicate Agrees(py: Python, db: Database, doc: Document, j: Json, f: Filter) {
    && PathOf(f.key).Ok? && SameField(py, db, doc, j, f.key)
    && (|| (IsComparable(py, f) && !(IsNegative(f.op) && IsNull(doc, f.key)))
        || f.op == NotEmpty
        || (f.op == Empty && HoldsText(doc, f.key)))
  }

  lemma FilterAgrees(py: Python, rd: Reader, db: Database, doc: Document, j: Json, f: Filter)
    requires Agrees(py, db, doc, j, f)
    ensures Translate(py, rd, f).Ok? && Fits(Translate(py, rd, f).value)
    ensures Selects(db, j, Translate(py, rd, f).value) <==> Meant(py, doc, f)
  {
    if f.op == Empty || f.op == NotEmpty {
      EmptyAgreesIff(py, rd, db, doc, j, f);
    } else {
      SingleTextsAgreeIff(py, rd, db, doc, j, f);
    }
  }

  predicate AllAgree(py: Python, db: Database, doc: Document, j: Json, filters: seq<Filter>) {
    forall f :: f in filters ==> Agrees(py, db, doc, j, f)
  }

  lemma {:induction false} AgreeingTranslate(py: Python, rd: Reader, db: Database, doc: Document, j: Json,
                                             filters: seq<Filter>)
    requires AllAgree(py, db, doc, j, filters)
    ensures TranslateAll(py, rd, filters).Ok?
  {
    if filters != [] {
      var last := |filters| - 1;
      assert filters[last] in filters && AllAgree(py, db, doc, j, filters[..last]);
      FilterAgrees(py, rd, db, doc, j, filters[last]);
      AgreeingTranslate(py, rd, db, doc, j, filters[..last]);
    }
  }

  /** The plan of a whole request selects a document exactly when the in-memory filter finds it. */
  lemma RequestsAgree(py: Python, rd: Reader, db: Database, doc: Document, j: Json, filters: seq<Filter>, logic: string)
    requires filters != [] && (logic == "and" || logic == "or") && AllAgree(py, db, doc, j, filters)
    ensures FilterFor(py, rd, filters, logic).Ok? && Fits(FilterFor(py, rd, filters, logic).value)
    ensures Selects(db, j, FilterFor(py, rd, filters, logic).value) <==> MeantByAll(py, doc, filters, logic)
  {
    AgreeingTranslate(py, rd, db, doc, j, filters);
    PlanSelects(py, rd, db, j, filters, logic);
    forall f | f in filters
      ensures Translate(py, rd, f).Ok? && Fits(Translate(py, rd, f).value)
      ensures Selects(db, j, Translate(py, rd, f).value) <==> Meant(py, doc, f)
    {
      FilterAgrees(py, rd, db, doc, j, f);
    }
  }

  /** `not contains` on null: selected in SQL, not found in memory. */
  lemma NullDisagrees(py: Python, rd: Reader, db: Database)
    requires Lowers(py, "x")
    ensures var f := Filter(PStr("k"), NotContains, PStr("x"));
            var doc, j := Document("doc", "kb", map["k" := PNone]), Obj([Field("k", NULL)]);
            && Translate(py, rd, f).Ok? && Fits(Translate(py, rd, f).value)
            && Selects(db, j, Translate(py, rd, f).value) && !Meant(py, doc, f)
  {
    var key := "k";
    var f := Filter(PStr(key), NotContains, PStr("x"));
    var doc, j := Document("doc", "kb", map[key := PNone]), Obj([Field(key, NULL)]);
    PlainKeyIsPath(key);
    FieldValue(db, key, NULL);
    SingleTextsAgreeIff(py, rd, db, doc, j, f);
    MemoryFinds(py, doc, f);
  }
}
