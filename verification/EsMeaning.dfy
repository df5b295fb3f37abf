/** What the compiled Elasticsearch query accepts, operator by operator and as a whole. */
module EsMeaning {
  import opened Wrappers
  import opened Patterns
  import opened PythonValues
  import opened MetaFilter
  import opened MetaIndex
  import opened EsFilter

  // ----- The meaning of one filter, without clauses -------------------------------

  /** The strings a key of the document is stored under. */
  ghost predicate Stored(es: Engine, doc: Document, key: string, s: string) {
    HasKeyword(es, doc, Keyword(FieldName(key)), s)
  }

  predicate Present(doc: Document, key: string) {
    IsPresent(doc, FieldName(key))
  }

  /** A string equals some stored string but for the case of ASCII letters; what equals a number or a
      boolean is up to the engine. */
  ghost predicate Equals(es: Engine, doc: Document, key: string, v: PyVal) {
    if v.PStr? then exists s :: Stored(es, doc, key, s) && Folded(s) == Folded(v.s)
    else es.term(doc, FieldName(key), v)
  }

  ghost predicate EqualsOne(es: Engine, doc: Document, key: string, ms: seq<PyVal>) {
    exists m :: m in ms && Equals(es, doc, key, m)
  }

  ghost predicate ContainsText(es: Engine, doc: Document, key: string, t: string) {
    exists s :: Stored(es, doc, key, s) && Occurs(Folded(t), Folded(s))
  }

  ghost predicate StartsWithText(es: Engine, doc: Document, key: string, t: string) {
    exists s :: Stored(es, doc, key, s) && StartsWith(Folded(s), Folded(t))
  }

  ghost predicate EndsWithText(es: Engine, doc: Document, key: string, t: string) {
    exists s :: Stored(es, doc, key, s) && EndsWith(Folded(s), Folded(t))
  }

  ghost predicate ComparesTo(py: Python, es: Engine, doc: Document, key: string, c: Comparison, v: PyVal)
    requires c == Equal || c == NotEqual ==> CoerceScalar(py, v).Ok?
    requires c != Equal && c != NotEqual ==> CoerceRange(py, v).Ok?
  {
    if c == Equal then Equals(es, doc, key, CoerceScalar(py, v).value)
    else if c == NotEqual then Present(doc, key) && !Equals(es, doc, key, CoerceScalar(py, v).value)
    else Present(doc, key) && es.range(doc, FieldName(key), c, CoerceRange(py, v).value)
  }

  /** A filter that can be translated, read on a document: a negative filter wants the key present and
      no value that the positive one accepts. */
  ghost predicate EsMeans(py: Python, es: Engine, doc: Document, f: Filter)
    requires Translate(py, f).Ok?
  {
    var key, v := f.key.s, f.value;
    match f.op
    case Empty => !Present(doc, key) || Stored(es, doc, key, "")
    case NotEmpty => Present(doc, key) && !Stored(es, doc, key, "")
    case Compares(c) => ComparesTo(py, es, doc, key, c, v)
    case In => EqualsOne(es, doc, key, Members(py, v).value)
    case NotIn => Present(doc, key) && !EqualsOne(es, doc, key, Members(py, v).value)
    case Contains => ContainsText(es, doc, key, Show(py, v))
    case NotContains => Present(doc, key) && !ContainsText(es, doc, key, Show(py, v))
    case StartWith => StartsWithText(es, doc, key, Show(py, v))
    case EndWith => EndsWithText(es, doc, key, Show(py, v))
    case Unknown(_) => false
  }

  // ----- The clauses of one filter ----------------------------------------------------

  /** What a translated filter asks for: all of its positive clauses and none of the others. */
  ghost predicate Asks(es: Engine, doc: Document, t: Translated) {
    && (forall c :: c in t.must ==> Matched(es, doc, c))
    && (forall c :: c in t.mustNot ==> !Matched(es, doc, c))
  }

  lemma TermMeans(es: Engine, doc: Document, key: string, v: PyVal)
    ensures Matched(es, doc, TermOrMatch(FieldName(key), v)) <==> Equals(es, doc, key, v)
  {
  }

  lemma AnyMemberMeans(es: Engine, doc: Document, key: string, ms: seq<PyVal>)
    requires ms != []
    ensures Matched(es, doc, AnyMember(FieldName(key), ms)) <==> EqualsOne(es, doc, key, ms)
  {
    var path := FieldName(key);
    if forall m :: m in ms ==> !m.PStr? {
      assert forall m :: m in ms ==> (Equals(es, doc, key, m) <==> es.term(doc, path, m));
    } else {
      var cs := TermsOf(path, ms);
      forall i | 0 <= i < |ms| ensures Matched(es, doc, cs[i]) <==> Equals(es, doc, key, ms[i]) {
        TermMeans(es, doc, key, ms[i]);
      }
      if EqualsOne(es, doc, key, ms) {
        var m :| m in ms && Equals(es, doc, key, m);
        var i :| 0 <= i < |ms| && ms[i] == m;
        assert Matched(es, doc, cs[i]);
      }
    }
  }

  lemma ContainsMeans(es: Engine, doc: Document, key: string, t: string)
    ensures Matched(es, doc, Wildcard(Keyword(FieldName(key)), "*" + EscapeWildcard(t) + "*")) <==> ContainsText(es, doc, key, t)
  {
    var p := "*" + EscapeWildcard(t) + "*";
    forall s ensures WildcardFinds(AsciiLower, p, s) <==> Occurs(Folded(t), Folded(s)) {
      WildcardContains(AsciiLower, t, s);
    }
  }

  lemma EndsMeans(es: Engine, doc: Document, key: string, t: string)
    ensures Matched(es, doc, Wildcard(Keyword(FieldName(key)), "*" + EscapeWildcard(t))) <==> EndsWithText(es, doc, key, t)
  {
    var p := "*" + EscapeWildcard(t);
    forall s ensures WildcardFinds(AsciiLower, p, s) <==> EndsWith(Folded(s), Folded(t)) {
      WildcardEnds(AsciiLower, t, s);
    }
  }

  lemma EmptyMeans(es: Engine, doc: Document, key: string)
    ensures var path := FieldName(key);
            Matched(es, doc, Bool([], [], [Bool([], [], [], [Exists(path)]), Term(Keyword(path), PStr(""))], [])) <==>
            !Present(doc, key) || Stored(es, doc, key, "")
  {
    var path := FieldName(key);
    var absent, blank := Bool([], [], [], [Exists(path)]), Term(Keyword(path), PStr(""));
    var should := [absent, blank];
    assert Matched(es, doc, absent) <==> !Present(doc, key) by {
      assert [Exists(path)][0] == Exists(path);
    }
    assert Matched(es, doc, blank) <==> Stored(es, doc, key, "");
    assert should[0] == absent && should[1] == blank;
    assert forall i | 0 <= i < |should| :: should[i] == absent || should[i] == blank;
  }

  lemma NormalMembersSome(py: Python, ms: seq<PyVal>)
    requires ms != []
    ensures NormalMembers(py, ms) != []
  {
  }

  lemma AsksPositive(es: Engine, doc: Document, c: Clause)
    ensures Asks(es, doc, Translated([c], [])) <==> Matched(es, doc, c)
  {
    assert c in [c];
  }

  lemma AsksNegative(es: Engine, doc: Document, path: string, c: Clause)
    ensures Asks(es, doc, Translated([Exists(path)], [c])) <==> IsPresent(doc, path) && !Matched(es, doc, c)
  {
    assert c in [c] && Exists(path) in [Exists(path)];
  }

  lemma TranslateCompareMeans(py: Python, es: Engine, doc: Document, f: Filter)
    requires f.op.Compares? && Translate(py, f).Ok?
    ensures Asks(es, doc, Translate(py, f).value) <==> EsMeans(py, es, doc, f)
  {
    var path, c := FieldName(f.key.s), f.op.c;
    if c == Equal || c == NotEqual {
      var v := CoerceScalar(py, f.value).value;
      TermMeans(es, doc, f.key.s, v);
      AsksPositive(es, doc, TermOrMatch(path, v));
      AsksNegative(es, doc, path, TermOrMatch(path, v));
    } else {
      var r := Range(path, c, CoerceRange(py, f.value).value);
      var must := [Exists(path), r];
      assert must[0] == Exists(path) && must[1] == r;
      assert Exists(path) in must && r in must;
      assert forall x :: x in must ==> x == Exists(path) || x == r;
    }
  }

  lemma TranslateTextMeans(py: Python, es: Engine, doc: Document, f: Filter)
    requires f.op in {Contains, NotContains, StartWith, EndWith} && Translate(py, f).Ok?
    ensures Asks(es, doc, Translate(py, f).value) <==> EsMeans(py, es, doc, f)
  {
    var key, t := f.key.s, Show(py, f.value);
    var field := Keyword(FieldName(key));
    ContainsMeans(es, doc, key, t);
    EndsMeans(es, doc, key, t);
    match f.op {
      case Contains => AsksPositive(es, doc, Wildcard(field, "*" + EscapeWildcard(t) + "*"));
      case NotContains => AsksNegative(es, doc, FieldName(key), Wildcard(field, "*" + EscapeWildcard(t) + "*"));
      case StartWith => AsksPositive(es, doc, Prefix(field, t));
      case EndWith => AsksPositive(es, doc, Wildcard(field, "*" + EscapeWildcard(t)));
      case _ =>
    }
  }

  lemma TranslateMembersMeans(py: Python, es: Engine, doc: Document, f: Filter)
    requires (f.op == MetaFilter.In || f.op == NotIn) && Translate(py, f).Ok?
    ensures Asks(es, doc, Translate(py, f).value) <==> EsMeans(py, es, doc, f)
  {
    var path, ms := FieldName(f.key.s), Members(py, f.value).value;
    NormalMembersSome(py, RawMembers(py, f.value));
    AnyMemberMeans(es, doc, f.key.s, ms);
    AsksPositive(es, doc, AnyMember(path, ms));
    AsksNegative(es, doc, path, AnyMember(path, ms));
  }

  /** The clauses of every filter that is translated ask for what the filter means. */
  lemma TranslationMeans(py: Python, es: Engine, doc: Document, f: Filter)
    requires Translate(py, f).Ok?
    ensures Asks(es, doc, Translate(py, f).value) <==> EsMeans(py, es, doc, f)
  {
    var key := f.key.s;
    var path := FieldName(key);
    match f.op {
      case Empty => {
        EmptyMeans(es, doc, key);
        AsksPositive(es, doc, Bool([], [], [Bool([], [], [], [Exists(path)]), Term(Keyword(path), PStr(""))], []));
      }
      case NotEmpty => AsksNegative(es, doc, path, Term(Keyword(path), PStr("")));
      case Compares(_) => TranslateCompareMeans(py, es, doc, f);
      case In => TranslateMembersMeans(py, es, doc, f);
      case NotIn => TranslateMembersMeans(py, es, doc, f);
      case Unknown(_) =>
      case _ => TranslateTextMeans(py, es, doc, f);
    }
  }

  /** Whatever a filter asks for is one clause, true exactly when all of it is met: nothing of it can
      be matched apart from the rest. */
  lemma ClausesAreAtomic(es: Engine, doc: Document, t: Translated)
    requires t.must != [] || t.mustNot != []
    ensures |ToClauses(t)| == 1
    ensures Matched(es, doc, ToClauses(t)[0]) <==> Asks(es, doc, t)
  {
  }

  lemma TranslatedIsNotEmpty(py: Python, f: Filter)
    requires Translate(py, f).Ok?
    ensures Translate(py, f).value.must != []
  {
  }

  // ----- The whole query -------------------------------------------------------------------

  lemma {:induction false} TranslatedOneByOne(py: Python, filters: seq<Filter>)
    requires TranslateAll(py, filters).Ok?
    ensures var ts := TranslateAll(py, filters).value;
            |ts| == |filters| && forall i :: 0 <= i < |filters| ==> Translate(py, filters[i]) == Ok(ts[i])
  {
    if filters != [] {
      TranslatedOneByOne(py, filters[..|filters| - 1]);
    }
  }

  /** A list of filters is translated exactly if each of them can be. */
  lemma {:induction false} PlansFailIff(py: Python, filters: seq<Filter>)
    ensures TranslateAll(py, filters).Ok? <==> forall f :: f in filters ==> Translate(py, f).Ok?
  {
    if filters != [] {
      var last := |filters| - 1;
      PlansFailIff(py, filters[..last]);
      assert forall f :: f in filters <==> f in filters[..last] || f == filters[last] by {
        assert filters == filters[..last] + [filters[last]];
      }
    }
  }

  /** A plan is made exactly for a known logic and filters that can all be translated, and keeps the logic. */
  lemma PlanFailsIff(py: Python, filters: seq<Filter>, logic: string)
    ensures PlanFor(py, filters, logic).Ok? <==>
            (logic == "and" || logic == "or") && forall f :: f in filters ==> Translate(py, f).Ok?
    ensures PlanFor(py, filters, logic).Ok? ==> PlanFor(py, filters, logic).value.logic == logic
  {
    PlansFailIff(py, filters);
  }

  lemma {:induction false} OneClauseEach(ts: seq<Translated>)
    requires forall t :: t in ts ==> t.must != []
    ensures |FlatClauses(ts)| == |ts|
    ensures forall i :: 0 <= i < |ts| ==> ToClauses(ts[i]) == [FlatClauses(ts)[i]]
  {
    if ts != [] {
      assert ts[0] in ts && |ToClauses(ts[0])| == 1;
      OneClauseEach(ts[1..]);
    }
  }

  /** One clause per filter, in order, with the filter's meaning. */
  lemma FlatClausesMean(es: Engine, doc: Document, ts: seq<Translated>)
    requires forall t :: t in ts ==> t.must != []
    ensures |FlatClauses(ts)| == |ts|
    ensures forall i :: 0 <= i < |ts| ==> (Matched(es, doc, FlatClauses(ts)[i]) <==> Asks(es, doc, ts[i]))
  {
    OneClauseEach(ts);
    forall i | 0 <= i < |ts| ensures Matched(es, doc, FlatClauses(ts)[i]) <==> Asks(es, doc, ts[i]) {
      assert ts[i] in ts;
      ClausesAreAtomic(es, doc, ts[i]);
    }
  }

  ghost predicate ClausesMean(py: Python, es: Engine, doc: Document, filters: seq<Filter>, flat: seq<Clause>) {
    && |flat| == |filters|
    && forall i :: 0 <= i < |filters| ==>
         Translate(py, filters[i]).Ok? && (Matched(es, doc, flat[i]) <==> EsMeans(py, es, doc, filters[i]))
  }

  lemma PlannedClausesMean(py: Python, es: Engine, doc: Document, filters: seq<Filter>)
    requires TranslateAll(py, filters).Ok?
    ensures ClausesMean(py, es, doc, filters, FlatClauses(TranslateAll(py, filters).value))
  {
    var ts := TranslateAll(py, filters).value;
    TranslatedOneByOne(py, filters);
    forall t | t in ts ensures t.must != [] {
      var i :| 0 <= i < |ts| && ts[i] == t;
      TranslatedIsNotEmpty(py, filters[i]);
    }
    FlatClausesMean(es, doc, ts);
    forall i | 0 <= i < |filters| ensures Asks(es, doc, ts[i]) <==> EsMeans(py, es, doc, filters[i]) {
      TranslationMeans(py, es, doc, filters[i]);
    }
  }

  ghost predicate MeansSome(py: Python, es: Engine, doc: Document, filters: seq<Filter>)
    requires forall f :: f in filters ==> Translate(py, f).Ok?
  {
    exists f :: f in filters && EsMeans(py, es, doc, f)
  }

  ghost predicate MeansAll(py: Python, es: Engine, doc: Document, filters: seq<Filter>)
    requires forall f :: f in filters ==> Translate(py, f).Ok?
  {
    forall f :: f in filters ==> EsMeans(py, es, doc, f)
  }

  lemma ShouldMeans(es: Engine, doc: Document, flat: seq<Clause>)
    requires flat != []
    ensures Matched(es, doc, Bool([], [], flat, [])) <==> exists i | 0 <= i < |flat| :: Matched(es, doc, flat[i])
    ensures Matched(es, doc, Bool(flat, [], [], [])) <==> forall i | 0 <= i < |flat| :: Matched(es, doc, flat[i])
  {
  }

  lemma SomeClauseMeans(py: Python, es: Engine, doc: Document, filters: seq<Filter>, flat: seq<Clause>)
    requires ClausesMean(py, es, doc, filters, flat)
    requires forall f :: f in filters ==> Translate(py, f).Ok?
    ensures MeansSome(py, es, doc, filters) <==> exists i | 0 <= i < |flat| :: Matched(es, doc, flat[i])
  {
    if MeansSome(py, es, doc, filters) {
      var f :| f in filters && EsMeans(py, es, doc, f);
      var i :| 0 <= i < |filters| && filters[i] == f;
      assert Matched(es, doc, flat[i]);
    }
    if i :| 0 <= i < |flat| && Matched(es, doc, flat[i]) {
      assert filters[i] in filters;
    }
  }

  lemma EveryClauseMeans(py: Python, es: Engine, doc: Document, filters: seq<Filter>, flat: seq<Clause>)
    requires ClausesMean(py, es, doc, filters, flat)
    requires forall f :: f in filters ==> Translate(py, f).Ok?
    ensures MeansAll(py, es, doc, filters) <==> forall i | 0 <= i < |flat| :: Matched(es, doc, flat[i])
  {
    if forall i | 0 <= i < |flat| :: Matched(es, doc, flat[i]) {
      forall f | f in filters ensures EsMeans(py, es, doc, f) {
        var i :| 0 <= i < |filters| && filters[i] == f;
        assert Matched(es, doc, flat[i]);
      }
    }
    if MeansAll(py, es, doc, filters) {
      forall i | 0 <= i < |flat| ensures Matched(es, doc, flat[i]) {
        assert filters[i] in filters;
      }
    }
  }

  lemma ScopedMeans(es: Engine, doc: Document, kbs: seq<string>, inner: Clause)
    ensures Matched(es, doc, Bool([], [InBases(kbs), inner], [], [])) <==> doc.kb in kbs && Matched(es, doc, inner)
  {
    var filter := [InBases(kbs), inner];
    assert filter[0] == InBases(kbs) && filter[1] == inner;
  }

  /** The compiled query accepts a document exactly when its knowledge base is in scope and all, or
      for "or" some, of the filters accept it; without filters, the scope alone decides. */
  lemma QueryMeans(py: Python, es: Engine, doc: Document, filters: seq<Filter>, logic: string, kbs: seq<string>)
    requires PlanFor(py, filters, logic).Ok?
    ensures forall f :: f in filters ==> Translate(py, f).Ok?
    ensures Matched(es, doc, ToQuery(PlanFor(py, filters, logic).value, kbs)) <==>
            doc.kb in kbs &&
            (filters == [] || if logic == "or" then MeansSome(py, es, doc, filters) else MeansAll(py, es, doc, filters))
  {
    PlansFailIff(py, filters);
    TranslatedOneByOne(py, filters);
    var plan := PlanFor(py, filters, logic).value;
    if filters == [] {
      assert [InBases(kbs)][0] == InBases(kbs);
    } else {
      PlannedClausesMean(py, es, doc, filters);
      var flat := FlatClauses(plan.translated);
      SomeClauseMeans(py, es, doc, filters, flat);
      EveryClauseMeans(py, es, doc, filters, flat);
      ShouldMeans(es, doc, flat);
      ScopedMeans(es, doc, kbs, if logic == "or" then Bool([], [], flat, []) else Bool(flat, [], [], []));
    }
  }
}
