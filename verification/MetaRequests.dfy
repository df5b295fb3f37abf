/** When the two ways of filtering agree on a whole request. */
module MetaRequests {
  import opened Text
  import opened PythonValues
  import opened MetaFilter
  import opened MetaIndex
  import opened MetaDates
  import opened EsFilter
  import opened EsMeaning
  import opened MetaAgreement
  import opened MetaMembership

  /** The cases of one filter and one document in which the two sides are known to agree. */
  predicate AgreesAsComparison(py: Python, doc: Document, f: Filter) {
    IsComparable(py, f) && IsComparableField(py, doc, f.key) && (IsNegative(f.op) ==> !IsMixed(py, doc, f))
  }

  predicate AgreesAsEmpty(py: Python, doc: Document, f: Filter) {
    && f.key.PStr? && f.key.s != "" && IsTextField(doc, f.key.s)
    && (f.op == Empty || f.op == NotEmpty)
    && (f.op == Empty ==> TextsOf(py, doc, f.key) != [])
    && (f.op == NotEmpty ==>
          !("" in TextsOf(py, doc, f.key) && exists s :: s in TextsOf(py, doc, f.key) && s != ""))
  }

  ghost predicate AgreesAsDate(py: Python, doc: Document, f: Filter) {
    && f.op == Compares(Equal) && f.key.PStr? && f.key.s != "" && IsTextField(doc, f.key.s)
    && f.value.PStr? && WellFormed(Strip(f.value.s)) && KnowsDecimals(py)
    && ((exists s :: s in TextsOf(py, doc, f.key) && Strip(s) == Strip(f.value.s)) ==>
        Strip(f.value.s) in TextsOf(py, doc, f.key))
  }

  predicate AgreesAsMembership(py: Python, doc: Document, f: Filter) {
    && IsMemberText(py, f.value) && IsComparableField(py, doc, f.key) && f.key.s != ""
    && (f.op == MetaFilter.In || f.op == NotIn)
    && (f.op == MetaFilter.In ==> (SomeOccurs(py, doc, f) <==> SomeMember(py, doc, f)))
    && (f.op == NotIn && TextsOf(py, doc, f.key) != [] ==> (AllOccur(py, doc, f) <==> SomeMember(py, doc, f)))
  }

  ghost predicate Agrees(py: Python, doc: Document, f: Filter) {
    || AgreesAsComparison(py, doc, f)
    || AgreesAsEmpty(py, doc, f)
    || AgreesAsDate(py, doc, f)
    || AgreesAsMembership(py, doc, f)
  }

  lemma FilterAgrees(py: Python, es: Engine, doc: Document, f: Filter)
    requires Agrees(py, doc, f)
    ensures Translate(py, f).Ok? && (EsMeans(py, es, doc, f) <==> Meant(py, doc, f))
  {
    if AgreesAsComparison(py, doc, f) {
      if IsNegative(f.op) {
        NegativeFiltersAgreeIff(py, es, doc, f);
      } else {
        PositiveFiltersAgree(py, es, doc, f);
      }
    } else if AgreesAsEmpty(py, doc, f) {
      if f.op == Empty {
        EmptyAgreesIff(py, es, doc, f);
      } else {
        NotEmptyAgreesIff(py, es, doc, f);
      }
    } else if AgreesAsDate(py, doc, f) {
      EqualDateAgreesIff(py, es, doc, f);
    } else {
      TextMembershipAgreesIff(py, es, doc, f);
    }
  }

  /** The query finds a document of its knowledge bases exactly when the in-memory filter does. */
  lemma RequestsAgree(py: Python, es: Engine, doc: Document, filters: seq<Filter>, logic: string, kbs: seq<string>)
    requires filters != [] && (logic == "and" || logic == "or")
    requires forall f :: f in filters ==> Agrees(py, doc, f)
    ensures PlanFor(py, filters, logic).Ok?
    ensures Matched(es, doc, ToQuery(PlanFor(py, filters, logic).value, kbs)) <==>
            doc.kb in kbs && MeantByAll(py, doc, filters, logic)
  {
    assert "and" != "or" by { assert "and"[0] == 'a' && "or"[0] == 'o'; }
    forall f | f in filters ensures Translate(py, f).Ok? && (EsMeans(py, es, doc, f) <==> Meant(py, doc, f)) {
      FilterAgrees(py, es, doc, f);
    }
    PlansFailIff(py, filters);
    QueryMeans(py, es, doc, filters, logic, kbs);
  }

  /** The same against filtering over the index of the documents. */
  lemma RequestsAgreeOverIndex(py: Python, es: Engine, index: Index, docs: seq<Document>, doc: Document,
                               filters: seq<Filter>, logic: string, kbs: seq<string>)
    requires Indexes(py, index, docs) && DistinctIds(docs) && doc in docs
    requires filters != [] && (logic == "and" || logic == "or")
    requires forall f :: f in filters ==> Agrees(py, doc, f)
    ensures PlanFor(py, filters, logic).Ok?
    ensures Matched(es, doc, ToQuery(PlanFor(py, filters, logic).value, kbs)) <==>
            doc.kb in kbs && Wanted(py, index, filters, logic, doc.id)
  {
    RequestsAgree(py, es, doc, filters, logic, kbs);
    WantedIsMeant(py, index, docs, doc, filters, logic);
  }
}
