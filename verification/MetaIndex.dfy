/** The index that in-memory filtering works over, built from the documents, and what filtering
    means for one document. */
module MetaIndex {
  import opened PythonValues
  import opened MetaFilter

  datatype Document = Document(id: DocId, kb: string, meta: map<string, PyVal>)

  /** A list counts as its elements. */
  function Values(v: PyVal): seq<PyVal> {
    if v.PList? then v.items else [v]
  }

  /** The texts a field is indexed under; null is not indexed. */
  function Texts(py: Python, values: seq<PyVal>): seq<string> {
    if values == [] then []
    else (if values[0].PNone? then [] else [Show(py, values[0])]) + Texts(py, values[1..])
  }

  function TextsOf(py: Python, doc: Document, key: PyVal): seq<string> {
    if key.PStr? && key.s in doc.meta then Texts(py, Values(doc.meta[key.s])) else []
  }

  // ----- Building the index -------------------------------------------------------

  predicate Has(buckets: seq<Bucket>, s: string, d: DocId) {
    exists b :: b in buckets && b.key == PStr(s) && d in b.docs
  }

  predicate AreTexts(buckets: seq<Bucket>) {
    forall b :: b in buckets ==> b.key.PStr?
  }

  /** A document goes into the bucket of the text, or into a new one at the end. */
  function AddTo(buckets: seq<Bucket>, s: string, d: DocId): seq<Bucket> {
    if buckets == [] then [Bucket(PStr(s), [d])]
    else if buckets[0].key == PStr(s) then [Bucket(PStr(s), buckets[0].docs + [d])] + buckets[1..]
    else [buckets[0]] + AddTo(buckets[1..], s, d)
  }

  lemma {:induction false} AddToHas(buckets: seq<Bucket>, s: string, d: DocId, t: string, e: DocId)
    ensures Has(AddTo(buckets, s, d), t, e) <==> Has(buckets, t, e) || (t == s && e == d)
    ensures AreTexts(buckets) ==> AreTexts(AddTo(buckets, s, d))
  {
    var r := AddTo(buckets, s, d);
    if buckets == [] {
      assert r[0].docs == [d] && r[0] in r;
      assert forall b :: b in r ==> b == r[0];
    } else {
      assert forall b :: b in buckets <==> b == buckets[0] || b in buckets[1..];
      assert forall b :: b in r <==> b == r[0] || b in r[1..];
      if buckets[0].key == PStr(s) {
        assert forall x :: x in r[0].docs <==> x in buckets[0].docs || x == d;
        assert r[0] in r;
      } else {
        AddToHas(buckets[1..], s, d, t, e);
        assert r[1..] == AddTo(buckets[1..], s, d);
      }
    }
  }

  predicate IndexHas(index: Index, k: string, s: string, d: DocId) {
    k in index && Has(index[k], s, d)
  }

  predicate IndexOfTexts(index: Index) {
    forall k :: k in index ==> AreTexts(index[k])
  }

  /** The documents' own texts for a key. */
  predicate DocumentsHave(py: Python, docs: seq<Document>, k: string, s: string, d: DocId) {
    exists doc :: doc in docs && doc.id == d && s in TextsOf(py, doc, PStr(k))
  }

  ghost predicate IndexGained(index: Index, more: Index, k: string, texts: seq<string>, d: DocId) {
    forall j, s, e :: IndexHas(more, j, s, e) <==> IndexHas(index, j, s, e) || (j == k && e == d && s in texts)
  }

  ghost predicate Indexes(py: Python, index: Index, docs: seq<Document>) {
    IndexOfTexts(index) && forall k, s, d :: IndexHas(index, k, s, d) <==> DocumentsHave(py, docs, k, s, d)
  }

  lemma {:induction false} TextsSnoc(py: Python, values: seq<PyVal>, v: PyVal)
    ensures Texts(py, values + [v]) == Texts(py, values) + if v.PNone? then [] else [Show(py, v)]
  {
    if values == [] {
      assert values + [v] == [v];
    } else {
      assert (values + [v])[1..] == values[1..] + [v];
      TextsSnoc(py, values[1..], v);
    }
  }

  /** One field of one document. */
  method IndexField(py: Python, index: Index, k: string, v: PyVal, d: DocId) returns (more: Index)
    requires IndexOfTexts(index)
    ensures IndexOfTexts(more) && IndexGained(index, more, k, Texts(py, Values(v)), d)
  {
    more := if k in index then index else index[k := []];
    var values := Values(v);
    for i := 0 to |values|
      invariant k in more && IndexOfTexts(more)
      invariant IndexGained(index, more, k, Texts(py, values[..i]), d)
    {
      TextsSnoc(py, values[..i], values[i]);
      assert values[..i + 1] == values[..i] + [values[i]];
      if values[i].PNone? {
        continue;
      }
      var sv := Show(py, values[i]);
      ghost var before := more;
      forall s, e ensures Has(AddTo(more[k], sv, d), s, e) <==> Has(more[k], s, e) || (s == sv && e == d) {
        AddToHas(more[k], sv, d, s, e);
      }
      AddToHas(more[k], sv, d, sv, d);
      more := more[k := AddTo(more[k], sv, d)];
      OneMoreText(index, before, more, k, Texts(py, values[..i]), sv, d);
    }
    assert values[..|values|] == values;
  }

  lemma OneMoreText(index: Index, before: Index, more: Index, k: string, texts: seq<string>, sv: string, d: DocId)
    requires IndexGained(index, before, k, texts, d)
    requires forall j, s, e :: IndexHas(more, j, s, e) <==> IndexHas(before, j, s, e) || (j == k && s == sv && e == d)
    ensures IndexGained(index, more, k, texts + [sv], d)
  {
  }

  /** The keys of a document in whatever order. */
  method IndexDocument(py: Python, index: Index, doc: Document) returns (more: Index)
    requires IndexOfTexts(index)
    ensures IndexOfTexts(more)
    ensures forall k, s, e :: IndexHas(more, k, s, e) <==>
                              IndexHas(index, k, s, e) || (e == doc.id && s in TextsOf(py, doc, PStr(k)))
  {
    more := index;
    var keys := doc.meta.Keys;
    while keys != {}
      invariant keys <= doc.meta.Keys
      invariant IndexOfTexts(more)
      invariant forall k, s, e :: IndexHas(more, k, s, e) <==>
                                  IndexHas(index, k, s, e) || (k !in keys && e == doc.id && s in TextsOf(py, doc, PStr(k)))
      decreases |keys|
    {
      var k :| k in keys;
      more := IndexField(py, more, k, doc.meta[k], doc.id);
      keys := keys - {k};
    }
  }

  method BuildIndex(py: Python, docs: seq<Document>) returns (index: Index)
    ensures Indexes(py, index, docs)
  {
    index := map[];
    for i := 0 to |docs|
      invariant Indexes(py, index, docs[..i])
    {
      ghost var before := index;
      index := IndexDocument(py, index, docs[i]);
      OneMoreDocument(py, before, index, docs[..i], docs[i]);
      assert docs[..i + 1] == docs[..i] + [docs[i]];
    }
    assert docs[..|docs|] == docs;
  }

  lemma OneMoreDocument(py: Python, before: Index, index: Index, docs: seq<Document>, doc: Document)
    requires Indexes(py, before, docs) && IndexOfTexts(index)
    requires forall k, s, e :: IndexHas(index, k, s, e) <==>
                               IndexHas(before, k, s, e) || (e == doc.id && s in TextsOf(py, doc, PStr(k)))
    ensures Indexes(py, index, docs + [doc])
  {
    assert forall x :: x in docs + [doc] <==> x in docs || x == doc;
    forall k, s, d ensures IndexHas(index, k, s, d) <==> DocumentsHave(py, docs + [doc], k, s, d) {
      assert IndexHas(before, k, s, d) <==> DocumentsHave(py, docs, k, s, d);
    }
  }

  // ----- What a filter means for a document -----------------------------------------

  /** One of the texts of the field meets the filter: each value is tested on its own. */
  predicate Meant(py: Python, doc: Document, f: Filter) {
    exists s :: s in TextsOf(py, doc, f.key) && Accepts(py, f.op, f.value, PStr(s))
  }

  /** Filtering over the index finds the documents the filter means. */
  lemma FilterMeans(py: Python, index: Index, docs: seq<Document>, f: Filter, d: DocId)
    requires Indexes(py, index, docs)
    ensures d in DocsOf(py, index, f) <==> exists doc :: doc in docs && doc.id == d && Meant(py, doc, f)
  {
    if d in DocsOf(py, index, f) {
      var k := f.key.s;
      var b :| b in index[k] && d in b.docs && Accepts(py, f.op, f.value, b.key);
      assert IndexHas(index, k, b.key.s, d);
      var doc :| doc in docs && doc.id == d && b.key.s in TextsOf(py, doc, PStr(k));
      assert Meant(py, doc, f);
    }
    if doc :| doc in docs && doc.id == d && Meant(py, doc, f) {
      var s :| s in TextsOf(py, doc, f.key) && Accepts(py, f.op, f.value, PStr(s));
      assert DocumentsHave(py, docs, f.key.s, s, d);
      assert IndexHas(index, f.key.s, s, d);
    }
  }

  /** All of the filters, or some of them. */
  predicate MeantByAll(py: Python, doc: Document, filters: seq<Filter>, logic: string) {
    filters != [] &&
    if logic == "and" then forall f :: f in filters ==> Meant(py, doc, f)
    else exists f :: f in filters && Meant(py, doc, f)
  }

  predicate DistinctIds(docs: seq<Document>) {
    forall i, j :: 0 <= i < j < |docs| ==> docs[i].id != docs[j].id
  }

  /** Filtering a document's own metadata: the whole request, index and all. */
  method SelectDocuments(py: Python, docs: seq<Document>, filters: seq<Filter>, logic: string) returns (found: set<DocId>)
    requires DistinctIds(docs)
    ensures forall doc :: doc in docs ==> (doc.id in found <==> MeantByAll(py, doc, filters, logic))
    ensures forall d :: d in found ==> exists doc :: doc in docs && doc.id == d
  {
    var index := BuildIndex(py, docs);
    assert forall k :: k in index ==> AreTexts(index[k]);
    found := Select(py, index, filters, logic);
    forall doc | doc in docs ensures doc.id in found <==> MeantByAll(py, doc, filters, logic) {
      WantedIsMeant(py, index, docs, doc, filters, logic);
    }
    forall d | d in found ensures exists doc :: doc in docs && doc.id == d {
      var f :| f in filters && d in DocsOf(py, index, f) by {
        assert Wanted(py, index, filters, logic, d);
        assert filters[0] in filters;
      }
      FilterMeans(py, index, docs, f, d);
    }
  }

  lemma WantedIsMeant(py: Python, index: Index, docs: seq<Document>, doc: Document, filters: seq<Filter>, logic: string)
    requires Indexes(py, index, docs) && DistinctIds(docs) && doc in docs
    ensures Wanted(py, index, filters, logic, doc.id) <==> MeantByAll(py, doc, filters, logic)
  {
    forall f | f in filters ensures doc.id in DocsOf(py, index, f) <==> Meant(py, doc, f) {
      FilterMeans(py, index, docs, f, doc.id);
    }
  }
}
