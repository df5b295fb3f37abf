/** When its ids stay apart, a migrated document is a copy of the original under new names. */
module MigrationIsomorphism {
  import opened Wrappers
  import opened VariableRefs
  import opened Documents
  import opened Migration
  import opened MigrationGraph
  import opened ReferencePattern

  // ----- The graph of a document -----------------------------------------------------

  function FieldsOf(dsl: Json): seq<Field> {
    if dsl.Obj? then dsl.fields else []
  }

  function ListOf(fields: seq<Field>, key: string): seq<Json> {
    match Get(fields, key)
    case Some(Arr(items)) => items
    case _ => []
  }

  function ObjectOf(fields: seq<Field>, key: string): seq<Field> {
    match Get(fields, key)
    case Some(Obj(o)) => o
    case _ => []
  }

  function ComponentsOf(dsl: Json): seq<Field> {
    ObjectOf(FieldsOf(dsl), "components")
  }

  function PathOf(dsl: Json): seq<Json> {
    ListOf(FieldsOf(dsl), "path")
  }

  function EdgesOf(dsl: Json): seq<Json> {
    ListOf(ObjectOf(FieldsOf(dsl), "graph"), "edges")
  }

  predicate Joins(edge: Json, u: string, v: string) {
    edge.Obj? && Get(edge.fields, "source") == Some(Str(u)) && Get(edge.fields, "target") == Some(Str(v))
  }

  predicate HasEdge(dsl: Json, u: string, v: string) {
    exists i :: 0 <= i < |EdgesOf(dsl)| && Joins(EdgesOf(dsl)[i], u, v)
  }

  predicate OnPath(dsl: Json, x: string) {
    Str(x) in PathOf(dsl)
  }

  ghost predicate HasLinkIn(dsl: Json, key: string, a: string, b: string) {
    Linked(ComponentsOf(dsl), key, a, b)
  }

  // ----- Names ------------------------------------------------------------------------

  /** A link is rewritten as a text before it is renamed as an id. */
  function LinkTo(ids: map<string, string>, b: string): string {
    Rename(ids, RewriteText(ids, b))
  }

  /** Among the references of a text is one to a component that gets a new id. */
  predicate RefersToRenamed(components: seq<Field>, s: string) {
    exists i | 0 <= i < |Scan(s)| :: IsRenamedReference(components, Scan(s)[i])
  }

  predicate IsRenamedReference(components: seq<Field>, t: Token) {
    t.Reference? && t.id in Keys(components) && NewId(t.id) != t.id
  }

  lemma {:induction false} TokensStayIff(components: seq<Field>, ts: seq<Token>)
    ensures RenameTokens(IdMap(components), ts) == ts <==>
            forall i | 0 <= i < |ts| :: !IsRenamedReference(components, ts[i])
  {
    if ts != [] {
      TokensStayIff(components, ts[1..]);
      var r := RenameTokens(IdMap(components), ts);
      assert r[1..] == RenameTokens(IdMap(components), ts[1..]);
      assert forall i | 0 <= i < |ts| - 1 :: ts[1..][i] == ts[i + 1];
      assert forall i | 0 < i < |ts| :: ts[i] == ts[1..][i - 1];
    }
  }

  /** Rewriting leaves a text as it is exactly if none of its references is renamed. */
  lemma TextStaysIff(components: seq<Field>, s: string)
    ensures Substitute(IdMap(components), s) == s <==> !RefersToRenamed(components, s)
  {
    var ids := IdMap(components);
    forall id | id in ids && IsIdText(id) ensures IsIdText(ids[id]) {
      NewIdKeepsShape(id);
    }
    RewritingCommutesWithScanning(ids, s);
    ScanShows(s);
    ScanShows(Substitute(ids, s));
    TokensStayIff(components, Scan(s));
  }

  /** A rewritten name that is no component id does not become the old one by being renamed: it begins
      as the old one does, and a new id begins differently from the legacy id. */
  lemma RenamingDoesNotRestore(components: seq<Field>, b: string)
    requires Substitute(IdMap(components), b) != b
    ensures Rename(IdMap(components), Substitute(IdMap(components), b)) != b
  {
    var ids := IdMap(components);
    var t := Substitute(ids, b);
    SubstituteKeepsHead(ids, b);
    if t in ids && NewId(t) != t {
      assert t[0] == b[0] && NewId(t)[0] != t[0];
    }
  }

  /** A link is renamed as an entry of the path would be exactly if it is a component id or has no reference
      to a component that gets a new id. */
  lemma LinkIsRenamedIff(components: seq<Field>, b: string)
    ensures LinkTo(IdMap(components), b) == Rename(IdMap(components), b) <==>
            b in Keys(components) || !RefersToRenamed(components, b)
  {
    TextStaysIff(components, b);
    if b in Keys(components) {
      NewIdIsFixed(b);
    } else if Substitute(IdMap(components), b) != b {
      RenamingDoesNotRestore(components, b);
    }
  }

  /** The ids of the components. */
  function ComponentIds(dsl: Json): set<string> {
    Keys(ComponentsOf(dsl))
  }

  ghost predicate IsLinkName(dsl: Json, b: string) {
    exists key, a :: IsLinkKey(key) && HasLinkIn(dsl, key, a, b)
  }

  ghost predicate IsEdgeEnd(dsl: Json, x: string) {
    exists y :: HasEdge(dsl, x, y) || HasEdge(dsl, y, x)
  }

  /** The names a link may start from or go to. */
  ghost predicate IsLinked(dsl: Json, x: string) {
    x in ComponentIds(dsl) || IsLinkName(dsl, x)
  }

  /** The names in the path and at the ends of edges, and the component ids. */
  ghost predicate IsPlaced(dsl: Json, x: string) {
    x in ComponentIds(dsl) || OnPath(dsl, x) || IsEdgeEnd(dsl, x)
  }

  /** The names of a document. */
  ghost predicate IsNamed(dsl: Json, x: string) {
    IsLinked(dsl, x) || IsPlaced(dsl, x)
  }

  /** No two names of the document become one. */
  ghost predicate StaysApart(dsl: Json) {
    var ids := IdMap(ComponentsOf(dsl));
    && (forall x, y :: IsLinked(dsl, x) && IsLinked(dsl, y) && LinkTo(ids, x) == LinkTo(ids, y) ==> x == y)
    && (forall x, y :: IsPlaced(dsl, x) && IsPlaced(dsl, y) && Rename(ids, x) == Rename(ids, y) ==> x == y)
  }

  /** Keys of a dictionary are distinct. */
  predicate IsDictionary(fields: seq<Field>) {
    forall i, j :: 0 <= i < j < |fields| ==> fields[i].key != fields[j].key
  }

  lemma PartsOfText(p: Parts, r: string)
    ensures var s, m := p.Text(), p.Lengths();
            && m.Total() == |s| > 0
            && s[m.open..m.open + m.id] == p.id
            && s[..m.open] + r + s[m.open + m.id..] == p.(id := r).Text()
  {
    var s, m := p.Text(), p.Lengths();
    assert s == (p.braces + p.space) + p.id + p.Tail();
    assert s[..m.open] == p.braces + p.space && s[m.open + m.id..] == p.Tail();
    assert (p.braces + p.space) + r + p.Tail() == p.braces + (p.space + (r + p.Tail()));
  }

  lemma WholeMatch(p: Parts)
    requires p.Valid()
    ensures Match(p.Text()) == Some(p.Lengths())
  {
    EveryMatchIsFound(p, "");
    assert p.Text() + "" == p.Text();
  }

  lemma WholeMatchRewritten(ids: map<string, string>, s: string, m: Span)
    requires s != "" && Match(s) == Some(m) && m.Total() == |s|
    ensures Substitute(ids, s) == s[..m.open] + Rename(ids, s[m.open..m.open + m.id]) + s[m.open + m.id..]
  {
    MatchFits(s);
    assert s[m.Total()..] == "" && s[m.open + m.id..m.Total()] == s[m.open + m.id..];
  }

  /** A text that is one reference is rewritten at its id. */
  lemma ReferenceRewrittenWhole(ids: map<string, string>, p: Parts)
    requires p.Valid()
    ensures Substitute(ids, p.Text()) == p.(id := Rename(ids, p.id)).Text()
  {
    WholeMatch(p);
    PartsOfText(p, Rename(ids, p.id));
    WholeMatchRewritten(ids, p.Text(), p.Lengths());
  }

  /** A link that is one reference is rewritten inside, while the same text in the path stays. */
  lemma ReferenceLinksAreRewritten(ids: map<string, string>, p: Parts)
    requires p.Valid() && forall id :: id in ids ==> id == "" || !IsOpenBrace(id[0])
    ensures Rename(ids, p.Text()) == p.Text()
    ensures LinkTo(ids, p.Text()) == p.(id := Rename(ids, p.id)).Text()
  {
    ReferenceRewrittenWhole(ids, p);
    var q := p.(id := Rename(ids, p.id));
    assert p.Text()[0] == p.braces[0] && q.Text()[0] == p.braces[0];
  }

  /** A link to `{Splitter:0@x}` becomes one to `{TokenChunker:0@x}`. */
  lemma TemplateLinksAreRewritten(component: Json)
    ensures var ids := IdMap([Field("Splitter:0", component)]);
            var p := Parts("{", "", "Splitter:0", "x", "", "}");
            Rename(ids, p.Text()) == p.Text() && LinkTo(ids, p.Text()) == p.(id := "TokenChunker:0").Text() != p.Text()
  {
    var components := [Field("Splitter:0", component)];
    var ids := IdMap(components);
    var p := Parts("{", "", "Splitter:0", "x", "", "}");
    assert components[0] in components;
    assert forall f :: f in components ==> f == components[0];
    assert NewId("Splitter:0") == "TokenChunker:0" by { assert "Splitter:0"[9..] == "0"; }
    assert forall id :: id in ids ==> id == "Splitter:0" && id[0] == 'S';
    ReferenceLinksAreRewritten(ids, p);
    assert |p.(id := "TokenChunker:0").Text()| > |p.Text()|;
  }

  // ----- Lists -------------------------------------------------------------------------

  lemma PathItems(ids: map<string, string>, items: seq<Json>, x': string)
    ensures Str(x') in RenameItems(ids, items) <==> exists x :: Str(x) in items && Rename(ids, x) == x'
  {
    var r := RenameItems(ids, items);
    forall i | 0 <= i < |items|
      ensures |r| == |items| && r[i] == (if items[i].Str? then Str(Rename(ids, items[i].s)) else items[i])
    {
      PathRenamed(ids, items, i);
    }
    if Str(x') in r {
      assert items != [];
      PathRenamed(ids, items, 0);
      var i :| 0 <= i < |r| && r[i] == Str(x');
      assert items[i] == Str(items[i].s) && items[i] in items;
    }
    if x :| Str(x) in items && Rename(ids, x) == x' {
      var i :| 0 <= i < |items| && items[i] == Str(x);
      assert r[i] == Str(x') && r[i] in r;
    }
  }

  lemma {:induction false} RewriteItemsAt(ids: map<string, string>, items: seq<Json>, i: nat)
    requires i < |items|
    ensures |RewriteItems(ids, items)| == |items| && RewriteItems(ids, items)[i] == RewriteValue(ids, items[i])
  {
    if i > 0 {
      RewriteItemsAt(ids, items[1..], i - 1);
    } else if |items| > 1 {
      RewriteItemsAt(ids, items[1..], 0);
    }
  }

  lemma ItemsRewritten(ids: map<string, string>, items: seq<Json>, x: string)
    ensures Str(x) in RewriteItems(ids, items) <==> exists b :: Str(b) in items && RewriteText(ids, b) == x
  {
    var w := RewriteItems(ids, items);
    forall i | 0 <= i < |items| ensures |w| == |items| && w[i] == RewriteValue(ids, items[i]) {
      RewriteItemsAt(ids, items, i);
    }
    if Str(x) in w {
      assert items != [];
      var i :| 0 <= i < |w| && w[i] == Str(x);
      assert items[i].Str? && items[i] == Str(items[i].s) && items[i] in items;
    }
    if b :| Str(b) in items && RewriteText(ids, b) == x {
      var i :| 0 <= i < |items| && items[i] == Str(b);
      assert w[i] in w;
    }
  }

  lemma LinkItems(ids: map<string, string>, items: seq<Json>, b': string)
    ensures Str(b') in RenameItems(ids, RewriteItems(ids, items)) <==> exists b :: Str(b) in items && LinkTo(ids, b) == b'
  {
    var w := RewriteItems(ids, items);
    PathItems(ids, w, b');
    forall x ensures Str(x) in w <==> exists b :: Str(b) in items && RewriteText(ids, b) == x {
      ItemsRewritten(ids, items, x);
    }
    if b :| Str(b) in items && LinkTo(ids, b) == b' {
      assert Str(RewriteText(ids, b)) in w;
    }
  }

  // ----- Links --------------------------------------------------------------------------

  lemma ComponentLinks(ids: map<string, string>, c: Json, key: string, b': string)
    requires IsLinkKey(key)
    ensures HasLink(MigrateComponent(ids, c), key, b') <==> exists b :: HasLink(c, key, b) && LinkTo(ids, b) == b'
  {
    if c.Obj? {
      LinksRewritten(ids, c, key);
      match Get(c.fields, key) {
        case Some(Arr(items)) =>
          assert Get(MigrateComponent(ids, c).fields, key) == Some(Arr(RenameItems(ids, RewriteItems(ids, items))));
          LinkItems(ids, items, b');
          assert forall b :: HasLink(c, key, b) <==> Str(b) in items;
        case _ =>
      }
    }
  }

  lemma ComponentsStayApart(dsl: Json, x: string, y: string)
    requires StaysApart(dsl) && x in ComponentIds(dsl) && y in ComponentIds(dsl) && x != y
    ensures NewId(x) != NewId(y)
  {
    assert IsPlaced(dsl, x) && IsPlaced(dsl, y);
  }

  lemma ComponentsInOrder(dsl: Json)
    requires IsDictionary(ComponentsOf(dsl)) && StaysApart(dsl)
    ensures Injective(ComponentsOf(dsl))
  {
    var components := ComponentsOf(dsl);
    forall i, j | 0 <= i < j < |components| ensures NewId(components[i].key) != NewId(components[j].key) {
      assert components[i] in components && components[j] in components;
      assert components[i].key != components[j].key;
      ComponentsStayApart(dsl, components[i].key, components[j].key);
    }
  }

  lemma ComponentAt(dsl: Json, i: nat)
    requires IsDictionary(ComponentsOf(dsl)) && StaysApart(dsl) && i < |ComponentsOf(dsl)|
    ensures var components := ComponentsOf(dsl);
            var ids := IdMap(components);
            var out := MigrateComponents(ids, components);
            && |out| == |components|
            && out[i] == Field(Rename(ids, components[i].key), MigrateComponent(ids, components[i].value))
  {
    var components := ComponentsOf(dsl);
    assert components[i] in components;
    ComponentsInOrder(dsl);
    InjectiveInOrder(IdMap(components), components);
    MigratedAt(IdMap(components), components, i);
  }

  /** The links of the migrated components are the renamed links, and no others. */
  lemma LinksAreImages(dsl: Json, key: string, a': string, b': string)
    requires IsDictionary(ComponentsOf(dsl)) && StaysApart(dsl) && IsLinkKey(key)
    ensures var ids := IdMap(ComponentsOf(dsl));
            Linked(MigrateComponents(ids, ComponentsOf(dsl)), key, a', b') <==>
            exists a, b :: HasLinkIn(dsl, key, a, b) && Rename(ids, a) == a' && LinkTo(ids, b) == b'
  {
    var components := ComponentsOf(dsl);
    var ids := IdMap(components);
    var out := MigrateComponents(ids, components);
    if Linked(out, key, a', b') {
      NothingAdded(dsl);
      var i :| 0 <= i < |out| && out[i].key == a' && HasLink(out[i].value, key, b');
      ComponentAt(dsl, i);
      ComponentLinks(ids, components[i].value, key, b');
      var b :| HasLink(components[i].value, key, b) && LinkTo(ids, b) == b';
      assert HasLinkIn(dsl, key, components[i].key, b);
    }
    if a, b :| HasLinkIn(dsl, key, a, b) && Rename(ids, a) == a' && LinkTo(ids, b) == b' {
      var i :| 0 <= i < |components| && components[i].key == a && HasLink(components[i].value, key, b);
      ComponentAt(dsl, i);
      ComponentLinks(ids, components[i].value, key, b');
    }
  }

  lemma NothingAdded(dsl: Json)
    requires IsDictionary(ComponentsOf(dsl)) && StaysApart(dsl)
    ensures |MigrateComponents(IdMap(ComponentsOf(dsl)), ComponentsOf(dsl))| == |ComponentsOf(dsl)|
  {
    if ComponentsOf(dsl) != [] {
      ComponentAt(dsl, 0);
    }
  }

  // ----- Edges --------------------------------------------------------------------------

  lemma EdgeEnds(ids: map<string, string>, order: seq<string>, edge: Json, u': string, v': string)
    ensures Joins(MigrateEdge(ids, order, edge), u', v') <==>
            exists u, v :: Joins(edge, u, v) && Rename(ids, u) == u' && Rename(ids, v) == v'
  {
    if edge.Obj? {
      EdgeEndsRenamed(ids, order, edge.fields, "source");
      EdgeEndsRenamed(ids, order, edge.fields, "target");
      if Joins(MigrateEdge(ids, order, edge), u', v') {
        assert Joins(edge, Get(edge.fields, "source").value.s, Get(edge.fields, "target").value.s);
      }
    }
  }

  lemma EdgeImages(ids: map<string, string>, order: seq<string>, edges: seq<Json>, u': string, v': string)
    ensures (exists i :: 0 <= i < |MigrateEdges(ids, order, edges)| && Joins(MigrateEdges(ids, order, edges)[i], u', v')) <==>
            exists i, u, v :: 0 <= i < |edges| && Joins(edges[i], u, v) && Rename(ids, u) == u' && Rename(ids, v) == v'
  {
    var out := MigrateEdges(ids, order, edges);
    forall i | 0 <= i < |edges| ensures |out| == |edges| && out[i] == MigrateEdge(ids, order, edges[i]) {
      MigrateEdgesAt(ids, order, edges, i);
    }
    if i :| 0 <= i < |out| && Joins(out[i], u', v') {
      assert edges != [];
      MigrateEdgesAt(ids, order, edges, 0);
      EdgeEnds(ids, order, edges[i], u', v');
    }
    if i, u, v :| 0 <= i < |edges| && Joins(edges[i], u, v) && Rename(ids, u) == u' && Rename(ids, v) == v' {
      EdgeEnds(ids, order, edges[i], u', v');
      assert Joins(out[i], u', v');
    }
  }

  lemma GraphEdges(ids: map<string, string>, order: seq<string>, graph: seq<Field>)
    ensures ListOf(MigrateGraph(ids, order, graph), "edges") == MigrateEdges(ids, order, ListOf(graph, "edges"))
  {
    assert "nodes" != "edges" by { assert "nodes"[0] == 'n' && "edges"[0] == 'e'; }
    match Get(graph, "nodes") {
      case Some(Arr(nodes)) => GetPut(graph, "nodes", Arr(MigrateNodes(ids, nodes)), "edges");
      case _ =>
    }
    var g := match Get(graph, "nodes")
             case Some(Arr(nodes)) => Put(graph, "nodes", Arr(MigrateNodes(ids, nodes)))
             case _ => graph;
    match Get(g, "edges") {
      case Some(Arr(edges)) => GetPut(g, "edges", Arr(MigrateEdges(ids, order, edges)), "edges");
      case _ =>
    }
  }

  // ----- The migrated document ------------------------------------------------------------

  /** The parts of a migrated document. */
  lemma MigratedParts(dsl: Json)
    requires dsl.Obj? && Get(dsl.fields, "components").Some? && Get(dsl.fields, "components").value.Obj?
    ensures var ids := IdMap(ComponentsOf(dsl));
            && ComponentsOf(Normalize(dsl)) == MigrateComponents(ids, ComponentsOf(dsl))
            && PathOf(Normalize(dsl)) == RenameItems(ids, PathOf(dsl))
            && EdgesOf(Normalize(dsl)) == MigrateEdges(ids, LongestFirst(ComponentsOf(dsl)), EdgesOf(dsl))
  {
    var components := ComponentsOf(dsl);
    var ids := IdMap(components);
    Idem.NormalizedParts(dsl.fields, components);
    Idem.NormalizedPath(dsl.fields, components);
    match Get(dsl.fields, "graph") {
      case Some(Obj(graph)) => GraphEdges(ids, LongestFirst(components), graph);
      case _ =>
    }
  }

  /** What links, path and edges have in the migrated document are the images of what they had, and
      nothing else: no injectivity is needed for the path and the edges. */
  lemma PlacesAreImages(dsl: Json, u': string, v': string)
    requires dsl.Obj? && Get(dsl.fields, "components").Some? && Get(dsl.fields, "components").value.Obj?
    ensures var ids := IdMap(ComponentsOf(dsl));
            && (OnPath(Normalize(dsl), u') <==> exists u :: OnPath(dsl, u) && Rename(ids, u) == u')
            && (HasEdge(Normalize(dsl), u', v') <==>
                exists u, v :: HasEdge(dsl, u, v) && Rename(ids, u) == u' && Rename(ids, v) == v')
  {
    var ids := IdMap(ComponentsOf(dsl));
    MigratedParts(dsl);
    PathItems(ids, PathOf(dsl), u');
    EdgeImages(ids, LongestFirst(ComponentsOf(dsl)), EdgesOf(dsl), u', v');
    if u, v :| HasEdge(dsl, u, v) && Rename(ids, u) == u' && Rename(ids, v) == v' {
      var i :| 0 <= i < |EdgesOf(dsl)| && Joins(EdgesOf(dsl)[i], u, v);
    }
    if HasEdge(Normalize(dsl), u', v') {
      var i, u, v :| 0 <= i < |EdgesOf(dsl)| && Joins(EdgesOf(dsl)[i], u, v) && Rename(ids, u) == u' && Rename(ids, v) == v';
      assert HasEdge(dsl, u, v);
    }
  }

  ghost predicate SameLinks(dsl: Json, out: Json, key: string) {
    var ids := IdMap(ComponentsOf(dsl));
    forall a, b :: a in ComponentIds(dsl) && IsLinked(dsl, b) ==>
      (HasLinkIn(out, key, Rename(ids, a), LinkTo(ids, b)) <==> HasLinkIn(dsl, key, a, b))
  }

  ghost predicate SamePath(dsl: Json, out: Json) {
    var ids := IdMap(ComponentsOf(dsl));
    forall x :: IsPlaced(dsl, x) ==> (OnPath(out, Rename(ids, x)) <==> OnPath(dsl, x))
  }

  ghost predicate SameEdges(dsl: Json, out: Json) {
    var ids := IdMap(ComponentsOf(dsl));
    forall u, v :: IsPlaced(dsl, u) && IsPlaced(dsl, v) ==>
      (HasEdge(out, Rename(ids, u), Rename(ids, v)) <==> HasEdge(dsl, u, v))
  }

  ghost predicate SameComponents(dsl: Json, out: Json) {
    var ids := IdMap(ComponentsOf(dsl));
    && |ComponentsOf(out)| == |ComponentsOf(dsl)|
    && forall i :: 0 <= i < |ComponentsOf(dsl)| ==> ComponentsOf(out)[i].key == Rename(ids, ComponentsOf(dsl)[i].key)
  }

  lemma LinkStartsAtComponent(dsl: Json, key: string, a: string, b: string)
    requires HasLinkIn(dsl, key, a, b)
    ensures a in ComponentIds(dsl)
    ensures IsLinkKey(key) ==> IsLinked(dsl, b)
  {
    var components := ComponentsOf(dsl);
    var i :| 0 <= i < |components| && components[i].key == a && HasLink(components[i].value, key, b);
    assert components[i] in components;
  }

  lemma LinksStay(dsl: Json, key: string)
    requires dsl.Obj? && Get(dsl.fields, "components").Some? && Get(dsl.fields, "components").value.Obj?
    requires IsDictionary(ComponentsOf(dsl)) && StaysApart(dsl) && IsLinkKey(key)
    ensures SameLinks(dsl, Normalize(dsl), key)
  {
    var ids := IdMap(ComponentsOf(dsl));
    MigratedParts(dsl);
    forall a, b | a in ComponentIds(dsl) && IsLinked(dsl, b)
      ensures HasLinkIn(Normalize(dsl), key, Rename(ids, a), LinkTo(ids, b)) <==> HasLinkIn(dsl, key, a, b)
    {
      LinksAreImages(dsl, key, Rename(ids, a), LinkTo(ids, b));
      if HasLinkIn(Normalize(dsl), key, Rename(ids, a), LinkTo(ids, b)) {
        var c, d :| HasLinkIn(dsl, key, c, d) && Rename(ids, c) == Rename(ids, a) && LinkTo(ids, d) == LinkTo(ids, b);
        LinkStartsAtComponent(dsl, key, c, d);
        assert IsPlaced(dsl, a) && IsPlaced(dsl, c);
      }
    }
  }

  lemma PathStays(dsl: Json)
    requires dsl.Obj? && Get(dsl.fields, "components").Some? && Get(dsl.fields, "components").value.Obj?
    requires StaysApart(dsl)
    ensures SamePath(dsl, Normalize(dsl))
  {
    var ids := IdMap(ComponentsOf(dsl));
    forall x | IsPlaced(dsl, x) ensures OnPath(Normalize(dsl), Rename(ids, x)) <==> OnPath(dsl, x) {
      PlacesAreImages(dsl, Rename(ids, x), "");
      if OnPath(Normalize(dsl), Rename(ids, x)) {
        var y :| OnPath(dsl, y) && Rename(ids, y) == Rename(ids, x);
        assert IsPlaced(dsl, y);
      }
    }
  }

  lemma EdgesStay(dsl: Json)
    requires dsl.Obj? && Get(dsl.fields, "components").Some? && Get(dsl.fields, "components").value.Obj?
    requires StaysApart(dsl)
    ensures SameEdges(dsl, Normalize(dsl))
  {
    var ids := IdMap(ComponentsOf(dsl));
    forall u, v | IsPlaced(dsl, u) && IsPlaced(dsl, v)
      ensures HasEdge(Normalize(dsl), Rename(ids, u), Rename(ids, v)) <==> HasEdge(dsl, u, v)
    {
      PlacesAreImages(dsl, Rename(ids, u), Rename(ids, v));
      if HasEdge(Normalize(dsl), Rename(ids, u), Rename(ids, v)) {
        var x, y :| HasEdge(dsl, x, y) && Rename(ids, x) == Rename(ids, u) && Rename(ids, y) == Rename(ids, v);
        assert IsPlaced(dsl, x) && IsPlaced(dsl, y);
      }
    }
  }

  /** With names that stay apart, the components, the links, the path and the edges of the migrated
      document are those of the original under the new names: they hold exactly if they held before. */
  lemma MigrationIsIsomorphic(dsl: Json)
    requires dsl.Obj? && Get(dsl.fields, "components").Some? && Get(dsl.fields, "components").value.Obj?
    requires IsDictionary(ComponentsOf(dsl)) && StaysApart(dsl)
    ensures var out := Normalize(dsl);
            && SameComponents(dsl, out)
            && SameLinks(dsl, out, "downstream") && SameLinks(dsl, out, "upstream")
            && SamePath(dsl, out) && SameEdges(dsl, out)
            && PathOf(out) == RenameItems(IdMap(ComponentsOf(dsl)), PathOf(dsl))
  {
    MigratedParts(dsl);
    NothingAdded(dsl);
    forall i | 0 <= i < |ComponentsOf(dsl)|
      ensures ComponentsOf(Normalize(dsl))[i].key == Rename(IdMap(ComponentsOf(dsl)), ComponentsOf(dsl)[i].key)
    {
      ComponentAt(dsl, i);
    }
    LinksStay(dsl, "downstream");
    LinksStay(dsl, "upstream");
    PathStays(dsl);
    EdgesStay(dsl);
  }

  /** Where every link is a component id or refers to no component that gets a new id, links are renamed
      like everything else, so it is enough that renaming is injective on all names of the document. */
  lemma InjectiveRenamingStaysApart(dsl: Json)
    requires forall x :: IsLinked(dsl, x) ==> x in ComponentIds(dsl) || !RefersToRenamed(ComponentsOf(dsl), x)
    requires var ids := IdMap(ComponentsOf(dsl));
             forall x, y :: IsNamed(dsl, x) && IsNamed(dsl, y) && Rename(ids, x) == Rename(ids, y) ==> x == y
    ensures StaysApart(dsl)
    ensures forall x :: IsLinked(dsl, x) ==> LinkTo(IdMap(ComponentsOf(dsl)), x) == Rename(IdMap(ComponentsOf(dsl)), x)
  {
    var ids := IdMap(ComponentsOf(dsl));
    forall x | IsLinked(dsl, x) ensures LinkTo(ids, x) == Rename(ids, x) {
      LinkIsRenamedIff(ComponentsOf(dsl), x);
    }
  }
}
