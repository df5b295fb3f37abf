/** Migrating a document twice is migrating it once. */
module MigrationIdempotence {
  import opened Wrappers
  import opened VariableRefs
  import opened Documents
  import opened Migration

  // ----- What a migrated document looks like -----------------------------------

  ghost predicate FixedName(v: Json) {
    v.Str? ==> NewName(v.s) == v.s
  }

  ghost predicate SettledComponent(c: Json) {
    c.Obj? ==>
      match Get(c.fields, "obj")
      case Some(Obj(o)) => Get(o, "component_name").Some? && FixedName(Get(o, "component_name").value)
      case _ => true
  }

  ghost predicate SettledData(data: seq<Field>) {
    && (Get(data, "label").Some? ==> FixedName(Get(data, "label").value))
    && (Get(data, "name").Some? ==> FixedName(Get(data, "name").value))
  }

  ghost predicate SettledNode(node: Json) {
    node.Obj? ==>
      && (match Get(node.fields, "type")
          case Some(Str(t)) => NewNodeType(t) == t
          case _ => true)
      && (match Get(node.fields, "data")
          case Some(Obj(data)) => SettledData(data)
          case _ => true)
  }

  ghost predicate Distinct(fields: seq<Field>) {
    forall i, j :: 0 <= i < j < |fields| ==> fields[i].key != fields[j].key
  }

  ghost predicate SettledField(f: Field) {
    NewId(f.key) == f.key && SettledComponent(f.value)
  }

  ghost predicate SettledComponents(components: seq<Field>) {
    && Distinct(components)
    && forall f :: f in components ==> SettledField(f)
  }

  ghost predicate SettledNodes(nodes: seq<Json>) {
    forall i :: 0 <= i < |nodes| ==> SettledNode(nodes[i])
  }

  ghost predicate SettledGraph(graph: seq<Field>) {
    match Get(graph, "nodes")
    case Some(Arr(nodes)) => SettledNodes(nodes)
    case _ => true
  }

  ghost predicate Settled(dsl: Json) {
    dsl.Obj? ==>
      match Get(dsl.fields, "components")
      case Some(Obj(components)) =>
        && SettledComponents(components)
        && (match Get(dsl.fields, "graph")
            case Some(Obj(graph)) => SettledGraph(graph)
            case _ => true)
      case _ => true
  }

  // ----- Updates of one field leave the others ------------------------------------

  lemma UpdateStrOther(fields: seq<Field>, key: string, f: string -> string, other: string)
    ensures Get(UpdateStr(fields, key, f), other) ==
            (match Get(fields, other)
             case Some(Str(s)) => Some(Str(if other == key then f(s) else s))
             case v => v)
  {
    match Get(fields, key)
    case Some(Str(s)) => GetPut(fields, key, Str(f(s)), other);
    case _ =>
  }

  lemma UpdateListOther(ids: map<string, string>, fields: seq<Field>, key: string, other: string)
    requires other != key
    ensures Get(UpdateList(ids, fields, key), other) == Get(fields, other)
  {
    match Get(fields, key)
    case Some(Arr(items)) => GetPut(fields, key, Arr(RenameItems(ids, items)), other);
    case _ =>
  }

  lemma KeysDiffer()
    ensures "obj" != "downstream" && "obj" != "upstream" && "obj" != "parent_id"
    ensures "type" != "id" && "type" != "parentId" && "type" != "data" && "data" != "id" && "data" != "parentId"
    ensures "label" != "name" && "label" != "form" && "name" != "form"
  {
    assert "obj"[0] == 'o' && "downstream"[0] == 'd' && "upstream"[0] == 'u' && "parent_id"[0] == 'p';
    assert "type"[0] == 't' && "data"[0] == 'd' && "id"[0] == 'i' && "parentId"[0] == 'p';
    assert "label"[0] == 'l' && "name"[0] == 'n' && "form"[0] == 'f';
  }

  // ----- Migrating settles -----------------------------------------------------------

  lemma ComponentSettles(ids: map<string, string>, c: Json)
    ensures SettledComponent(MigrateComponent(ids, c))
  {
    KeysDiffer();
    match RewriteValue(ids, c)
    case Obj(fields) =>
      var f0 := RenameObject(fields);
      var f1 := UpdateList(ids, f0, "downstream");
      var f2 := UpdateList(ids, f1, "upstream");
      UpdateListOther(ids, f0, "downstream", "obj");
      UpdateListOther(ids, f1, "upstream", "obj");
      UpdateStrOther(f2, "parent_id", id => Rename(ids, id), "obj");
      ObjectSettles(fields);
    case _ =>
  }

  lemma ObjectSettles(fields: seq<Field>)
    ensures match Get(RenameObject(fields), "obj")
            case Some(Obj(o)) => Get(o, "component_name").Some? && FixedName(Get(o, "component_name").value)
            case _ => true
  {
    match Get(fields, "obj")
    case Some(Obj(o)) =>
      GetPut(fields, "obj", Obj(Put(o, "component_name", NameOf(o))), "obj");
      GetPut(o, "component_name", NameOf(o), "component_name");
      if Get(o, "component_name").Some? && Get(o, "component_name").value.Str? {
        NewNameIsFixed(Get(o, "component_name").value.s);
      }
    case _ =>
  }

  lemma DataSettles(ids: map<string, string>, data: seq<Field>)
    ensures SettledData(MigrateData(ids, data))
  {
    KeysDiffer();
    var d1 := UpdateStr(data, "label", NewName);
    var d2 := UpdateStr(d1, "name", NewName);
    UpdateStrOther(data, "label", NewName, "label");
    UpdateStrOther(d1, "name", NewName, "label");
    UpdateStrOther(d1, "name", NewName, "name");
    if Get(data, "label").Some? && Get(data, "label").value.Str? {
      NewNameIsFixed(Get(data, "label").value.s);
    }
    if Get(d1, "name").Some? && Get(d1, "name").value.Str? {
      NewNameIsFixed(Get(d1, "name").value.s);
    }
    if Get(d2, "form").Some? {
      GetPut(d2, "form", RewriteValue(ids, Get(d2, "form").value), "label");
      GetPut(d2, "form", RewriteValue(ids, Get(d2, "form").value), "name");
    }
  }

  lemma NodeSettles(ids: map<string, string>, node: Json)
    ensures SettledNode(MigrateNode(ids, node))
  {
    KeysDiffer();
    if node.Obj? {
      var f1 := UpdateStr(node.fields, "id", id => Rename(ids, id));
      var f2 := UpdateStr(f1, "parentId", id => Rename(ids, id));
      var f3 := UpdateStr(f2, "type", NewNodeType);
      UpdateStrOther(f2, "type", NewNodeType, "type");
      match Get(f3, "data")
      case Some(Obj(data)) =>
        DataSettles(ids, data);
        GetPut(f3, "data", Obj(MigrateData(ids, data)), "type");
        GetPut(f3, "data", Obj(MigrateData(ids, data)), "data");
      case _ =>
    }
  }

  lemma {:induction false} NodesSettle(ids: map<string, string>, nodes: seq<Json>)
    ensures SettledNodes(MigrateNodes(ids, nodes))
  {
    if nodes != [] {
      NodeSettles(ids, nodes[0]);
      NodesSettle(ids, nodes[1..]);
    }
  }

  lemma {:induction false} PutElements(fields: seq<Field>, key: string, value: Json)
    ensures forall f :: f in Put(fields, key, value) ==> f == Field(key, value) || f in fields
  {
    if fields != [] && fields[0].key != key {
      PutElements(fields[1..], key, value);
    }
  }

  lemma {:induction false} PutDistinct(fields: seq<Field>, key: string, value: Json)
    requires Distinct(fields)
    ensures Distinct(Put(fields, key, value))
  {
    if fields != [] && fields[0].key != key {
      var rest := Put(fields[1..], key, value);
      PutDistinct(fields[1..], key, value);
      PutElements(fields[1..], key, value);
      forall f | f in rest ensures f.key != fields[0].key {
        assert f == Field(key, value) || f in fields[1..];
      }
      DistinctCons(fields[0], rest);
    }
  }

  lemma DistinctCons(first: Field, rest: seq<Field>)
    requires Distinct(rest) && forall f :: f in rest ==> f.key != first.key
    ensures Distinct([first] + rest)
  {
    forall i, j | 0 <= i < j < |rest| + 1 ensures ([first] + rest)[i].key != ([first] + rest)[j].key {
      assert rest[j - 1] in rest;
    }
  }

  lemma FieldSettles(ids: map<string, string>, f: Field)
    requires f.key in ids && ids[f.key] == NewId(f.key)
    ensures SettledField(Field(Rename(ids, f.key), MigrateComponent(ids, f.value)))
  {
    ComponentSettles(ids, f.value);
    NewIdIsFixed(f.key);
  }

  lemma {:induction false} ComponentsSettle(ids: map<string, string>, components: seq<Field>)
    requires forall f :: f in components ==> f.key in ids && ids[f.key] == NewId(f.key)
    ensures SettledComponents(MigrateComponents(ids, components))
  {
    if components != [] {
      var last := components[|components| - 1];
      var before := components[..|components| - 1];
      var now := Field(Rename(ids, last.key), MigrateComponent(ids, last.value));
      ComponentsSettle(ids, before);
      FieldSettles(ids, last);
      PutSettled(MigrateComponents(ids, before), now);
    }
  }

  lemma PutSettled(components: seq<Field>, f: Field)
    requires SettledComponents(components) && SettledField(f)
    ensures SettledComponents(Put(components, f.key, f.value))
  {
    PutDistinct(components, f.key, f.value);
    PutElements(components, f.key, f.value);
  }

  // ----- A settled document is left alone ---------------------------------------------

  lemma SettledComponentStays(ids: map<string, string>, c: Json)
    requires Identity(ids) && SettledComponent(c)
    ensures MigrateComponent(ids, c) == c
  {
    RewriteIdentity(ids, c);
    if c.Obj? {
      match Get(c.fields, "obj") {
        case Some(Obj(o)) =>
          PutSame(o, "component_name", Get(o, "component_name").value);
          PutSame(c.fields, "obj", Obj(o));
        case _ =>
      }
      assert RenameObject(c.fields) == c.fields;
      UpdateListSame(ids, c.fields, "downstream");
      UpdateListSame(ids, c.fields, "upstream");
      UpdateStrSame(c.fields, "parent_id", id => Rename(ids, id));
    }
  }

  lemma SettledDataStays(ids: map<string, string>, data: seq<Field>)
    requires Identity(ids) && SettledData(data)
    ensures MigrateData(ids, data) == data
  {
    UpdateStrSame(data, "label", NewName);
    UpdateStrSame(data, "name", NewName);
    if Get(data, "form").Some? {
      RewriteIdentity(ids, Get(data, "form").value);
      PutSame(data, "form", Get(data, "form").value);
    }
  }

  lemma SettledNodeStays(ids: map<string, string>, node: Json)
    requires Identity(ids) && SettledNode(node)
    ensures MigrateNode(ids, node) == node
  {
    if node.Obj? {
      UpdateStrSame(node.fields, "id", id => Rename(ids, id));
      UpdateStrSame(node.fields, "parentId", id => Rename(ids, id));
      UpdateStrSame(node.fields, "type", NewNodeType);
      match Get(node.fields, "data")
      case Some(Obj(data)) =>
        SettledDataStays(ids, data);
        PutSame(node.fields, "data", Obj(data));
      case _ =>
    }
  }

  lemma {:induction false} SettledNodesStay(ids: map<string, string>, nodes: seq<Json>)
    requires Identity(ids) && SettledNodes(nodes)
    ensures MigrateNodes(ids, nodes) == nodes
  {
    if nodes != [] {
      SettledNodeStays(ids, nodes[0]);
      SettledNodesStay(ids, nodes[1..]);
    }
  }

  lemma {:induction false} ReplaceSame(s: string, id: string)
    ensures ReplaceAll(s, id, id) == s
    decreases |s|
  {
    if s != "" && id != "" {
      if id <= s {
        ReplaceSame(s[|id|..], id);
      } else {
        ReplaceSame(s[1..], id);
      }
    }
  }

  lemma {:induction false} ReplaceIdsSame(ids: map<string, string>, order: seq<string>, s: string)
    requires Identity(ids)
    ensures ReplaceIds(ids, order, s) == s
  {
    if order != [] {
      ReplaceSame(s, order[0]);
      ReplaceIdsSame(ids, order[1..], s);
    }
  }

  lemma {:induction false} EdgesStay(ids: map<string, string>, order: seq<string>, edges: seq<Json>)
    requires Identity(ids)
    ensures MigrateEdges(ids, order, edges) == edges
  {
    if edges != [] {
      if edges[0].Obj? {
        var fields := edges[0].fields;
        UpdateStrSame(fields, "source", id => Rename(ids, id));
        UpdateStrSame(fields, "target", id => Rename(ids, id));
        if Get(fields, "id").Some? && Get(fields, "id").value.Str? {
          ReplaceIdsSame(ids, order, Get(fields, "id").value.s);
        }
        UpdateStrSame(fields, "id", id => ReplaceIds(ids, order, id));
      }
      EdgesStay(ids, order, edges[1..]);
    }
  }

  lemma {:induction false} PutFresh(fields: seq<Field>, key: string, value: Json)
    requires forall i :: 0 <= i < |fields| ==> fields[i].key != key
    ensures Put(fields, key, value) == fields + [Field(key, value)]
  {
    if fields != [] {
      PutFresh(fields[1..], key, value);
    }
  }

  lemma {:induction false} SettledComponentsStay(ids: map<string, string>, components: seq<Field>)
    requires Identity(ids) && SettledComponents(components)
    ensures MigrateComponents(ids, components) == components
  {
    if components != [] {
      var last := components[|components| - 1];
      var before := components[..|components| - 1];
      assert components == before + [last];
      SettledComponentsStay(ids, before);
      assert SettledField(last);
      SettledComponentStays(ids, last.value);
      PutFresh(before, last.key, last.value);
    }
  }

  lemma SettledGraphStays(ids: map<string, string>, order: seq<string>, graph: seq<Field>)
    requires Identity(ids) && SettledGraph(graph)
    ensures MigrateGraph(ids, order, graph) == graph
  {
    match Get(graph, "nodes") {
      case Some(Arr(nodes)) =>
        SettledNodesStay(ids, nodes);
        PutSame(graph, "nodes", Arr(nodes));
      case _ =>
    }
    match Get(graph, "edges") {
      case Some(Arr(edges)) =>
        EdgesStay(ids, order, edges);
        PutSame(graph, "edges", Arr(edges));
      case _ =>
    }
  }

  lemma RewriteFieldSame(ids: map<string, string>, fields: seq<Field>, key: string)
    requires Identity(ids)
    ensures RewriteField(ids, fields, key) == fields
  {
    if Get(fields, key).Some? {
      RewriteIdentity(ids, Get(fields, key).value);
      PutSame(fields, key, Get(fields, key).value);
    }
  }

  /** A settled document is a fixed point of the migration. */
  lemma SettledStays(dsl: Json)
    requires Settled(dsl)
    ensures Normalize(dsl) == dsl
  {
    if dsl.Obj? {
      match Get(dsl.fields, "components")
      case Some(Obj(components)) =>
        var ids := IdMap(components);
        var d := dsl.fields;
        assert Identity(ids);
        SettledComponentsStay(ids, components);
        PutSame(d, "components", Obj(components));
        UpdateListSame(ids, d, "path");
        if Get(d, "graph").Some? && Get(d, "graph").value.Obj? {
          SettledGraphStays(ids, LongestFirst(components), Get(d, "graph").value.fields);
          PutSame(d, "graph", Get(d, "graph").value);
        }
        RewriteFieldSame(ids, d, "history");
        RewriteFieldSame(ids, d, "messages");
        RewriteFieldSame(ids, d, "reference");
      case _ =>
    }
  }

  lemma GraphSettles(ids: map<string, string>, order: seq<string>, graph: seq<Field>)
    ensures SettledGraph(MigrateGraph(ids, order, graph))
  {
    assert "nodes" != "edges" by { assert "nodes"[0] != "edges"[0]; }
    var g := match Get(graph, "nodes")
             case Some(Arr(nodes)) => Put(graph, "nodes", Arr(MigrateNodes(ids, nodes)))
             case _ => graph;
    match Get(graph, "nodes") {
      case Some(Arr(nodes)) =>
        GetPut(graph, "nodes", Arr(MigrateNodes(ids, nodes)), "nodes");
        NodesSettle(ids, nodes);
      case _ =>
    }
    match Get(g, "edges") {
      case Some(Arr(edges)) => GetPut(g, "edges", Arr(MigrateEdges(ids, order, edges)), "nodes");
      case _ =>
    }
  }

  lemma RewriteFieldOther(ids: map<string, string>, fields: seq<Field>, key: string, other: string)
    requires other != key
    ensures Get(RewriteField(ids, fields, key), other) == Get(fields, other)
  {
    if Get(fields, key).Some? {
      GetPut(fields, key, RewriteValue(ids, Get(fields, key).value), other);
    }
  }

  function RenamedList(ids: map<string, string>, v: Option<Json>): Option<Json> {
    if v.Some? && v.value.Arr? then Some(Arr(RenameItems(ids, v.value.items))) else v
  }

  lemma UpdateListAt(ids: map<string, string>, fields: seq<Field>, key: string, other: string)
    ensures Get(UpdateList(ids, fields, key), other) ==
            if other == key then RenamedList(ids, Get(fields, other)) else Get(fields, other)
  {
    match Get(fields, key)
    case Some(Arr(items)) => GetPut(fields, key, Arr(RenameItems(ids, items)), other);
    case _ =>
  }

  /** The path of a migrated document. */
  lemma NormalizedPath(fields: seq<Field>, components: seq<Field>)
    requires Get(fields, "components") == Some(Obj(components))
    ensures var d := Normalize(Obj(fields));
            d.Obj? && Get(d.fields, "path") == RenamedList(IdMap(components), Get(fields, "path"))
  {
    var ids := IdMap(components);
    var d1 := Put(fields, "components", Obj(MigrateComponents(ids, components)));
    var d2 := UpdateList(ids, d1, "path");
    var d3 := match Get(d2, "graph")
              case Some(Obj(graph)) => Put(d2, "graph", Obj(MigrateGraph(ids, LongestFirst(components), graph)))
              case _ => d2;
    TopKeysDiffer();
    assert "path" != "history" && "path" != "messages" && "path" != "reference" by {
      assert "path"[0] == 'p' && "history"[0] == 'h' && "messages"[0] == 'm' && "reference"[0] == 'r';
    }
    GetPut(fields, "components", Obj(MigrateComponents(ids, components)), "path");
    UpdateListAt(ids, d1, "path", "path");
    if Get(d2, "graph").Some? && Get(d2, "graph").value.Obj? {
      GetPut(d2, "graph", Obj(MigrateGraph(ids, LongestFirst(components), Get(d2, "graph").value.fields)), "path");
    }
    LaterPartKept(ids, d3, RewriteField(ids, d3, "history"), RewriteField(ids, RewriteField(ids, d3, "history"), "messages"), "path");
  }

  /** The components and the graph of a migrated document. */
  lemma NormalizedParts(fields: seq<Field>, components: seq<Field>)
    requires Get(fields, "components") == Some(Obj(components))
    ensures var ids := IdMap(components);
            var d := Normalize(Obj(fields));
            && d.Obj?
            && Get(d.fields, "components") == Some(Obj(MigrateComponents(ids, components)))
            && Get(d.fields, "graph") ==
                 (match Get(fields, "graph")
                  case Some(Obj(graph)) => Some(Obj(MigrateGraph(ids, LongestFirst(components), graph)))
                  case g => g)
  {
    var ids := IdMap(components);
    var d1 := Put(fields, "components", Obj(MigrateComponents(ids, components)));
    var d2 := UpdateList(ids, d1, "path");
    var d3 := match Get(d2, "graph")
              case Some(Obj(graph)) => Put(d2, "graph", Obj(MigrateGraph(ids, LongestFirst(components), graph)))
              case _ => d2;
    TopKeysDiffer();
    var d4 := RewriteField(ids, d3, "history");
    var d5 := RewriteField(ids, d4, "messages");
    PartKept(ids, fields, components, d1, d2, "components");
    PartKept(ids, fields, components, d1, d2, "graph");
    if Get(d2, "graph").Some? && Get(d2, "graph").value.Obj? {
      var graph := Obj(MigrateGraph(ids, LongestFirst(components), Get(d2, "graph").value.fields));
      GetPut(d2, "graph", graph, "components");
      GetPut(d2, "graph", graph, "graph");
    }
    LaterPartKept(ids, d3, d4, d5, "components");
    LaterPartKept(ids, d3, d4, d5, "graph");
  }

  lemma TopKeysDiffer()
    ensures "components" != "path" && "components" != "graph" && "components" != "history"
    ensures "components" != "messages" && "components" != "reference"
    ensures "graph" != "path" && "graph" != "history" && "graph" != "messages" && "graph" != "reference"
  {
    assert "components"[0] == 'c' && "path"[0] == 'p' && "graph"[0] == 'g' && "history"[0] == 'h';
    assert "messages"[0] == 'm' && "reference"[0] == 'r';
  }

  lemma PartKept(ids: map<string, string>, fields: seq<Field>, components: seq<Field>,
                 d1: seq<Field>, d2: seq<Field>, key: string)
    requires d1 == Put(fields, "components", Obj(MigrateComponents(ids, components)))
    requires d2 == UpdateList(ids, d1, "path") && key != "path"
    ensures Get(d2, key) ==
            if key == "components" then Some(Obj(MigrateComponents(ids, components))) else Get(fields, key)
  {
    GetPut(fields, "components", Obj(MigrateComponents(ids, components)), key);
    UpdateListOther(ids, d1, "path", key);
  }

  lemma LaterPartKept(ids: map<string, string>, d3: seq<Field>, d4: seq<Field>, d5: seq<Field>, key: string)
    requires d4 == RewriteField(ids, d3, "history") && d5 == RewriteField(ids, d4, "messages")
    requires key != "history" && key != "messages" && key != "reference"
    ensures Get(RewriteField(ids, d5, "reference"), key) == Get(d3, key)
  {
    RewriteFieldOther(ids, d3, "history", key);
    RewriteFieldOther(ids, d4, "messages", key);
    RewriteFieldOther(ids, d5, "reference", key);
  }

  /** Whatever the document, migrating settles it. */
  lemma NormalizeSettles(dsl: Json)
    ensures Settled(Normalize(dsl))
  {
    if dsl.Obj? {
      match Get(dsl.fields, "components")
      case Some(Obj(components)) =>
        var ids := IdMap(components);
        NormalizedParts(dsl.fields, components);
        ComponentsSettle(ids, components);
        if Get(dsl.fields, "graph").Some? && Get(dsl.fields, "graph").value.Obj? {
          GraphSettles(ids, LongestFirst(components), Get(dsl.fields, "graph").value.fields);
        }
      case _ =>
    }
  }

  /** Migration is idempotent on every document. */
  lemma MigrationIsIdempotent(dsl: Json)
    ensures Normalize(Normalize(dsl)) == Normalize(dsl)
  {
    NormalizeSettles(dsl);
    SettledStays(Normalize(dsl));
  }
}
