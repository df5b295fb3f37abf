/** The migration of legacy workflow documents: component ids and names are renamed
    throughout a JSON tree, business values are left alone. */
module Migration {
  import opened Wrappers
  import opened VariableRefs
  import opened Documents

  // ----- The renames ---------------------------------------------------------------

  function NewName(name: string): string {
    if name == "Splitter" then "TokenChunker"
    else if name == "HierarchicalMerger" then "TitleChunker"
    else if name == "PDFGenerator" then "DocGenerator"
    else name
  }

  function NewNodeType(t: string): string {
    if t == "splitterNode" then "chunkerNode" else t
  }

  function NewId(id: string): string {
    if "Splitter:" <= id then "TokenChunker:" + id[9..]
    else if "HierarchicalMerger:" <= id then "TitleChunker:" + id[19..]
    else if "PDFGenerator:" <= id then "DocGenerator:" + id[13..]
    else id
  }

  lemma NewIdIsFixed(id: string)
    ensures NewId(NewId(id)) == NewId(id)
  {
    var n := NewId(id);
    if n != id {
      assert n[0] == 'T' || n[0] == 'D';
    }
  }

  lemma NewNameIsFixed(name: string)
    ensures NewName(NewName(name)) == NewName(name)
  {
  }

  function Keys(fields: seq<Field>): set<string> {
    set f | f in fields :: f.key
  }

  /** Every component id and what it becomes. */
  function IdMap(components: seq<Field>): map<string, string> {
    map id | id in Keys(components) :: NewId(id)
  }

  // ----- Rewriting values --------------------------------------------------------------

  function RewriteValue(ids: map<string, string>, v: Json): Json
    decreases v, 1
  {
    match v
    case Str(s) => Str(RewriteText(ids, s))
    case Arr(items) => Arr(RewriteItems(ids, items))
    case Obj(fields) => Obj(RewriteFields(ids, fields))
    case Atom(_) => v
  }

  function RewriteItems(ids: map<string, string>, items: seq<Json>): seq<Json>
    decreases items, 0
  {
    if items == [] then [] else [RewriteValue(ids, items[0])] + RewriteItems(ids, items[1..])
  }

  function RewriteFields(ids: map<string, string>, fields: seq<Field>): seq<Field>
    decreases fields, 0
  {
    if fields == [] then []
    else [Field(fields[0].key, RewriteValue(ids, fields[0].value))] + RewriteFields(ids, fields[1..])
  }

  function RenameItems(ids: map<string, string>, items: seq<Json>): seq<Json> {
    if items == [] then []
    else [if items[0].Str? then Str(Rename(ids, items[0].s)) else items[0]] + RenameItems(ids, items[1..])
  }

  /** Apply `f` to the field's value if it is a string. */
  function UpdateStr(fields: seq<Field>, key: string, f: string -> string): seq<Field> {
    match Get(fields, key)
    case Some(Str(s)) => Put(fields, key, Str(f(s)))
    case _ => fields
  }

  /** Rename the ids in the field's value if it is a list. */
  function UpdateList(ids: map<string, string>, fields: seq<Field>, key: string): seq<Field> {
    match Get(fields, key)
    case Some(Arr(items)) => Put(fields, key, Arr(RenameItems(ids, items)))
    case _ => fields
  }

  /** The component name, which becomes null when there is none. */
  function NameOf(o: seq<Field>): Json {
    match Get(o, "component_name")
    case None => NULL
    case Some(Str(name)) => Str(NewName(name))
    case Some(other) => other
  }

  function RenameObject(fields: seq<Field>): seq<Field> {
    match Get(fields, "obj")
    case Some(Obj(o)) => Put(fields, "obj", Obj(Put(o, "component_name", NameOf(o))))
    case _ => fields
  }

  function MigrateComponent(ids: map<string, string>, c: Json): Json {
    match RewriteValue(ids, c)
    case Obj(fields) =>
      var f1 := UpdateList(ids, RenameObject(fields), "downstream");
      var f2 := UpdateList(ids, f1, "upstream");
      Obj(UpdateStr(f2, "parent_id", id => Rename(ids, id)))
    case other => other
  }

  /** The new component dictionary: later components win when new ids collide. */
  function MigrateComponents(ids: map<string, string>, components: seq<Field>): seq<Field> {
    if components == [] then []
    else
      var last := components[|components| - 1];
      Put(MigrateComponents(ids, components[..|components| - 1]), Rename(ids, last.key), MigrateComponent(ids, last.value))
  }

  // ----- The graph ------------------------------------------------------------------------

  function MigrateData(ids: map<string, string>, data: seq<Field>): seq<Field> {
    var d := UpdateStr(UpdateStr(data, "label", NewName), "name", NewName);
    match Get(d, "form")
    case None => d
    case Some(form) => Put(d, "form", RewriteValue(ids, form))
  }

  function MigrateNode(ids: map<string, string>, node: Json): Json {
    match node
    case Obj(fields) =>
      var f1 := UpdateStr(fields, "id", id => Rename(ids, id));
      var f2 := UpdateStr(f1, "parentId", id => Rename(ids, id));
      var f3 := UpdateStr(f2, "type", NewNodeType);
      (match Get(f3, "data")
       case Some(Obj(data)) => Obj(Put(f3, "data", Obj(MigrateData(ids, data))))
       case _ => Obj(f3))
    case _ => node
  }

  function MigrateNodes(ids: map<string, string>, nodes: seq<Json>): seq<Json> {
    if nodes == [] then [] else [MigrateNode(ids, nodes[0])] + MigrateNodes(ids, nodes[1..])
  }

  /** Replace every occurrence, left to right. The empty id is never renamed. */
  function ReplaceAll(s: string, was: string, now: string): string
    decreases |s|
  {
    if s == "" || was == "" then s
    else if was <= s then now + ReplaceAll(s[|was|..], was, now)
    else [s[0]] + ReplaceAll(s[1..], was, now)
  }

  /** Insert an id behind the ids that are at least as long: longest first, stable. */
  function InsertByLength(sorted: seq<string>, id: string): seq<string> {
    if sorted == [] || |sorted[0]| < |id| then [id] + sorted
    else [sorted[0]] + InsertByLength(sorted[1..], id)
  }

  function LongestFirst(components: seq<Field>): seq<string> {
    if components == [] then []
    else InsertByLength(LongestFirst(components[..|components| - 1]), components[|components| - 1].key)
  }

  function ReplaceIds(ids: map<string, string>, order: seq<string>, s: string): string {
    if order == [] then s
    else ReplaceIds(ids, order[1..], ReplaceAll(s, order[0], Rename(ids, order[0])))
  }

  function MigrateEdge(ids: map<string, string>, order: seq<string>, edge: Json): Json {
    match edge
    case Obj(fields) =>
      var f1 := UpdateStr(fields, "source", id => Rename(ids, id));
      var f2 := UpdateStr(f1, "target", id => Rename(ids, id));
      Obj(UpdateStr(f2, "id", id => ReplaceIds(ids, order, id)))
    case _ => edge
  }

  function MigrateEdges(ids: map<string, string>, order: seq<string>, edges: seq<Json>): seq<Json> {
    if edges == [] then [] else [MigrateEdge(ids, order, edges[0])] + MigrateEdges(ids, order, edges[1..])
  }

  function MigrateGraph(ids: map<string, string>, order: seq<string>, graph: seq<Field>): seq<Field> {
    var g := match Get(graph, "nodes")
             case Some(Arr(nodes)) => Put(graph, "nodes", Arr(MigrateNodes(ids, nodes)))
             case _ => graph;
    match Get(g, "edges")
    case Some(Arr(edges)) => Put(g, "edges", Arr(MigrateEdges(ids, order, edges)))
    case _ => g
  }

  // ----- The whole document -------------------------------------------------------------------

  function RewriteField(ids: map<string, string>, fields: seq<Field>, key: string): seq<Field> {
    match Get(fields, key)
    case None => fields
    case Some(v) => Put(fields, key, RewriteValue(ids, v))
  }

  function Normalize(dsl: Json): Json {
    if !dsl.Obj? then dsl
    else match Get(dsl.fields, "components")
      case Some(Obj(components)) =>
        var ids := IdMap(components);
        var d1 := Put(dsl.fields, "components", Obj(MigrateComponents(ids, components)));
        var d2 := UpdateList(ids, d1, "path");
        var d3 := match Get(d2, "graph")
                  case Some(Obj(graph)) => Put(d2, "graph", Obj(MigrateGraph(ids, LongestFirst(components), graph)))
                  case _ => d2;
        var d4 := RewriteField(ids, d3, "history");
        var d5 := RewriteField(ids, d4, "messages");
        Obj(RewriteField(ids, d5, "reference"))
      case _ => dsl
  }

  // ----- Under an identity map nothing is rewritten ---------------------------------------------------

  ghost predicate Identity(ids: map<string, string>) {
    forall id :: id in ids ==> ids[id] == id
  }

  lemma WithOwnId(s: string, m: Span)
    requires m.Total() <= |s|
    ensures WithId(s, m, s[m.open..m.open + m.id], s[m.Total()..]) == s
  {
  }

  lemma MatchStays(ids: map<string, string>, s: string, m: Span)
    requires Identity(ids) && s != "" && Match(s) == Some(m) && m.Total() <= |s|
    requires Substitute(ids, s[m.Total()..]) == s[m.Total()..]
    ensures Substitute(ids, s) == s
  {
    SubstituteIsWithId(ids, s);
    WithOwnId(s, m);
  }

  lemma {:induction false} SubstituteIdentity(ids: map<string, string>, s: string)
    requires Identity(ids)
    ensures Substitute(ids, s) == s
    decreases |s|
  {
    if s != "" {
      if Match(s).None? {
        SubstituteIdentity(ids, s[1..]);
        assert s == [s[0]] + s[1..];
      } else {
        MatchFits(s);
        SubstituteIdentity(ids, s[Match(s).value.Total()..]);
        MatchStays(ids, s, Match(s).value);
      }
    }
  }

  lemma {:induction false} RewriteIdentity(ids: map<string, string>, v: Json)
    requires Identity(ids)
    ensures RewriteValue(ids, v) == v
    decreases v, 1
  {
    match v
    case Str(s) => SubstituteIdentity(ids, s);
    case Arr(items) => RewriteItemsIdentity(ids, items);
    case Obj(fields) => RewriteFieldsIdentity(ids, fields);
    case Atom(_) =>
  }

  lemma {:induction false} RewriteItemsIdentity(ids: map<string, string>, items: seq<Json>)
    requires Identity(ids)
    ensures RewriteItems(ids, items) == items
    decreases items, 0
  {
    if items != [] {
      RewriteIdentity(ids, items[0]);
      RewriteItemsIdentity(ids, items[1..]);
    }
  }

  lemma {:induction false} RewriteFieldsIdentity(ids: map<string, string>, fields: seq<Field>)
    requires Identity(ids)
    ensures RewriteFields(ids, fields) == fields
    decreases fields, 0
  {
    if fields != [] {
      RewriteIdentity(ids, fields[0].value);
      RewriteFieldsIdentity(ids, fields[1..]);
    }
  }

  lemma {:induction false} RenameItemsIdentity(ids: map<string, string>, items: seq<Json>)
    requires Identity(ids)
    ensures RenameItems(ids, items) == items
  {
    if items != [] {
      RenameItemsIdentity(ids, items[1..]);
    }
  }

  lemma UpdateStrSame(fields: seq<Field>, key: string, f: string -> string)
    requires Get(fields, key).Some? && Get(fields, key).value.Str? ==>
               f(Get(fields, key).value.s) == Get(fields, key).value.s
    ensures UpdateStr(fields, key, f) == fields
  {
    if Get(fields, key).Some? && Get(fields, key).value.Str? {
      PutSame(fields, key, Get(fields, key).value);
    }
  }

  lemma UpdateListSame(ids: map<string, string>, fields: seq<Field>, key: string)
    requires Identity(ids)
    ensures UpdateList(ids, fields, key) == fields
  {
    match Get(fields, key)
    case Some(Arr(items)) =>
      RenameItemsIdentity(ids, items);
      PutSame(fields, key, Arr(items));
    case _ =>
  }
}
