/** The migration as it runs, and what it does to the workflow graph. */
module MigrationGraph {
  import opened Wrappers
  import opened VariableRefs
  import opened Documents
  import opened Migration
  import Idem = MigrationIdempotence

  // ----- The migration, in place -------------------------------------------------

  method BuildIdMap(components: seq<Field>) returns (ids: map<string, string>)
    ensures ids == IdMap(components)
  {
    ids := map[];
    for i := 0 to |components|
      invariant ids == IdMap(components[..i])
    {
      ids := ids[components[i].key := NewId(components[i].key)];
      assert Keys(components[..i + 1]) == Keys(components[..i]) + {components[i].key} by {
        assert components[..i + 1] == components[..i] + [components[i]];
      }
    }
    assert components[..|components|] == components;
  }

  method RewriteComponents(ids: map<string, string>, components: seq<Field>) returns (rewritten: seq<Field>)
    ensures rewritten == MigrateComponents(ids, components)
  {
    rewritten := [];
    for i := 0 to |components|
      invariant rewritten == MigrateComponents(ids, components[..i])
    {
      assert components[..i + 1][..i] == components[..i];
      rewritten := Put(rewritten, Rename(ids, components[i].key), MigrateComponent(ids, components[i].value));
    }
    assert components[..|components|] == components;
  }

  lemma {:induction false} MigrateNodesAt(ids: map<string, string>, nodes: seq<Json>, i: nat)
    requires i < |nodes|
    ensures |MigrateNodes(ids, nodes)| == |nodes| && MigrateNodes(ids, nodes)[i] == MigrateNode(ids, nodes[i])
  {
    if i > 0 {
      MigrateNodesAt(ids, nodes[1..], i - 1);
    } else if |nodes| > 1 {
      MigrateNodesAt(ids, nodes[1..], 0);
    }
  }

  lemma {:induction false} MigrateEdgesAt(ids: map<string, string>, order: seq<string>, edges: seq<Json>, i: nat)
    requires i < |edges|
    ensures |MigrateEdges(ids, order, edges)| == |edges|
    ensures MigrateEdges(ids, order, edges)[i] == MigrateEdge(ids, order, edges[i])
  {
    if i > 0 {
      MigrateEdgesAt(ids, order, edges[1..], i - 1);
    } else if |edges| > 1 {
      MigrateEdgesAt(ids, order, edges[1..], 0);
    }
  }

  method RewriteNodes(ids: map<string, string>, nodes: array<Json>)
    modifies nodes
    ensures nodes[..] == MigrateNodes(ids, old(nodes[..]))
  {
    ghost var was := nodes[..];
    for i := 0 to nodes.Length
      invariant forall k :: 0 <= k < i ==> nodes[k] == MigrateNode(ids, was[k])
      invariant forall k :: i <= k < nodes.Length ==> nodes[k] == was[k]
    {
      nodes[i] := MigrateNode(ids, nodes[i]);
    }
    forall k | 0 <= k < |was| ensures |MigrateNodes(ids, was)| == |was| && nodes[k] == MigrateNodes(ids, was)[k] {
      MigrateNodesAt(ids, was, k);
    }
    assert was == [] ==> MigrateNodes(ids, was) == [];
  }

  method RewriteEdges(ids: map<string, string>, order: seq<string>, edges: array<Json>)
    modifies edges
    ensures edges[..] == MigrateEdges(ids, order, old(edges[..]))
  {
    ghost var was := edges[..];
    for i := 0 to edges.Length
      invariant forall k :: 0 <= k < i ==> edges[k] == MigrateEdge(ids, order, was[k])
      invariant forall k :: i <= k < edges.Length ==> edges[k] == was[k]
    {
      edges[i] := MigrateEdge(ids, order, edges[i]);
    }
    forall k | 0 <= k < |was|
      ensures |MigrateEdges(ids, order, was)| == |was| && edges[k] == MigrateEdges(ids, order, was)[k]
    {
      MigrateEdgesAt(ids, order, was, k);
    }
    assert was == [] ==> MigrateEdges(ids, order, was) == [];
  }

  /** A copy of a workflow document, rewritten field by field. */
  class Workflow {
    var fields: seq<Field>

    constructor (fields: seq<Field>)
      ensures this.fields == fields
    {
      this.fields := fields;
    }

    method RewriteGraph(ids: map<string, string>, order: seq<string>, given: seq<Field>) returns (graph: seq<Field>)
      ensures graph == MigrateGraph(ids, order, given)
    {
      graph := given;
      match Get(graph, "nodes") {
        case Some(Arr(items)) => {
          var nodes := new Json[|items|](i requires 0 <= i < |items| => items[i]);
          assert nodes[..] == items;
          RewriteNodes(ids, nodes);
          graph := Put(graph, "nodes", Arr(nodes[..]));
        }
        case _ =>
      }
      match Get(graph, "edges") {
        case Some(Arr(items)) => {
          var edges := new Json[|items|](i requires 0 <= i < |items| => items[i]);
          assert edges[..] == items;
          RewriteEdges(ids, order, edges);
          graph := Put(graph, "edges", Arr(edges[..]));
        }
        case _ =>
      }
    }

    /** The document becomes its migrated form. */
    method Migrate()
      modifies this
      ensures Obj(fields) == Normalize(Obj(old(fields)))
    {
      var components := Get(fields, "components");
      if components.None? || !components.value.Obj? {
        return;
      }
      var ids := BuildIdMap(components.value.fields);
      var rewritten := RewriteComponents(ids, components.value.fields);
      fields := Put(fields, "components", Obj(rewritten));
      fields := UpdateList(ids, fields, "path");
      match Get(fields, "graph") {
        case Some(Obj(given)) => {
          var graph := RewriteGraph(ids, LongestFirst(components.value.fields), given);
          fields := Put(fields, "graph", Obj(graph));
        }
        case _ =>
      }
      fields := RewriteField(ids, fields, "history");
      fields := RewriteField(ids, fields, "messages");
      fields := RewriteField(ids, fields, "reference");
    }
  }

  // ----- References -----------------------------------------------------------------

  lemma NewIdKeepsShape(id: string)
    requires IsIdText(id)
    ensures IsIdText(NewId(id))
  {
    var n := NewId(id);
    if n != id {
      var prefix := if "Splitter:" <= id then "TokenChunker:"
                    else if "HierarchicalMerger:" <= id then "TitleChunker:" else "DocGenerator:";
      assert forall i :: 0 <= i < |prefix| ==> IsIdChar(prefix[i]);
    }
  }

  /** In every migrated text that is not itself a component id, the references are
      those of the original, in order, with the new ids, and everything outside the
      ids is as it was. */
  lemma ReferencesAreMigrated(components: seq<Field>, text: string)
    requires text !in Keys(components)
    ensures var ids := IdMap(components);
            Scan(RewriteText(ids, text)) == RenameTokens(ids, Scan(text))
  {
    var ids := IdMap(components);
    forall id | id in ids && IsIdText(id) ensures IsIdText(ids[id]) {
      NewIdKeepsShape(id);
    }
    RewritingCommutesWithScanning(ids, text);
  }

  // ----- No component is lost unless new ids collide ----------------------------------

  ghost predicate Injective(components: seq<Field>) {
    forall i, j :: 0 <= i < j < |components| ==> NewId(components[i].key) != NewId(components[j].key)
  }

  function Migrated(ids: map<string, string>, components: seq<Field>): seq<Field> {
    if components == [] then []
    else [Field(NewId(components[0].key), MigrateComponent(ids, components[0].value))] + Migrated(ids, components[1..])
  }

  lemma {:induction false} PutLength(fields: seq<Field>, key: string, value: Json)
    ensures |Put(fields, key, value)| == |fields| + (if key in Keys(fields) then 0 else 1)
    ensures Keys(Put(fields, key, value)) == Keys(fields) + {key}
  {
    if fields != [] {
      assert Keys(fields) == {fields[0].key} + Keys(fields[1..]) by {
        assert fields == [fields[0]] + fields[1..];
      }
      if fields[0].key != key {
        PutLength(fields[1..], key, value);
        var rest := Put(fields[1..], key, value);
        assert Keys([fields[0]] + rest) == {fields[0].key} + Keys(rest);
      } else {
        assert Keys([Field(key, value)] + fields[1..]) == {key} + Keys(fields[1..]);
      }
    }
  }

  function NewIds(components: seq<Field>): set<string> {
    set f | f in components :: NewId(f.key)
  }

  lemma OneMoreId(before: seq<Field>, last: Field)
    ensures NewIds(before + [last]) == NewIds(before) + {NewId(last.key)}
  {
    assert forall f :: f in before + [last] <==> f in before || f == last;
  }

  lemma OneMorePut(out: seq<Field>, before: seq<Field>, last: Field, value: Json)
    requires |out| <= |before| && Keys(out) == NewIds(before)
    ensures var r := Put(out, NewId(last.key), value);
            |r| <= |before + [last]| && Keys(r) == NewIds(before + [last])
  {
    PutLength(out, NewId(last.key), value);
    OneMoreId(before, last);
  }

  predicate GivesNewIds(ids: map<string, string>, components: seq<Field>) {
    forall f :: f in components ==> f.key in ids && ids[f.key] == NewId(f.key)
  }

  lemma {:induction false} MigratedKeys(ids: map<string, string>, components: seq<Field>)
    requires GivesNewIds(ids, components)
    ensures |MigrateComponents(ids, components)| <= |components|
    ensures Keys(MigrateComponents(ids, components)) == NewIds(components)
  {
    if components != [] {
      var last, before := components[|components| - 1], components[..|components| - 1];
      assert last in components && GivesNewIds(ids, before);
      assert components == before + [last];
      MigratedKeys(ids, before);
      OneMorePut(MigrateComponents(ids, before), before, last, MigrateComponent(ids, last.value));
    }
  }

  /** The migrated dictionary has as many components as the original if and only if
      no two new ids collide. */
  lemma {:induction false} NothingLostIffInjective(ids: map<string, string>, components: seq<Field>)
    requires forall f :: f in components ==> f.key in ids && ids[f.key] == NewId(f.key)
    ensures |MigrateComponents(ids, components)| == |components| <==> Injective(components)
  {
    if components != [] {
      var last, before := components[|components| - 1], components[..|components| - 1];
      assert components == before + [last];
      NothingLostIffInjective(ids, before);
      MigratedKeys(ids, before);
      var done := MigrateComponents(ids, before);
      PutLength(done, NewId(last.key), MigrateComponent(ids, last.value));
      assert NewId(last.key) in Keys(done) <==> exists f :: f in before && NewId(f.key) == NewId(last.key);
      InjectiveSnoc(before, last);
    }
  }

  lemma InjectiveSnoc(before: seq<Field>, last: Field)
    ensures Injective(before + [last]) <==>
            Injective(before) && !exists f :: f in before && NewId(f.key) == NewId(last.key)
  {
    var all := before + [last];
    assert forall i :: 0 <= i < |before| ==> all[i] == before[i];
    if Injective(all) {
      forall f | f in before ensures NewId(f.key) != NewId(last.key) {
        var i :| 0 <= i < |before| && before[i] == f;
        assert all[i] == f && all[|before|] == last;
      }
    }
  }

  /** Two chunkers, one legacy and one current, with the same suffix: one is lost. */
  lemma CollidingIdsLoseAComponent(legacy: Json, current: Json)
    ensures var components := [Field("Splitter:0", legacy), Field("TokenChunker:0", current)];
            MigrateComponents(IdMap(components), components) ==
            [Field("TokenChunker:0", MigrateComponent(IdMap(components), current))]
  {
    var components := [Field("Splitter:0", legacy), Field("TokenChunker:0", current)];
    var ids := IdMap(components);
    assert components[0] in components && components[1] in components;
    assert NewId("Splitter:0") == "TokenChunker:0" by {
      assert "Splitter:0"[9..] == "0";
    }
    assert NewId("TokenChunker:0") == "TokenChunker:0" by {
      assert "TokenChunker:0"[0] == 'T';
    }
    var one := components[..1];
    assert one == [components[0]] && one[..0] == [];
    assert MigrateComponents(ids, one) == [Field("TokenChunker:0", MigrateComponent(ids, legacy))];
    assert MigrateComponents(ids, components) ==
           Put(MigrateComponents(ids, one), "TokenChunker:0", MigrateComponent(ids, current));
  }

  // ----- The links between components ---------------------------------------------------

  lemma PutNew(fields: seq<Field>, key: string, value: Json)
    requires key !in Keys(fields)
    ensures Put(fields, key, value) == fields + [Field(key, value)]
  {
    forall i | 0 <= i < |fields| ensures fields[i].key != key {
      assert fields[i].key in Keys(fields);
    }
    Idem.PutFresh(fields, key, value);
  }

  lemma {:induction false} InjectiveInOrder(ids: map<string, string>, components: seq<Field>)
    requires forall f :: f in components ==> f.key in ids && ids[f.key] == NewId(f.key)
    requires Injective(components)
    ensures MigrateComponents(ids, components) == Migrated(ids, components)
  {
    if components != [] {
      var last, before := components[|components| - 1], components[..|components| - 1];
      assert components == before + [last];
      InjectiveSnoc(before, last);
      InjectiveInOrder(ids, before);
      MigratedKeys(ids, before);
      PutNew(MigrateComponents(ids, before), NewId(last.key), MigrateComponent(ids, last.value));
      MigratedSnoc(ids, before, last);
    }
  }

  lemma {:induction false} MigratedSnoc(ids: map<string, string>, before: seq<Field>, last: Field)
    ensures Migrated(ids, before + [last]) ==
            Migrated(ids, before) + [Field(NewId(last.key), MigrateComponent(ids, last.value))]
  {
    if before != [] {
      assert (before + [last])[1..] == before[1..] + [last];
      MigratedSnoc(ids, before[1..], last);
    } else {
      assert [last][1..] == [];
    }
  }

  lemma {:induction false} MigratedAt(ids: map<string, string>, components: seq<Field>, i: nat)
    requires i < |components|
    ensures |Migrated(ids, components)| == |components|
    ensures Migrated(ids, components)[i] == Field(NewId(components[i].key), MigrateComponent(ids, components[i].value))
  {
    if i > 0 {
      MigratedAt(ids, components[1..], i - 1);
    } else if |components| > 1 {
      MigratedAt(ids, components[1..], 0);
    }
  }

  function Rewritten(ids: map<string, string>, v: Option<Json>): Option<Json> {
    if v.None? then None else Some(RewriteValue(ids, v.value))
  }

  function RenamedStr(ids: map<string, string>, v: Option<Json>): Option<Json> {
    if v.Some? && v.value.Str? then Some(Str(Rename(ids, v.value.s))) else v
  }

  lemma {:induction false} GetRewritten(ids: map<string, string>, fields: seq<Field>, key: string)
    ensures Get(RewriteFields(ids, fields), key) == Rewritten(ids, Get(fields, key))
  {
    if fields != [] && fields[0].key != key {
      GetRewritten(ids, fields[1..], key);
    }
  }

  predicate IsLinkKey(key: string) {
    key == "downstream" || key == "upstream"
  }

  /** A link list is rewritten as a value first and as a list of ids again. */
  lemma LinksRewritten(ids: map<string, string>, c: Json, key: string)
    requires c.Obj? && IsLinkKey(key)
    ensures MigrateComponent(ids, c).Obj?
    ensures Get(MigrateComponent(ids, c).fields, key) == Idem.RenamedList(ids, Rewritten(ids, Get(c.fields, key)))
  {
    Idem.KeysDiffer();
    assert "downstream"[0] == 'd' && "upstream"[0] == 'u' && "parent_id"[0] == 'p';
    var f := RewriteFields(ids, c.fields);
    GetRewritten(ids, c.fields, key);
    var f0 := RenameObject(f);
    match Get(f, "obj") {
      case Some(Obj(o)) => GetPut(f, "obj", Obj(Put(o, "component_name", NameOf(o))), key);
      case _ =>
    }
    var f1 := UpdateList(ids, f0, "downstream");
    var f2 := UpdateList(ids, f1, "upstream");
    Idem.UpdateListAt(ids, f0, "downstream", key);
    Idem.UpdateListAt(ids, f1, "upstream", key);
    Idem.UpdateStrOther(f2, "parent_id", id => Rename(ids, id), key);
  }

  /** Component `a` has a link to `b`. */
  ghost predicate Linked(components: seq<Field>, key: string, a: string, b: string) {
    exists i :: 0 <= i < |components| && components[i].key == a && HasLink(components[i].value, key, b)
  }

  ghost predicate HasLink(c: Json, key: string, b: string) {
    c.Obj? && Get(c.fields, key).Some? && Get(c.fields, key).value.Arr? && Str(b) in Get(c.fields, key).value.items
  }

  // ----- The path and the edges ---------------------------------------------------------

  /** The saved path and the end points of the edges are renamed one for one. */
  lemma {:induction false} PathRenamed(ids: map<string, string>, items: seq<Json>, i: nat)
    requires i < |items|
    ensures |RenameItems(ids, items)| == |items|
    ensures RenameItems(ids, items)[i] == if items[i].Str? then Str(Rename(ids, items[i].s)) else items[i]
  {
    if i > 0 {
      PathRenamed(ids, items[1..], i - 1);
    } else if |items| > 1 {
      PathRenamed(ids, items[1..], 0);
    }
  }

  lemma EdgeEndsRenamed(ids: map<string, string>, order: seq<string>, fields: seq<Field>, key: string)
    requires key == "source" || key == "target"
    ensures var edge := MigrateEdge(ids, order, Obj(fields));
            && edge.Obj?
            && Get(edge.fields, key) == RenamedStr(ids, Get(fields, key))
  {
    assert "source"[0] == 's' && "target"[0] == 't' && "id"[0] == 'i';
    var f1 := UpdateStr(fields, "source", id => Rename(ids, id));
    var f2 := UpdateStr(f1, "target", id => Rename(ids, id));
    Idem.UpdateStrOther(fields, "source", id => Rename(ids, id), key);
    Idem.UpdateStrOther(f1, "target", id => Rename(ids, id), key);
    Idem.UpdateStrOther(f2, "id", id => ReplaceIds(ids, order, id), key);
  }
}
