/** What becomes of each field of a migrated document. */
module MigrationFields {
  import opened Wrappers
  import opened VariableRefs
  import opened Documents
  import opened Migration
  import opened MigrationIdempotence
  import opened MigrationGraph
  import opened MigrationIsomorphism

  // ----- The legacy names --------------------------------------------------------------

  /** A legacy id gets a new prefix, every other id stays. */
  lemma LegacyIds(rest: string)
    ensures NewId("Splitter:" + rest) == "TokenChunker:" + rest
    ensures NewId("HierarchicalMerger:" + rest) == "TitleChunker:" + rest
    ensures NewId("PDFGenerator:" + rest) == "DocGenerator:" + rest
    ensures !("Splitter:" <= rest) && !("HierarchicalMerger:" <= rest) && !("PDFGenerator:" <= rest) ==> NewId(rest) == rest
  {
    var s, h, p := "Splitter:" + rest, "HierarchicalMerger:" + rest, "PDFGenerator:" + rest;
    assert s[9..] == rest && h[19..] == rest && p[13..] == rest;
    assert s[0] == 'S' && h[0] == 'H' && p[0] == 'P';
  }

  /** Three legacy names are replaced, every other name stays. */
  lemma LegacyNames(name: string)
    ensures NewName("Splitter") == "TokenChunker" && NewName("HierarchicalMerger") == "TitleChunker"
    ensures NewName("PDFGenerator") == "DocGenerator"
    ensures name != "Splitter" && name != "HierarchicalMerger" && name != "PDFGenerator" ==> NewName(name) == name
    ensures NewNodeType("splitterNode") == "chunkerNode" && (name != "splitterNode" ==> NewNodeType(name) == name)
  {
    var s, h, p := "Splitter", "HierarchicalMerger", "PDFGenerator";
    assert s[0] == 'S' && h[0] == 'H' && p[0] == 'P';
  }

  // ----- Rewritten values ------------------------------------------------------------------

  /** A place in a document: items by position, fields by position too, since keys stay. */
  function At(v: Json, place: seq<nat>): Option<Json>
    decreases |place|
  {
    if place == [] then Some(v)
    else
      match v
      case Arr(items) => if place[0] < |items| then At(items[place[0]], place[1..]) else None
      case Obj(fields) => if place[0] < |fields| then At(fields[place[0]].value, place[1..]) else None
      case _ => None
  }

  /** The two values are alike but for what the strings say. */
  predicate SameShape(v: Json, u: Json) {
    match (v, u)
    case (Str(_), Str(_)) => true
    case (Arr(a), Arr(b)) => |a| == |b|
    case (Obj(a), Obj(b)) => |a| == |b| && forall i :: 0 <= i < |a| ==> a[i].key == b[i].key
    case (Atom(a), Atom(b)) => a == b
    case _ => false
  }

  lemma {:induction false} RewriteFieldsAt(ids: map<string, string>, fields: seq<Field>, i: nat)
    requires i < |fields|
    ensures |RewriteFields(ids, fields)| == |fields|
    ensures RewriteFields(ids, fields)[i] == Field(fields[i].key, RewriteValue(ids, fields[i].value))
  {
    if i > 0 {
      RewriteFieldsAt(ids, fields[1..], i - 1);
    } else if |fields| > 1 {
      RewriteFieldsAt(ids, fields[1..], 0);
    }
  }

  lemma RewrittenShape(ids: map<string, string>, v: Json)
    ensures SameShape(v, RewriteValue(ids, v))
  {
    match v {
      case Arr(items) => if items != [] { RewriteItemsAt(ids, items, 0); }
      case Obj(fields) => {
        forall i | 0 <= i < |fields|
          ensures |RewriteFields(ids, fields)| == |fields| && RewriteFields(ids, fields)[i].key == fields[i].key
        {
          RewriteFieldsAt(ids, fields, i);
        }
      }
      case _ =>
    }
  }

  /** Rewriting a value rewrites the string at every place and changes nothing else. */
  lemma {:induction false} RewritesEveryString(ids: map<string, string>, v: Json, place: seq<nat>)
    ensures At(RewriteValue(ids, v), place).Some? <==> At(v, place).Some?
    ensures At(v, place).Some? ==>
              var was, now := At(v, place).value, At(RewriteValue(ids, v), place).value;
              SameShape(was, now) && (was.Str? ==> now.s == if was.s in ids then ids[was.s] else Substitute(ids, was.s))
    decreases |place|
  {
    RewrittenShape(ids, v);
    if place != [] {
      match v {
        case Arr(items) => if place[0] < |items| {
          RewriteItemsAt(ids, items, place[0]);
          RewritesEveryString(ids, items[place[0]], place[1..]);
        }
        case Obj(fields) => if place[0] < |fields| {
          RewriteFieldsAt(ids, fields, place[0]);
          RewritesEveryString(ids, fields[place[0]].value, place[1..]);
        }
        case _ =>
      }
    }
  }

  // ----- Nodes ---------------------------------------------------------------------------------

  /** A string is replaced, any other value stays. */
  function IfString(v: Option<Json>, f: string -> string): Option<Json> {
    match v
    case Some(Str(s)) => Some(Str(f(s)))
    case _ => v
  }

  function IfList(v: Option<Json>, f: seq<Json> -> seq<Json>): Option<Json> {
    match v
    case Some(Arr(items)) => Some(Arr(f(items)))
    case _ => v
  }

  function IfObject(v: Option<Json>, f: seq<Field> -> seq<Field>): Option<Json> {
    match v
    case Some(Obj(fields)) => Some(Obj(f(fields)))
    case _ => v
  }

  function IfPresent(v: Option<Json>, f: Json -> Json): Option<Json> {
    match v
    case Some(u) => Some(f(u))
    case None => None
  }

  /** The id map, on ids it does not know the identity. */
  function Renaming(ids: map<string, string>): string -> string {
    id => if id in ids then ids[id] else id
  }

  lemma UpdateStrReads(fields: seq<Field>, key: string, f: string -> string, other: string)
    ensures Get(UpdateStr(fields, key, f), other) ==
            if other == key then IfString(Get(fields, key), f) else Get(fields, other)
  {
    if Get(fields, key).Some? && Get(fields, key).value.Str? {
      GetPut(fields, key, Str(f(Get(fields, key).value.s)), other);
    }
  }

  lemma NodeKeysDiffer()
    ensures "id" != "parentId" && "id" != "type" && "id" != "data" && "parentId" != "type" && "parentId" != "data"
    ensures "type" != "data" && "label" != "name" && "label" != "form" && "name" != "form"
  {
    assert "id"[0] == 'i' && "parentId"[0] == 'p' && "type"[0] == 't' && "data"[0] == 'd';
    assert "label"[0] == 'l' && "name"[0] == 'n' && "form"[0] == 'f';
  }

  /** A node: its id and its parent's are renamed, a splitter node becomes a chunker node, its data are migrated,
      and nothing else changes. */
  lemma NodeReads(ids: map<string, string>, fields: seq<Field>, key: string)
    ensures MigrateNode(ids, Obj(fields)).Obj?
    ensures Get(MigrateNode(ids, Obj(fields)).fields, key) ==
            if key == "id" || key == "parentId" then IfString(Get(fields, key), Renaming(ids))
            else if key == "type" then IfString(Get(fields, key), t => if t == "splitterNode" then "chunkerNode" else t)
            else if key == "data" then IfObject(Get(fields, key), data => MigrateData(ids, data))
            else Get(fields, key)
  {
    NodeKeysDiffer();
    var f1 := UpdateStr(fields, "id", id => Rename(ids, id));
    var f2 := UpdateStr(f1, "parentId", id => Rename(ids, id));
    var f3 := UpdateStr(f2, "type", NewNodeType);
    forall k ensures Get(f3, k) ==
      if k == "id" || k == "parentId" then IfString(Get(fields, k), Renaming(ids))
      else if k == "type" then IfString(Get(fields, k), t => if t == "splitterNode" then "chunkerNode" else t)
      else Get(fields, k)
    {
      UpdateStrReads(fields, "id", id => Rename(ids, id), k);
      UpdateStrReads(f1, "parentId", id => Rename(ids, id), k);
      UpdateStrReads(f2, "type", NewNodeType, k);
    }
    match Get(f3, "data") {
      case Some(Obj(data)) => GetPut(f3, "data", Obj(MigrateData(ids, data)), key);
      case _ =>
    }
  }

  /** A node's data: its label and name get the new names, the texts of its form are rewritten, and nothing else
      changes. */
  lemma DataReads(ids: map<string, string>, data: seq<Field>, key: string)
    ensures Get(MigrateData(ids, data), key) ==
            if key == "label" || key == "name" then IfString(Get(data, key), NewName)
            else if key == "form" then IfPresent(Get(data, key), v => RewriteValue(ids, v))
            else Get(data, key)
  {
    NodeKeysDiffer();
    var d1 := UpdateStr(data, "label", NewName);
    var d := UpdateStr(d1, "name", NewName);
    forall k ensures Get(d, k) == if k == "label" || k == "name" then IfString(Get(data, k), NewName) else Get(data, k) {
      UpdateStrReads(data, "label", NewName, k);
      UpdateStrReads(d1, "name", NewName, k);
    }
    match Get(d, "form") {
      case Some(form) => GetPut(d, "form", RewriteValue(ids, form), key);
      case None =>
    }
  }

  // ----- Components ------------------------------------------------------------------------------

  function RenamedAll(ids: map<string, string>, items: seq<Json>): (r: seq<Json>)
    ensures |r| == |items|
    ensures forall i :: 0 <= i < |items| ==>
              r[i] == if items[i].Str? then Str(if items[i].s in ids then ids[items[i].s] else items[i].s) else items[i]
  {
    seq(|items|, i requires 0 <= i < |items| =>
      if items[i].Str? then Str(if items[i].s in ids then ids[items[i].s] else items[i].s) else items[i])
  }

  lemma RenameItemsAre(ids: map<string, string>, items: seq<Json>)
    ensures RenameItems(ids, items) == RenamedAll(ids, items)
  {
    if items != [] {
      PathRenamed(ids, items, 0);
      forall i | 0 <= i < |items| ensures RenameItems(ids, items)[i] == RenamedAll(ids, items)[i] {
        PathRenamed(ids, items, i);
      }
    }
  }

  /** The object of a component gets the new name; one without a name gets null. */
  function WithNewName(o: seq<Field>): seq<Field> {
    Put(o, "component_name", NewNameOf(Get(o, "component_name")))
  }

  function NewNameOf(v: Option<Json>): Json {
    if v.None? then NULL else if v.value.Str? then Str(NewName(v.value.s)) else v.value
  }

  lemma ComponentKeysDiffer()
    ensures "obj" != "downstream" && "obj" != "upstream" && "obj" != "parent_id"
    ensures "downstream" != "upstream" && "downstream" != "parent_id" && "upstream" != "parent_id"
  {
    assert "obj"[0] == 'o' && "downstream"[0] == 'd' && "upstream"[0] == 'u' && "parent_id"[0] == 'p';
  }

  lemma UpdateListReads(ids: map<string, string>, fields: seq<Field>, key: string, other: string)
    ensures Get(UpdateList(ids, fields, key), other) ==
            if other == key then IfList(Get(fields, key), items => RenamedAll(ids, items)) else Get(fields, other)
  {
    match Get(fields, key) {
      case Some(Arr(items)) => {
        RenameItemsAre(ids, items);
        GetPut(fields, key, Arr(RenameItems(ids, items)), other);
      }
      case _ =>
    }
  }

  lemma RenameObjectReads(fields: seq<Field>, key: string)
    ensures Get(RenameObject(fields), key) ==
            if key == "obj" then IfObject(Get(fields, "obj"), o => WithNewName(o)) else Get(fields, key)
  {
    match Get(fields, "obj") {
      case Some(Obj(o)) => GetPut(fields, "obj", Obj(Put(o, "component_name", NameOf(o))), key);
      case _ =>
    }
  }

  /** A component: all of its texts are rewritten; then its object gets the new name, its links are renamed, and
      its parent's id is. */
  lemma ComponentReads(ids: map<string, string>, fields: seq<Field>, key: string)
    ensures MigrateComponent(ids, Obj(fields)).Obj?
    ensures var was := IfPresent(Get(fields, key), v => RewriteValue(ids, v));
            Get(MigrateComponent(ids, Obj(fields)).fields, key) ==
            if key == "obj" then IfObject(was, o => WithNewName(o))
            else if key == "downstream" || key == "upstream" then IfList(was, items => RenamedAll(ids, items))
            else if key == "parent_id" then IfString(was, Renaming(ids))
            else was
  {
    ComponentKeysDiffer();
    var r := RewriteFields(ids, fields);
    var f0 := RenameObject(r);
    var f1 := UpdateList(ids, f0, "downstream");
    var f2 := UpdateList(ids, f1, "upstream");
    GetRewritten(ids, fields, key);
    RenameObjectReads(r, key);
    UpdateListReads(ids, f0, "downstream", key);
    UpdateListReads(ids, f1, "upstream", key);
    UpdateStrReads(f2, "parent_id", id => Rename(ids, id), key);
  }

  // ----- Edges ---------------------------------------------------------------------------------------

  /** An edge: its ends are renamed, in its id every component id is replaced, and nothing else changes. */
  lemma EdgeReads(ids: map<string, string>, order: seq<string>, fields: seq<Field>, key: string)
    ensures MigrateEdge(ids, order, Obj(fields)).Obj?
    ensures Get(MigrateEdge(ids, order, Obj(fields)).fields, key) ==
            if key == "source" || key == "target" then IfString(Get(fields, key), Renaming(ids))
            else if key == "id" then IfString(Get(fields, key), s => ReplaceIds(ids, order, s))
            else Get(fields, key)
  {
    assert "source" != "target" && "source" != "id" && "target" != "id" by {
      assert "source"[0] == 's' && "target"[0] == 't' && "id"[0] == 'i';
    }
    var f1 := UpdateStr(fields, "source", id => Rename(ids, id));
    var f2 := UpdateStr(f1, "target", id => Rename(ids, id));
    UpdateStrReads(fields, "source", id => Rename(ids, id), key);
    UpdateStrReads(f1, "target", id => Rename(ids, id), key);
    UpdateStrReads(f2, "id", id => ReplaceIds(ids, order, id), key);
  }

  predicate Precedes(a: string, b: string) {
    |a| >= |b|
  }

  predicate IsSorted(ids: seq<string>) {
    forall i, j :: 0 <= i < j < |ids| ==> Precedes(ids[i], ids[j])
  }

  lemma {:induction false} InsertSorts(sorted: seq<string>, id: string)
    requires IsSorted(sorted)
    ensures IsSorted(InsertByLength(sorted, id))
    ensures multiset(InsertByLength(sorted, id)) == multiset(sorted) + multiset{id}
  {
    if sorted == [] || |sorted[0]| < |id| {
      assert forall i :: 0 < i < |sorted| ==> Precedes(sorted[0], sorted[i]);
    } else {
      assert IsSorted(sorted[1..]);
      InsertSorts(sorted[1..], id);
      assert sorted == [sorted[0]] + sorted[1..];
      forall x | x in multiset(sorted[1..]) + multiset{id} ensures Precedes(sorted[0], x) {
        assert x == id || x in sorted[1..];
      }
      SortedBehind(sorted[0], InsertByLength(sorted[1..], id), multiset(sorted[1..]) + multiset{id});
    }
  }

  lemma SortedBehind(first: string, rest: seq<string>, ids: multiset<string>)
    requires IsSorted(rest) && multiset(rest) == ids && forall x :: x in ids ==> Precedes(first, x)
    ensures IsSorted([first] + rest)
  {
    forall j | 0 <= j < |rest| ensures Precedes(first, rest[j]) {
      assert rest[j] in multiset(rest);
    }
  }

  function KeyList(components: seq<Field>): (keys: seq<string>)
    ensures |keys| == |components| && forall i :: 0 <= i < |components| ==> keys[i] == components[i].key
  {
    seq(|components|, i requires 0 <= i < |components| => components[i].key)
  }

  /** In edge ids the component ids are replaced longest first, each of them once. */
  lemma {:induction false} LongestComeFirst(components: seq<Field>)
    ensures IsSorted(LongestFirst(components)) && multiset(LongestFirst(components)) == multiset(KeyList(components))
  {
    if components != [] {
      var before, last := components[..|components| - 1], components[|components| - 1];
      LongestComeFirst(before);
      InsertSorts(LongestFirst(before), last.key);
      assert KeyList(components) == KeyList(before) + [last.key];
    }
  }

  /** The ids of one length, in order. */
  function OfLength(ids: seq<string>, n: nat): seq<string> {
    if ids == [] then [] else (if |ids[0]| == n then [ids[0]] else []) + OfLength(ids[1..], n)
  }

  lemma {:induction false} ShorterHaveNone(ids: seq<string>, n: nat)
    requires forall i :: 0 <= i < |ids| ==> |ids[i]| < n
    ensures OfLength(ids, n) == []
  {
    if ids != [] {
      ShorterHaveNone(ids[1..], n);
    }
  }

  lemma {:induction false} InsertKeepsOrder(sorted: seq<string>, id: string, n: nat)
    requires IsSorted(sorted)
    ensures OfLength(InsertByLength(sorted, id), n) == OfLength(sorted, n) + (if |id| == n then [id] else [])
  {
    if sorted == [] || |sorted[0]| < |id| {
      assert ([id] + sorted)[1..] == sorted;
      if |id| == n {
        forall i | 0 <= i < |sorted| ensures |sorted[i]| < n {
          assert i > 0 ==> Precedes(sorted[0], sorted[i]);
        }
        ShorterHaveNone(sorted, n);
      }
    } else {
      InsertKeepsOrder(sorted[1..], id, n);
      assert InsertByLength(sorted, id)[1..] == InsertByLength(sorted[1..], id);
    }
  }

  lemma {:induction false} OfLengthSnoc(ids: seq<string>, id: string, n: nat)
    ensures OfLength(ids + [id], n) == OfLength(ids, n) + (if |id| == n then [id] else [])
  {
    if ids == [] {
      assert ids + [id] == [id];
    } else {
      assert (ids + [id])[1..] == ids[1..] + [id];
      OfLengthSnoc(ids[1..], id, n);
    }
  }

  lemma LongestIsSorted(components: seq<Field>)
    ensures IsSorted(LongestFirst(components))
  {
    LongestComeFirst(components);
  }

  lemma OneMoreKey(before: seq<Field>, last: Field, n: nat)
    ensures OfLength(KeyList(before + [last]), n) ==
            OfLength(KeyList(before), n) + (if |last.key| == n then [last.key] else [])
  {
    OfLengthSnoc(KeyList(before), last.key, n);
    assert KeyList(before + [last]) == KeyList(before) + [last.key];
  }

  /** Ids of the same length are replaced in the order of the components. */
  lemma {:induction false} EqualLengthsKeepOrder(components: seq<Field>, n: nat)
    ensures OfLength(LongestFirst(components), n) == OfLength(KeyList(components), n)
  {
    if components != [] {
      var before, last := components[..|components| - 1], components[|components| - 1];
      EqualLengthsKeepOrder(before, n);
      LongestIsSorted(before);
      InsertKeepsOrder(LongestFirst(before), last.key, n);
      OneMoreKey(before, last, n);
      assert components == before + [last];
    }
  }

  /** The texts in between, when the ids are replaced in turn. */
  predicate AreSteps(ids: map<string, string>, order: seq<string>, s: string, texts: seq<string>) {
    && |texts| == |order| + 1 && texts[0] == s
    && forall i :: 0 <= i < |order| ==> texts[i + 1] == ReplaceAll(texts[i], order[i], Rename(ids, order[i]))
  }

  lemma StepBefore(ids: map<string, string>, order: seq<string>, s: string, texts: seq<string>)
    requires order != [] && AreSteps(ids, order[1..], ReplaceAll(s, order[0], Rename(ids, order[0])), texts)
    ensures AreSteps(ids, order, s, [s] + texts)
  {
    var all := [s] + texts;
    forall i | 0 <= i < |order| ensures all[i + 1] == ReplaceAll(all[i], order[i], Rename(ids, order[i])) {
      if i > 0 {
        assert texts[i] == ReplaceAll(texts[i - 1], order[1..][i - 1], Rename(ids, order[1..][i - 1]));
      }
    }
  }

  /** Each id is replaced in the text that the replacement of the ids before it leaves. */
  lemma {:induction false} ReplacedInTurn(ids: map<string, string>, order: seq<string>, s: string) returns (texts: seq<string>)
    ensures AreSteps(ids, order, s, texts) && ReplaceIds(ids, order, s) == texts[|order|]
    decreases |order|
  {
    if order == [] {
      texts := [s];
    } else {
      var rest := ReplacedInTurn(ids, order[1..], ReplaceAll(s, order[0], Rename(ids, order[0])));
      StepBefore(ids, order, s, rest);
      texts := [s] + rest;
    }
  }

  /** Replacing one id: text in which it does not occur stays, and at its first occurrence the new id takes its
      place and the rest is replaced in turn. */
  lemma {:induction false} ReplacesFirst(a: string, was: string, now: string, rest: string)
    requires was != "" && (forall k :: 0 <= k < |a| ==> !(was <= (a + was + rest)[k..]))
    ensures ReplaceAll(a + was + rest, was, now) == a + now + ReplaceAll(rest, was, now)
    decreases |a|
  {
    var s := a + was + rest;
    if a == "" {
      assert s == was + rest && s[|was|..] == rest;
      assert a + now == now;
    } else {
      assert s[0..] == s && !(was <= s);
      assert s[1..] == a[1..] + was + rest;
      forall k | 0 <= k < |a[1..]| ensures !(was <= (a[1..] + was + rest)[k..]) {
        assert (a[1..] + was + rest)[k..] == s[k + 1..];
      }
      ReplacesFirst(a[1..], was, now, rest);
      assert [s[0]] + (a[1..] + now + ReplaceAll(rest, was, now)) == a + now + ReplaceAll(rest, was, now);
    }
  }

  lemma {:induction false} ReplacesNothing(s: string, was: string, now: string)
    requires forall k :: 0 <= k < |s| ==> !(was <= s[k..])
    ensures ReplaceAll(s, was, now) == s
    decreases |s|
  {
    if s != "" {
      assert s[0..] == s;
      forall k | 0 <= k < |s[1..]| ensures !(was <= s[1..][k..]) {
        assert s[1..][k..] == s[k + 1..];
      }
      ReplacesNothing(s[1..], was, now);
    }
  }

  // ----- The nodes of a document --------------------------------------------------------------------------

  function NodesOf(dsl: Json): seq<Json> {
    ListOf(ObjectOf(FieldsOf(dsl), "graph"), "nodes")
  }

  predicate HasComponents(dsl: Json) {
    dsl.Obj? && Get(dsl.fields, "components").Some? && Get(dsl.fields, "components").value.Obj?
  }

  lemma GraphReads(ids: map<string, string>, order: seq<string>, graph: seq<Field>, key: string)
    ensures Get(MigrateGraph(ids, order, graph), key) ==
            if key == "nodes" then IfList(Get(graph, key), nodes => MigrateNodes(ids, nodes))
            else if key == "edges" then IfList(Get(graph, key), edges => MigrateEdges(ids, order, edges))
            else Get(graph, key)
  {
    assert "nodes" != "edges" by { assert "nodes"[0] == 'n' && "edges"[0] == 'e'; }
    var g := match Get(graph, "nodes")
             case Some(Arr(nodes)) => Put(graph, "nodes", Arr(MigrateNodes(ids, nodes)))
             case _ => graph;
    forall k
      ensures Get(g, k) == if k == "nodes" then IfList(Get(graph, k), nodes => MigrateNodes(ids, nodes)) else Get(graph, k)
    {
      match Get(graph, "nodes") {
        case Some(Arr(nodes)) => GetPut(graph, "nodes", Arr(MigrateNodes(ids, nodes)), k);
        case _ =>
      }
    }
    match Get(g, "edges") {
      case Some(Arr(edges)) => GetPut(g, "edges", Arr(MigrateEdges(ids, order, edges)), key);
      case _ =>
    }
  }

  /** As many nodes as before, and node i has the renamed id and parent id of node i. */
  lemma NodesMigrated(dsl: Json, i: nat)
    requires HasComponents(dsl) && i < |NodesOf(dsl)|
    ensures |NodesOf(Normalize(dsl))| == |NodesOf(dsl)|
    ensures var ids := IdMap(ComponentsOf(dsl));
            var was, now := NodesOf(dsl)[i], NodesOf(Normalize(dsl))[i];
            if was.Obj?
            then now.Obj? && Get(now.fields, "id") == IfString(Get(was.fields, "id"), Renaming(ids))
                 && Get(now.fields, "parentId") == IfString(Get(was.fields, "parentId"), Renaming(ids))
            else now == was
  {
    var components := ComponentsOf(dsl);
    var ids := IdMap(components);
    NormalizedParts(dsl.fields, components);
    var graph := ObjectOf(dsl.fields, "graph");
    GraphReads(ids, LongestFirst(components), graph, "nodes");
    MigrateNodesAt(ids, NodesOf(dsl), i);
    var was := NodesOf(dsl)[i];
    if was.Obj? {
      NodeReads(ids, was.fields, "id");
      NodeReads(ids, was.fields, "parentId");
    }
  }

  lemma NoNodes(dsl: Json)
    requires HasComponents(dsl) && NodesOf(dsl) == []
    ensures NodesOf(Normalize(dsl)) == []
  {
    var components := ComponentsOf(dsl);
    NormalizedParts(dsl.fields, components);
    GraphReads(IdMap(components), LongestFirst(components), ObjectOf(dsl.fields, "graph"), "nodes");
  }

  predicate IsNodeNamed(node: Json, x: string) {
    node.Obj? && Get(node.fields, "id") == Some(Str(x))
  }

  ghost predicate IsNode(dsl: Json, x: string) {
    exists i :: 0 <= i < |NodesOf(dsl)| && IsNodeNamed(NodesOf(dsl)[i], x)
  }

  /** The node ids of the migrated document are the images of those before, and no others. */
  lemma NodesAreImages(dsl: Json, x': string)
    requires HasComponents(dsl)
    ensures IsNode(Normalize(dsl), x') <==> exists x :: IsNode(dsl, x) && Rename(IdMap(ComponentsOf(dsl)), x) == x'
  {
    var ids := IdMap(ComponentsOf(dsl));
    var was, now := NodesOf(dsl), NodesOf(Normalize(dsl));
    if was == [] {
      NoNodes(dsl);
    } else {
      NodesMigrated(dsl, 0);
    }
    if i :| 0 <= i < |now| && IsNodeNamed(now[i], x') {
      NodesMigrated(dsl, i);
      var x := Get(was[i].fields, "id").value.s;
      assert IsNodeNamed(was[i], x) && IsNode(dsl, x) && Rename(ids, x) == x';
    }
    if x :| IsNode(dsl, x) && Rename(ids, x) == x' {
      var i :| 0 <= i < |was| && IsNodeNamed(was[i], x);
      NodesMigrated(dsl, i);
      assert IsNodeNamed(now[i], x');
    }
  }

  /** Edges go on joining nodes: where renaming keeps the ends of edges apart from the ids of other nodes, an end
      of a migrated edge is the id of a node exactly if it was one before. */
  lemma EdgesJoinNodes(dsl: Json, u: string)
    requires HasComponents(dsl) && IsEdgeEnd(dsl, u)
    requires var ids := IdMap(ComponentsOf(dsl)); forall x :: IsNode(dsl, x) && Rename(ids, x) == Rename(ids, u) ==> x == u
    ensures IsEdgeEnd(Normalize(dsl), Rename(IdMap(ComponentsOf(dsl)), u))
    ensures IsNode(Normalize(dsl), Rename(IdMap(ComponentsOf(dsl)), u)) <==> IsNode(dsl, u)
  {
    var ids := IdMap(ComponentsOf(dsl));
    NodesAreImages(dsl, Rename(ids, u));
    var v :| HasEdge(dsl, u, v) || HasEdge(dsl, v, u);
    PlacesAreImages(dsl, Rename(ids, u), Rename(ids, v));
    PlacesAreImages(dsl, Rename(ids, v), Rename(ids, u));
  }

  // ----- The rest of a document ----------------------------------------------------------------------------

  lemma RewriteFieldReads(ids: map<string, string>, fields: seq<Field>, key: string, other: string)
    ensures Get(RewriteField(ids, fields, key), other) ==
            if other == key then IfPresent(Get(fields, key), v => RewriteValue(ids, v)) else Get(fields, other)
  {
    match Get(fields, key) {
      case Some(v) => GetPut(fields, key, RewriteValue(ids, v), other);
      case None =>
    }
  }

  /** The texts of history, messages and reference are rewritten, and fields that the migration does not know stay. */
  lemma DocumentReads(dsl: Json, key: string)
    requires HasComponents(dsl) && key != "components" && key != "path" && key != "graph"
    ensures Normalize(dsl).Obj?
    ensures Get(Normalize(dsl).fields, key) ==
            if key == "history" || key == "messages" || key == "reference"
            then IfPresent(Get(dsl.fields, key), v => RewriteValue(IdMap(ComponentsOf(dsl)), v)) else Get(dsl.fields, key)
  {
    assert "history" != "messages" && "history" != "reference" && "messages" != "reference" by {
      assert "history"[0] == 'h' && "messages"[0] == 'm' && "reference"[0] == 'r';
    }
    var components := ComponentsOf(dsl);
    var ids := IdMap(components);
    var d1 := Put(dsl.fields, "components", Obj(MigrateComponents(ids, components)));
    var d2 := UpdateList(ids, d1, "path");
    var d3 := match Get(d2, "graph")
              case Some(Obj(graph)) => Put(d2, "graph", Obj(MigrateGraph(ids, LongestFirst(components), graph)))
              case _ => d2;
    var d4 := RewriteField(ids, d3, "history");
    var d5 := RewriteField(ids, d4, "messages");
    GetPut(dsl.fields, "components", Obj(MigrateComponents(ids, components)), key);
    UpdateListReads(ids, d1, "path", key);
    match Get(d2, "graph") {
      case Some(Obj(graph)) => GetPut(d2, "graph", Obj(MigrateGraph(ids, LongestFirst(components), graph)), key);
      case _ =>
    }
    RewriteFieldReads(ids, d3, "history", key);
    RewriteFieldReads(ids, d4, "messages", key);
    RewriteFieldReads(ids, d5, "reference", key);
  }
}
