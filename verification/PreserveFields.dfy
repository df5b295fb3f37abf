/** What a save makes of each field: what is worth keeping, spelled out, and what stays as it was sent. */
module PreserveFields {
  import opened Wrappers
  import opened Text
  import opened Documents
  import opened Preserve
  import opened Subsequences
  import opened PreserveProperties

  // ----- What is worth keeping ---------------------------------------------------------------

  predicate HasInk(s: string) {
    exists i :: 0 <= i < |s| && !IsSpace(s[i])
  }

  lemma {:induction false} StripLeftInk(s: string)
    ensures StripLeft(s) != "" <==> HasInk(s)
    ensures HasInk(StripLeft(s)) <==> HasInk(s)
  {
    if s != "" && IsSpace(s[0]) {
      StripLeftInk(s[1..]);
      assert HasInk(s) <==> HasInk(s[1..]) by {
        if i :| 0 <= i < |s| && !IsSpace(s[i]) {
          assert s[1..][i - 1] == s[i];
        }
        if i :| 0 <= i < |s[1..]| && !IsSpace(s[1..][i]) {
          assert s[i + 1] == s[1..][i];
        }
      }
    } else if s != "" {
      assert !IsSpace(s[0]);
    }
  }

  lemma {:induction false} StripRightInk(s: string)
    ensures StripRight(s) != "" <==> HasInk(s)
  {
    if s != "" && IsSpace(s[|s| - 1]) {
      var before := s[..|s| - 1];
      StripRightInk(before);
      assert HasInk(s) <==> HasInk(before) by {
        if i :| 0 <= i < |s| && !IsSpace(s[i]) {
          assert before[i] == s[i];
        }
        if i :| 0 <= i < |before| && !IsSpace(before[i]) {
          assert s[i] == before[i];
        }
      }
    } else if s != "" {
      assert !IsSpace(s[|s| - 1]);
    }
  }

  lemma StripInk(s: string)
    ensures Strip(s) != "" <==> HasInk(s)
  {
    StripLeftInk(s);
    StripRightInk(StripLeft(s));
  }

  /** A prompt is worth keeping if it is a text that is not blank, or a list that begins with a message whose content
      is: a text that is not blank, or any other value that counts as true. */
  lemma PromptIsGoodIff(v: Json)
    ensures IsPrompt(Some(v)) <==>
            || (v.Str? && HasInk(v.s))
            || (v.Arr? && |v.items| > 0 && v.items[0].Obj? && Get(v.items[0].fields, "content").Some?
                && IsInked(Get(v.items[0].fields, "content").value))
    ensures !IsPrompt(None)
  {
    if v.Str? {
      StripInk(v.s);
    }
    if v.Arr? && |v.items| > 0 && v.items[0].Obj? && Get(v.items[0].fields, "content").Some? {
      InkedIff(Get(v.items[0].fields, "content").value);
    }
  }

  predicate IsInked(v: Json) {
    match v
    case Str(s) => HasInk(s)
    case Arr(items) => |items| > 0
    case Obj(fields) => |fields| > 0
    case Atom(code) => code > 0
  }

  lemma InkedIff(v: Json)
    ensures HasText(Some(v)) <==> IsInked(v)
  {
    if v.Str? {
      StripInk(v.s);
    }
  }

  /** A system prompt is, if it is such a value and not the placeholder. */
  lemma SysPromptIsGoodIff(v: Json)
    ensures IsOwnSysPrompt(Some(v)) <==> IsInked(v) && (v.Str? ==> Strip(v.s) != "flow.sysPromptDefaultValue")
    ensures !IsOwnSysPrompt(None)
  {
    InkedIff(v);
  }

  /** Tools and outputs are, if they are not empty. */
  lemma TruthyIff(v: Json)
    ensures Truthy(Some(v)) <==>
            match v
            case Str(s) => |s| > 0
            case Arr(items) => |items| > 0
            case Obj(fields) => |fields| > 0
            case Atom(code) => code > 0
    ensures !Truthy(None)
  {
  }

  // ----- The begin component --------------------------------------------------------------------

  /** The begin component: where a task was stored and a conversation is sent, the task mode comes back, and with it
      the prologue if there was one; nothing else changes. */
  lemma BeginReads(sent: seq<Field>, stored: seq<Field>, key: string)
    ensures var lost := Get(sent, "mode") == Some(Str("conversational")) && Get(stored, "mode") == Some(Str("task"));
            Get(PreserveBegin(sent, stored), key) ==
            if lost && key == "mode" then Some(Str("task"))
            else if lost && key == "prologue" && Truthy(Get(stored, "prologue")) then Get(stored, "prologue")
            else Get(sent, key)
  {
    assert "mode" != "prologue" by { assert "mode"[0] == 'm' && "prologue"[0] == 'p'; }
    var p := Put(sent, "mode", Str("task"));
    GetPut(sent, "mode", Str("task"), key);
    GetPut(p, "prologue", Read(stored, "prologue"), key);
  }

  // ----- Components --------------------------------------------------------------------------------

  function ObjectIn(c: Json): seq<Field> {
    match c
    case Obj(fields) =>
      (match Get(fields, "obj")
       case Some(Obj(o)) => o
       case _ => [])
    case _ => []
  }

  /** A merge writes to the parameters of a component only, and only of the begin component and of agents. */
  lemma ComponentStays(id: string, sent: Json, stored: Json, key: string)
    requires sent.Obj?
    ensures MergeComponent(id, sent, stored).Obj?
    ensures key != "obj" ==> Get(MergeComponent(id, sent, stored).fields, key) == Get(sent.fields, key)
    ensures key != "params" ==> Get(ObjectIn(MergeComponent(id, sent, stored)), key) == Get(ObjectIn(sent), key)
    ensures id != "begin" && ComponentName(sent) != Some(Str("Begin")) && ComponentName(sent) != Some(Str("Agent")) ==>
              MergeComponent(id, sent, stored) == sent
    ensures Params(sent).None? || !stored.Obj? ==> MergeComponent(id, sent, stored) == sent
  {
    if Params(sent).Some? {
      var o := Get(sent.fields, "obj").value.fields;
      forall p: seq<Field>
        ensures key != "obj" ==> Get(WithParams(sent, p).fields, key) == Get(sent.fields, key)
        ensures key != "params" ==> Get(ObjectIn(WithParams(sent, p)), key) == Get(o, key)
      {
        GetPut(sent.fields, "obj", Obj(Put(o, "params", Obj(p))), key);
        GetPut(sent.fields, "obj", Obj(Put(o, "params", Obj(p))), "obj");
        GetPut(o, "params", Obj(p), key);
      }
    }
  }

  /** The parameters of a merged component: those of an agent and of the begin component are restored from the stored
      ones, no matter where the component keeps its name. */
  lemma ComponentParams(id: string, sent: Json, stored: Json)
    requires Params(sent).Some? && stored.Obj?
    ensures var name, was := ComponentName(sent), if Params(stored).Some? then Params(stored).value else [];
            Params(MergeComponent(id, sent, stored)) ==
            Some(if id == "begin" || name == Some(Str("Begin")) then PreserveBegin(Params(sent).value, was)
                 else if name == Some(Str("Agent")) then PreserveAgent(Params(sent).value, was)
                 else Params(sent).value)
  {
    var p, q := Params(sent).value, ParamsOrEmpty(stored);
    WithParamsReads(sent, PreserveBegin(p, q));
    WithParamsReads(sent, PreserveAgent(p, q));
  }

  // ----- Nodes and edges -------------------------------------------------------------------------------

  /** The stored node that counts is the last one with the id. */
  lemma {:induction false} LookupIsLast(stored: seq<Json>, id: Json) returns (i: nat)
    ensures if exists n :: n in stored && IdOf(n) == id
            then i < |stored| && IdOf(stored[i]) == id && Lookup(stored, id) == Some(stored[i])
                 && forall j :: i < j < |stored| ==> IdOf(stored[j]) != id
            else Lookup(stored, id) == None
  {
    i := 0;
    if stored != [] {
      var n := |stored| - 1;
      var before := stored[..n];
      assert stored == before + [stored[n]];
      if IdOf(stored[n]) == id {
        i := n;
      } else {
        i := LookupIsLast(before, id);
        assert (exists n :: n in stored && IdOf(n) == id) <==> (exists n :: n in before && IdOf(n) == id);
      }
    }
  }

  /** The form of a node after a save, field by field, for the begin node and for agent nodes; other nodes, and nodes
      whose form is empty or whose stored form cannot be read, stay as they were sent. */
  lemma NodeFormReads(node: Json, stored: seq<Json>, key: string)
    requires node.Obj?
    ensures var was, n := Lookup(stored, IdOf(node)), MergeNode(node, stored);
            var begin := IdOf(node) == Str("begin") || Get(DataOf(node), "label") == Some(Str("Begin"));
            var agent := Get(DataOf(node), "label") == Some(Str("Agent")) || (IdOf(node).Str? && "Agent:" <= IdOf(node).s);
            if was.Some? && FormOf(node) != [] && HasUsableForm(was.value) && (begin || agent)
            then n.Obj? && Get(FormOf(n), key) ==
                           Get(if begin then PreserveBegin(FormOf(node), FormOf(was.value))
                               else PreserveAgent(FormOf(node), FormOf(was.value)), key)
            else n == node
  {
    var was := Lookup(stored, IdOf(node));
    if was.Some? && FormIsAttached(node) && HasUsableForm(was.value) {
      var f, g := FormOf(node), FormOf(was.value);
      PreservedFormIsNotEmpty(f, g);
      WithFormReads(node, PreserveBegin(f, g));
      WithFormReads(node, PreserveAgent(f, g));
    }
  }

  /** Outside of its form a merged node stays as it was sent. */
  lemma NodeStays(node: Json, stored: seq<Json>, key: string)
    requires node.Obj?
    ensures MergeNode(node, stored).Obj?
    ensures key != "data" ==> Get(MergeNode(node, stored).fields, key) == Get(node.fields, key)
    ensures key != "form" ==> Get(DataOf(MergeNode(node, stored)), key) == Get(DataOf(node), key)
  {
    forall f: seq<Field>
      ensures key != "data" ==> Get(WithForm(node, f).fields, key) == Get(node.fields, key)
      ensures key != "form" ==> Get(DataOf(WithForm(node, f)), key) == Get(DataOf(node), key)
    {
      var d := DataOf(node);
      GetPut(node.fields, "data", Obj(Put(d, "form", Obj(f))), key);
      GetPut(node.fields, "data", Obj(Put(d, "form", Obj(f))), "data");
      GetPut(d, "form", Obj(f), key);
    }
  }

  /** Nodes of agents and tools are told by the beginning of their ids. */
  lemma AgentOrToolIff(id: Json)
    ensures IsAgentOrTool(id) <==> exists rest :: id == Str("Agent:" + rest) || id == Str("Tool:" + rest)
  {
    if IsAgentOrTool(id) {
      if "Agent:" <= id.s {
        assert id == Str("Agent:" + id.s[6..]);
      } else {
        assert id == Str("Tool:" + id.s[5..]);
      }
    }
  }

  /** Two edges count as the same if they agree on both ends and both handles, a missing one counting as null. */
  lemma SameEdgeIff(e: seq<Field>, f: seq<Field>)
    ensures KeyOf(Obj(e)) == KeyOf(Obj(f)) <==>
            && OrNull(Get(e, "source")) == OrNull(Get(f, "source"))
            && OrNull(Get(e, "target")) == OrNull(Get(f, "target"))
            && OrNull(Get(e, "sourceHandle")) == OrNull(Get(f, "sourceHandle"))
            && OrNull(Get(e, "targetHandle")) == OrNull(Get(f, "targetHandle"))
  {
  }

  function OrNull(v: Option<Json>): Json {
    match v
    case Some(u) => u
    case None => NULL
  }

  // ----- Lists of nodes and edges ----------------------------------------------------------------------

  function ListIn(graph: seq<Field>, key: string): seq<Json> {
    match Get(graph, key)
    case Some(Arr(items)) => items
    case _ => []
  }

  function IsDictionary(): Json -> bool {
    (v: Json) => v.Obj?
  }

  /** A dictionary with an id that counts as true. */
  function HasId(): Json -> bool {
    (v: Json) => v.Obj? && Truthy(Get(v.fields, "id"))
  }

  function IsLost(ids: set<Json>): Json -> bool {
    (v: Json) => IdOf(v) !in ids && IdOf(v).Str? && ("Agent:" <= IdOf(v).s || "Tool:" <= IdOf(v).s)
  }

  function IsLostEdge(keys: set<EdgeKey>): Json -> bool {
    (v: Json) => KeyOf(v) !in keys
  }

  lemma {:induction false} ObjectsInOrder(items: seq<Json>) returns (at: seq<nat>)
    ensures AreThose(Objects(items), items, at, IsDictionary())
  {
    if items == [] {
      at := [];
    } else {
      var rest := ObjectsInOrder(items[1..]);
      at := OneInFront(items[0], Objects(items[1..]), items[1..], rest, IsDictionary());
      assert [items[0]] + items[1..] == items;
    }
  }

  /** The elements of a graph are the dictionaries in its list, in order. */
  lemma ElementsInOrder(graph: seq<Field>, key: string) returns (at: seq<nat>)
    ensures AreThose(Elements(graph, key), ListIn(graph, key), at, IsDictionary())
  {
    at := ObjectsInOrder(ListIn(graph, key));
  }

  lemma IdentifiedFirst(items: seq<Json>)
    requires items != []
    ensures Identified(Objects(items)) == (if HasId()(items[0]) then [items[0]] else []) + Identified(Objects(items[1..]))
  {
    var rest := Objects(items[1..]);
    if items[0].Obj? {
      assert Objects(items) == [items[0]] + rest && ([items[0]] + rest)[1..] == rest;
      assert Truthy(Some(IdOf(items[0]))) <==> HasId()(items[0]);
    } else {
      assert Objects(items) == rest;
    }
  }

  lemma {:induction false} IdentifiedInOrder(items: seq<Json>) returns (at: seq<nat>)
    ensures AreThose(Identified(Objects(items)), items, at, HasId())
  {
    if items == [] {
      at := [];
    } else {
      var rest := IdentifiedInOrder(items[1..]);
      at := OneInFront(items[0], Identified(Objects(items[1..])), items[1..], rest, HasId());
      assert [items[0]] + items[1..] == items;
      IdentifiedFirst(items);
    }
  }

  /** The stored nodes are the dictionaries among them that have an id, in order. */
  lemma StoredNodesInOrder(graph: seq<Field>) returns (at: seq<nat>)
    ensures AreThose(StoredNodes(graph), ListIn(graph, "nodes"), at, HasId())
  {
    at := IdentifiedInOrder(ListIn(graph, "nodes"));
  }

  /** Missing nodes and edges come back in the order in which they were stored. */
  lemma {:induction false} MissingNodesInOrder(ids: set<Json>, stored: seq<Json>) returns (at: seq<nat>)
    ensures AreThose(MissingNodes(ids, stored), stored, at, IsLost(ids))
  {
    if stored == [] {
      at := [];
    } else {
      var rest := MissingNodesInOrder(ids, stored[1..]);
      at := OneInFront(stored[0], MissingNodes(ids, stored[1..]), stored[1..], rest, IsLost(ids));
      assert [stored[0]] + stored[1..] == stored;
    }
  }

  lemma {:induction false} MissingEdgesInOrder(keys: set<EdgeKey>, stored: seq<Json>) returns (at: seq<nat>)
    ensures AreThose(MissingEdges(keys, stored), stored, at, IsLostEdge(keys))
  {
    if stored == [] {
      at := [];
    } else {
      var rest := MissingEdgesInOrder(keys, stored[1..]);
      at := OneInFront(stored[0], MissingEdges(keys, stored[1..]), stored[1..], rest, IsLostEdge(keys));
      assert [stored[0]] + stored[1..] == stored;
    }
  }

  // ----- The document ------------------------------------------------------------------------------------

  /** The nodes and edges sent come first, as they were but for their forms, and the missing ones behind them; other
      fields of the graph stay. */
  lemma GraphReads(sent: seq<Field>, stored: seq<Field>, key: string)
    ensures var nodes, edges := Elements(sent, "nodes"), Elements(sent, "edges");
            Get(MergeGraph(sent, stored), key) ==
            if key == "nodes" then
              Some(Arr(MergeNodes(nodes + MissingNodes(Ids(nodes), StoredNodes(stored)), StoredNodes(stored))))
            else if key == "edges" then Some(Arr(edges + MissingEdges(EdgeKeys(edges), Elements(stored, "edges"))))
            else Get(sent, key)
  {
    assert "nodes" != "edges" by { assert "nodes"[0] == 'n' && "edges"[0] == 'e'; }
    var nodes, edges := Elements(sent, "nodes"), Elements(sent, "edges");
    var allNodes := Arr(MergeNodes(nodes + MissingNodes(Ids(nodes), StoredNodes(stored)), StoredNodes(stored)));
    var allEdges := Arr(edges + MissingEdges(EdgeKeys(edges), Elements(stored, "edges")));
    GetPut(sent, "nodes", allNodes, key);
    GetPut(Put(sent, "nodes", allNodes), "edges", allEdges, key);
  }

  lemma {:induction false} MergedNodesAt(nodes: seq<Json>, stored: seq<Json>, i: nat)
    requires i < |nodes|
    ensures |MergeNodes(nodes, stored)| == |nodes| && MergeNodes(nodes, stored)[i] == MergeNode(nodes[i], stored)
  {
    if i > 0 {
      MergedNodesAt(nodes[1..], stored, i - 1);
    } else if |nodes| > 1 {
      MergedNodesAt(nodes[1..], stored, 0);
    }
  }

  /** A document keeps every field that was sent but its components and its graph, and anything that is no dictionary
      stays as it was sent. */
  lemma DocumentReads(sent: Json, stored: Json, key: string)
    ensures !sent.Obj? || !stored.Obj? ==> Merge(sent, stored) == sent
    ensures sent.Obj? && stored.Obj? && key != "components" && key != "graph" ==>
              Merge(sent, stored).Obj? && Get(Merge(sent, stored).fields, key) == Get(sent.fields, key)
  {
    if sent.Obj? && stored.Obj? {
      var c := PreserveComponents(sent.fields, stored.fields);
      match (Get(sent.fields, "components"), Get(stored.fields, "components")) {
        case (Some(Obj(n)), Some(Obj(s))) => GetPut(sent.fields, "components", Obj(MergeComponents(n, s)), key);
        case _ =>
      }
      match Get(c, "graph") {
        case None => GetPut(c, "graph", Obj(MergeGraph([], GraphOf(stored.fields))), key);
        case Some(Obj(g)) => GetPut(c, "graph", Obj(MergeGraph(g, GraphOf(stored.fields))), key);
        case _ =>
      }
    }
  }
}
