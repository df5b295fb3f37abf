/** Whole saves: merging twice, what one merge unites, and what a series of saves keeps. */
module PreserveSaves {
  import opened Wrappers
  import opened Documents
  import opened Preserve
  import opened PreserveProperties

  // ----- The graph of a merge -------------------------------------------------------

  lemma GraphKeysDiffer()
    ensures "nodes" != "edges" && "components" != "graph"
  {
    assert "nodes"[0] == 'n' && "edges"[0] == 'e' && "components"[0] == 'c' && "graph"[0] == 'g';
  }

  lemma {:induction false} ElementsAreObjects(graph: seq<Field>, key: string)
    ensures forall n :: n in Elements(graph, key) ==> n.Obj?
  {
    match Get(graph, key) {
      case Some(Arr(items)) => ObjectsAreObjects(items);
      case _ =>
    }
  }

  function AllNodes(sent: seq<Field>, stored: seq<Field>): seq<Json> {
    var nodes := Elements(sent, "nodes");
    nodes + MissingNodes(Ids(nodes), StoredNodes(stored))
  }

  function AllEdges(sent: seq<Field>, stored: seq<Field>): seq<Json> {
    var edges := Elements(sent, "edges");
    edges + MissingEdges(EdgeKeys(edges), Elements(stored, "edges"))
  }

  lemma AllAreObjects(sent: seq<Field>, stored: seq<Field>)
    ensures forall n :: n in AllNodes(sent, stored) ==> n.Obj?
    ensures forall e :: e in AllEdges(sent, stored) ==> e.Obj?
  {
    ElementsAreObjects(sent, "nodes");
    ElementsAreObjects(sent, "edges");
    ElementsAreObjects(stored, "nodes");
    ElementsAreObjects(stored, "edges");
    IdentifiedAreElements(Elements(stored, "nodes"));
    MissingNodesAre(Ids(Elements(sent, "nodes")), StoredNodes(stored));
    MissingEdgesAre(EdgeKeys(Elements(sent, "edges")), Elements(stored, "edges"));
  }

  lemma MergedInPlace(sent: seq<Field>, nodes: seq<Json>, edges: seq<Json>)
    ensures var merged := Put(Put(sent, "nodes", Arr(nodes)), "edges", Arr(edges));
            Get(merged, "nodes") == Some(Arr(nodes)) && Get(merged, "edges") == Some(Arr(edges))
  {
    GraphKeysDiffer();
    var withNodes := Put(sent, "nodes", Arr(nodes));
    GetPut(sent, "nodes", Arr(nodes), "nodes");
    GetPut(withNodes, "edges", Arr(edges), "nodes");
    GetPut(withNodes, "edges", Arr(edges), "edges");
  }

  /** What a merged graph holds in its two lists. */
  lemma MergedElements(sent: seq<Field>, stored: seq<Field>)
    ensures Elements(MergeGraph(sent, stored), "nodes") == MergeNodes(AllNodes(sent, stored), StoredNodes(stored))
    ensures Elements(MergeGraph(sent, stored), "edges") == AllEdges(sent, stored)
    ensures Ids(Elements(MergeGraph(sent, stored), "nodes")) == Ids(AllNodes(sent, stored))
  {
    MergedInPlace(sent, MergeNodes(AllNodes(sent, stored), StoredNodes(stored)), AllEdges(sent, stored));
    AllAreObjects(sent, stored);
    NodesTwice(AllNodes(sent, stored), StoredNodes(stored));
    ObjectsAreObjects(AllEdges(sent, stored));
  }

  lemma IdsInclude(nodes: seq<Json>, n: Json)
    requires n in nodes
    ensures IdOf(n) in Ids(nodes)
  {
  }

  /** After one merge every stored agent or tool node is there. */
  lemma NoNodeIsMissing(sent: seq<Field>, stored: seq<Field>)
    ensures MissingNodes(Ids(AllNodes(sent, stored)), StoredNodes(stored)) == []
  {
    var nodes := Elements(sent, "nodes");
    var all := AllNodes(sent, stored);
    MissingNodesAre(Ids(nodes), StoredNodes(stored));
    forall n | n in StoredNodes(stored) && IsAgentOrTool(IdOf(n)) ensures IdOf(n) in Ids(all) {
      if IdOf(n) in Ids(nodes) {
        var m :| m in nodes && IdOf(m) == IdOf(n);
        IdsInclude(all, m);
      } else {
        IdsInclude(all, n);
      }
    }
    NothingMissing(Ids(all), StoredNodes(stored));
  }

  lemma NoEdgeIsMissing(sent: seq<Field>, stored: seq<Field>)
    ensures MissingEdges(EdgeKeys(AllEdges(sent, stored)), Elements(stored, "edges")) == []
  {
    var edges := Elements(sent, "edges");
    var all := AllEdges(sent, stored);
    var olds := Elements(stored, "edges");
    MissingEdgesAre(EdgeKeys(edges), olds);
    forall e | e in olds ensures KeyOf(e) in EdgeKeys(all) {
      if KeyOf(e) in EdgeKeys(edges) {
        var m :| m in edges && KeyOf(m) == KeyOf(e);
        assert m in all;
      } else {
        assert e in all;
      }
    }
    NoEdgeMissing(EdgeKeys(all), olds);
  }

  lemma GraphTwice(sent: seq<Field>, stored: seq<Field>)
    ensures MergeGraph(MergeGraph(sent, stored), stored) == MergeGraph(sent, stored)
  {
    GraphKeysDiffer();
    AllAreObjects(sent, stored);
    var m := MergeGraph(sent, stored);
    var nodes := MergeNodes(AllNodes(sent, stored), StoredNodes(stored));
    var edges := AllEdges(sent, stored);
    MergedElements(sent, stored);
    NoNodeIsMissing(sent, stored);
    NoEdgeIsMissing(sent, stored);
    NodesTwice(AllNodes(sent, stored), StoredNodes(stored));
    assert nodes + [] == nodes && edges + [] == edges;
    var withNodes := Put(sent, "nodes", Arr(nodes));
    GetPut(sent, "nodes", Arr(nodes), "nodes");
    GetPut(withNodes, "edges", Arr(edges), "nodes");
    GetPut(withNodes, "edges", Arr(edges), "edges");
    PutSame(m, "nodes", Arr(nodes));
    PutSame(m, "edges", Arr(edges));
  }

  // ----- The document ------------------------------------------------------------------

  lemma PreserveComponentsReads(sent: seq<Field>, stored: seq<Field>)
    ensures Get(PreserveComponents(sent, stored), "graph") == Get(sent, "graph")
    ensures PreserveComponents(PreserveComponents(sent, stored), stored) == PreserveComponents(sent, stored)
  {
    GraphKeysDiffer();
    match (Get(sent, "components"), Get(stored, "components")) {
      case (Some(Obj(n)), Some(Obj(s))) => {
        var merged := Obj(MergeComponents(n, s));
        GetPut(sent, "components", merged, "components");
        GetPut(sent, "components", merged, "graph");
        ComponentsTwice(n, s);
        PutSame(PreserveComponents(sent, stored), "components", merged);
      }
      case _ =>
    }
  }

  lemma PreserveGraphReads(sent: seq<Field>, stored: seq<Field>)
    ensures Get(PreserveGraph(sent, stored), "components") == Get(sent, "components")
    ensures PreserveGraph(PreserveGraph(sent, stored), stored) == PreserveGraph(sent, stored)
    ensures Get(sent, "graph").None? || Get(sent, "graph").value.Obj? ==>
              Get(PreserveGraph(sent, stored), "graph") == Some(Obj(MergeGraph(GraphOf(sent), GraphOf(stored))))
  {
    GraphKeysDiffer();
    if Get(sent, "graph").None? || Get(sent, "graph").value.Obj? {
      var g := GraphOf(sent);
      var merged := Obj(MergeGraph(g, GraphOf(stored)));
      GetPut(sent, "graph", merged, "graph");
      GetPut(sent, "graph", merged, "components");
      GraphTwice(g, GraphOf(stored));
      PutSame(PreserveGraph(sent, stored), "graph", merged);
    }
  }

  /** Saving the merged document against the same stored one changes nothing more. */
  lemma MergeIsIdempotent(sent: Json, stored: Json)
    ensures Merge(Merge(sent, stored), stored) == Merge(sent, stored)
  {
    if sent.Obj? && stored.Obj? {
      var p := PreserveComponents(sent.fields, stored.fields);
      PreserveComponentsReads(sent.fields, stored.fields);
      PreserveGraphReads(p, stored.fields);
      var q := PreserveGraph(p, stored.fields);
      ComponentsSettled(p, q, stored.fields);
    }
  }

  /** Components that a merge left as they were stay so when only the graph changes. */
  lemma ComponentsSettled(p: seq<Field>, q: seq<Field>, stored: seq<Field>)
    requires Get(q, "components") == Get(p, "components")
    requires PreserveComponents(p, stored) == p
    ensures PreserveComponents(q, stored) == q
  {
    match (Get(p, "components"), Get(stored, "components")) {
      case (Some(Obj(n)), Some(Obj(s))) => {
        var merged := Obj(MergeComponents(n, s));
        GetPut(p, "components", merged, "components");
        PutSame(q, "components", merged);
      }
      case _ =>
    }
  }

  // ----- What one merge unites ----------------------------------------------------------

  function FieldsOf(dsl: Json): seq<Field> {
    if dsl.Obj? then dsl.fields else []
  }

  function EdgeKeysOf(dsl: Json): set<EdgeKey> {
    EdgeKeys(Elements(GraphOf(FieldsOf(dsl)), "edges"))
  }

  function NodeIdsOf(dsl: Json): set<Json> {
    Ids(Elements(GraphOf(FieldsOf(dsl)), "nodes"))
  }

  function AgentIdsOf(dsl: Json): set<Json> {
    set id | id in NodeIdsOf(dsl) && IsAgentOrTool(id)
  }

  /** A document whose graph a merge may write to. */
  predicate GraphIsOpen(dsl: Json) {
    dsl.Obj? && (Get(dsl.fields, "graph").None? || Get(dsl.fields, "graph").value.Obj?)
  }

  lemma AllNodeIds(sent: seq<Field>, stored: seq<Field>)
    ensures Ids(AllNodes(sent, stored)) ==
            Ids(Elements(sent, "nodes")) + (set id | id in Ids(Elements(stored, "nodes")) && IsAgentOrTool(id))
  {
    var nodes, olds := Elements(sent, "nodes"), Elements(stored, "nodes");
    var all := AllNodes(sent, stored);
    var agents := set id | id in Ids(olds) && IsAgentOrTool(id);
    IdentifiedAreElements(olds);
    MissingNodesAre(Ids(nodes), StoredNodes(stored));
    forall id | id in Ids(all) ensures id in Ids(nodes) + agents {
      var n :| n in all && IdOf(n) == id;
      if n in nodes {
        IdsInclude(nodes, n);
      } else {
        IdsInclude(olds, n);
      }
    }
    forall id | id in Ids(nodes) + agents ensures id in Ids(all) {
      if id in Ids(nodes) {
        var n :| n in nodes && IdOf(n) == id;
        IdsInclude(all, n);
      } else {
        var n :| n in olds && IdOf(n) == id;
        assert Truthy(Some(id)) by { assert id.s[0] == 'A' || id.s[0] == 'T'; }
        IdsInclude(all, n);
      }
    }
  }

  lemma AllEdgeKeys(sent: seq<Field>, stored: seq<Field>)
    ensures EdgeKeys(AllEdges(sent, stored)) == EdgeKeys(Elements(sent, "edges")) + EdgeKeys(Elements(stored, "edges"))
  {
    var edges, olds := Elements(sent, "edges"), Elements(stored, "edges");
    var all := AllEdges(sent, stored);
    MissingEdgesAre(EdgeKeys(edges), olds);
    forall k | k in EdgeKeys(edges) + EdgeKeys(olds) ensures k in EdgeKeys(all) {
      if k in EdgeKeys(edges) {
        var e :| e in edges && KeyOf(e) == k;
        assert e in all;
      } else {
        var e :| e in olds && KeyOf(e) == k;
        assert e in all;
      }
    }
  }

  lemma MergedGraph(sent: Json, stored: Json)
    requires GraphIsOpen(sent) && stored.Obj?
    ensures GraphOf(FieldsOf(Merge(sent, stored))) == MergeGraph(GraphOf(FieldsOf(sent)), GraphOf(FieldsOf(stored)))
    ensures GraphIsOpen(Merge(sent, stored))
  {
    var p := PreserveComponents(sent.fields, stored.fields);
    PreserveComponentsReads(sent.fields, stored.fields);
    PreserveGraphReads(p, stored.fields);
  }

  /** A save holds the edges of both documents, the nodes sent, and the stored agents and tools:
      no other node comes back. */
  lemma MergeUnites(sent: Json, stored: Json)
    requires GraphIsOpen(sent)
    ensures EdgeKeysOf(Merge(sent, stored)) == EdgeKeysOf(sent) + EdgeKeysOf(stored)
    ensures NodeIdsOf(Merge(sent, stored)) == NodeIdsOf(sent) + AgentIdsOf(stored)
    ensures GraphIsOpen(Merge(sent, stored))
  {
    if stored.Obj? {
      var g, h := GraphOf(sent.fields), GraphOf(stored.fields);
      MergedGraph(sent, stored);
      MergedElements(g, h);
      AllNodeIds(g, h);
      AllEdgeKeys(g, h);
    }
  }

  /** The stored edges survive a save exactly when its graph can be written to or there were none. */
  lemma EdgesSurviveIff(sent: Json, stored: Json)
    ensures EdgeKeysOf(stored) <= EdgeKeysOf(Merge(sent, stored)) <==> GraphIsOpen(sent) || EdgeKeysOf(stored) == {}
  {
    if GraphIsOpen(sent) {
      MergeUnites(sent, stored);
    } else {
      if sent.Obj? && stored.Obj? {
        PreserveComponentsReads(sent.fields, stored.fields);
      }
      assert EdgeKeysOf(Merge(sent, stored)) == {};
    }
  }

  // ----- Series of saves -------------------------------------------------------------------

  /** The document stored after the saves, each merged with what was stored before it. */
  function Saved(stored: Json, sents: seq<Json>): Json {
    if sents == [] then stored
    else Merge(sents[|sents| - 1], Saved(stored, sents[..|sents| - 1]))
  }

  /** Edges, agents and tools only accumulate. */
  lemma {:induction false} SavesAccumulate(stored: Json, sents: seq<Json>)
    requires forall s :: s in sents ==> GraphIsOpen(s)
    ensures forall k :: k in EdgeKeysOf(Saved(stored, sents)) <==>
                        k in EdgeKeysOf(stored) || exists s :: s in sents && k in EdgeKeysOf(s)
    ensures forall id :: id in AgentIdsOf(Saved(stored, sents)) <==>
                         id in AgentIdsOf(stored) || exists s :: s in sents && id in AgentIdsOf(s)
  {
    if sents != [] {
      var last, before := sents[|sents| - 1], sents[..|sents| - 1];
      SavesAccumulate(stored, before);
      assert forall s :: s in sents <==> s in before || s == last by { assert sents == before + [last]; }
      assert last in sents;
      MergeUnites(last, Saved(stored, before));
    }
  }

  // ----- Agents over a series of saves -----------------------------------------------------

  function ComponentOf(dsl: Json, id: string): Option<Json> {
    match Get(FieldsOf(dsl), "components")
    case Some(Obj(c)) => Get(c, id)
    case _ => None
  }

  /** A parameter of a component. */
  function ParamOf(dsl: Json, id: string, key: string): Option<Json> {
    match ComponentOf(dsl, id)
    case Some(c) => Get(ParamsOrEmpty(c), key)
    case None => None
  }

  /** The document has the agent. */
  predicate HasAgent(dsl: Json, id: string) {
    match ComponentOf(dsl, id)
    case Some(c) => ComponentName(c) == Some(Str("Agent"))
    case None => false
  }

  /** The component comes with a parameter dictionary that a merge can write to. */
  predicate IsAttached(dsl: Json, id: string) {
    match ComponentOf(dsl, id)
    case Some(c) => Params(c).Some?
    case None => false
  }

  predicate IsKept(key: string) {
    key == "prompts" || key == "sys_prompt" || key == "tools" || key == "outputs"
  }

  /** What is worth keeping in each of the kept fields. */
  function Good(key: string): Option<Json> -> bool {
    if key == "prompts" then IsPrompt else if key == "sys_prompt" then IsOwnSysPrompt else Truthy
  }

  lemma MergedComponentOf(sent: Json, stored: Json, id: string)
    ensures ComponentOf(Merge(sent, stored), id) ==
            if ComponentOf(sent, id).Some? && ComponentOf(stored, id).Some?
            then Some(MergeComponent(id, ComponentOf(sent, id).value, ComponentOf(stored, id).value))
            else ComponentOf(sent, id)
  {
    if sent.Obj? && stored.Obj? {
      PreserveGraphReads(PreserveComponents(sent.fields, stored.fields), stored.fields);
      match (Get(sent.fields, "components"), Get(stored.fields, "components")) {
        case (Some(Obj(n)), Some(Obj(s))) => {
          GetPut(sent.fields, "components", Obj(MergeComponents(n, s)), "components");
          MergedComponent(n, s, id);
        }
        case _ =>
      }
    }
  }

  /** A save keeps the stored value of a field that is good where the one sent is not, if there is a
      dictionary to keep it in. */
  lemma AgentAfterSave(sent: Json, stored: Json, id: string, key: string)
    requires HasAgent(sent, id) && id != "begin" && IsKept(key)
    ensures HasAgent(Merge(sent, stored), id) && (IsAttached(Merge(sent, stored), id) <==> IsAttached(sent, id))
    ensures ParamOf(Merge(sent, stored), id, key) ==
            if IsAttached(sent, id) && !Good(key)(ParamOf(sent, id, key)) && Good(key)(ParamOf(stored, id, key))
            then ParamOf(stored, id, key) else ParamOf(sent, id, key)
  {
    MergedComponentOf(sent, stored, id);
    assert !Good(key)(None);
    if ComponentOf(stored, id).Some? && IsAttached(sent, id) {
      AgentComponentReads(id, ComponentOf(sent, id).value, ComponentOf(stored, id).value, key);
    }
  }

  lemma AgentComponentReads(id: string, sent: Json, stored: Json, key: string)
    requires Params(sent).Some? && ComponentName(sent) == Some(Str("Agent")) && id != "begin" && IsKept(key)
    ensures var m := MergeComponent(id, sent, stored);
            && Params(m).Some? && ComponentName(m) == Some(Str("Agent"))
            && Get(Params(m).value, key) ==
               if !Good(key)(Get(Params(sent).value, key)) && Good(key)(Get(ParamsOrEmpty(stored), key))
               then Get(ParamsOrEmpty(stored), key) else Get(Params(sent).value, key)
  {
    assert Str("Agent") != Str("Begin") by { assert "Agent"[0] == 'A' && "Begin"[0] == 'B'; }
    AgentKeysDiffer();
    var p, q := Params(sent).value, ParamsOrEmpty(stored);
    AgentReads(p, q, key);
    WithParamsReads(sent, PreserveAgent(p, q));
    assert !Good(key)(None);
  }

  /** A good stored field that the agent sent lacks survives exactly when the agent comes with a
      parameter dictionary: what is written for an agent without one is lost. */
  lemma AgentKeepsFieldIff(sent: Json, stored: Json, id: string, key: string)
    requires HasAgent(sent, id) && id != "begin" && IsKept(key)
    requires Good(key)(ParamOf(stored, id, key)) && !Good(key)(ParamOf(sent, id, key))
    ensures Good(key)(ParamOf(Merge(sent, stored), id, key)) <==> IsAttached(sent, id)
  {
    AgentAfterSave(sent, stored, id, key);
  }

  function AgentDocument(obj: seq<Field>): Json {
    Obj([Field("components", Obj([Field("Agent:1", Obj([Field("obj", Obj(obj))]))]))])
  }

  const AGENT_NAME := Field("component_name", Str("Agent"))

  lemma DocumentReads(obj: seq<Field>)
    ensures ComponentOf(AgentDocument(obj), "Agent:1") == Some(Obj([Field("obj", Obj(obj))]))
  {
  }

  lemma NamedReads(params: seq<Field>)
    ensures ComponentName(Obj([Field("obj", Obj([AGENT_NAME]))])) == Some(Str("Agent"))
    ensures Params(Obj([Field("obj", Obj([AGENT_NAME]))])) == None
    ensures Params(Obj([Field("obj", Obj([AGENT_NAME, Field("params", Obj(params))]))])) == Some(params)
  {
    assert "component_name" != "params" by { assert "component_name"[0] == 'c' && "params"[0] == 'p'; }
    var one := [AGENT_NAME];
    assert one[0].key != "params" && one[1..] == [];
    assert Get(one, "params") == Get(one[1..], "params") == None;
    var both := [AGENT_NAME, Field("params", Obj(params))];
    assert both[1..][0] == Field("params", Obj(params));
    assert Get(both, "params") == Get(both[1..], "params");
  }

  /** An agent sent without parameters loses the stored tools. */
  lemma MissingParamsLoseTools()
    ensures var tools := Arr([Str("search")]);
            var stored := AgentDocument([AGENT_NAME, Field("params", Obj([Field("tools", tools)]))]);
            var sent := AgentDocument([AGENT_NAME]);
            && ParamOf(stored, "Agent:1", "tools") == Some(tools)
            && ParamOf(Merge(sent, stored), "Agent:1", "tools") == None
  {
    var tools := Arr([Str("search")]);
    var params := [Field("tools", tools)];
    var full := [AGENT_NAME, Field("params", Obj(params))];
    NamedReads(params);
    DocumentReads(full);
    DocumentReads([AGENT_NAME]);
    assert "Agent:1" != "begin" by { assert "Agent:1"[0] == 'A' && "begin"[0] == 'b'; }
    assert Get(params, "tools") == Some(tools);
    AgentAfterSave(AgentDocument([AGENT_NAME]), AgentDocument(full), "Agent:1", "tools");
  }

  /** A version of a field: its value, and whether it came with a dictionary. */
  datatype Version = Version(value: Option<Json>, attached: bool)

  /** What a series of versions settles on: a version without a dictionary forgets the earlier ones. */
  function Settled(good: Option<Json> -> bool, history: seq<Version>): Option<Json>
    requires history != []
  {
    var n := |history| - 1;
    var last := history[n];
    if n > 0 && last.attached && !good(last.value) && good(Settled(good, history[..n])) then Settled(good, history[..n])
    else last.value
  }

  /** The versions of a parameter: the stored one and then those sent. */
  function History(stored: Json, sents: seq<Json>, id: string, key: string): seq<Version> {
    [Version(ParamOf(stored, id, key), true)] +
    seq(|sents|, i requires 0 <= i < |sents| => Version(ParamOf(sents[i], id, key), IsAttached(sents[i], id)))
  }

  /** A good version that is followed only by versions with a dictionary. */
  predicate Survives(good: Option<Json> -> bool, history: seq<Version>, k: nat) {
    k < |history| && good(history[k].value) && forall j :: k < j < |history| ==> history[j].attached
  }

  /** The series settles on a good value exactly if some good version survives, and then on the last one. */
  lemma {:induction false} SettledIff(good: Option<Json> -> bool, history: seq<Version>)
    requires history != []
    ensures good(Settled(good, history)) <==> exists k: nat :: Survives(good, history, k)
  {
    var n := |history| - 1;
    var before := history[..n];
    if good(history[n].value) {
      assert Survives(good, history, n);
    } else if n > 0 {
      SettledIff(good, before);
      if history[n].attached && good(Settled(good, before)) {
        var k: nat :| Survives(good, before, k);
        assert Survives(good, history, k);
      }
      if k: nat :| Survives(good, history, k) {
        assert Survives(good, before, k);
      }
    }
  }

  lemma {:induction false} SettledOnTheLast(good: Option<Json> -> bool, history: seq<Version>, k: nat)
    requires Survives(good, history, k) && forall j :: k < j < |history| ==> !good(history[j].value)
    ensures Settled(good, history) == history[k].value
  {
    if k < |history| - 1 {
      var before := history[..|history| - 1];
      assert Survives(good, before, k);
      SettledOnTheLast(good, before, k);
    }
  }

  lemma HistoryGrows(stored: Json, before: seq<Json>, last: Json, id: string, key: string)
    ensures var h := History(stored, before, id, key);
            var v := ParamOf(last, id, key);
            Settled(Good(key), History(stored, before + [last], id, key)) ==
            if IsAttached(last, id) && !Good(key)(v) && Good(key)(Settled(Good(key), h)) then Settled(Good(key), h) else v
  {
    var h := History(stored, before, id, key);
    var g := History(stored, before + [last], id, key);
    assert g == h + [Version(ParamOf(last, id, key), IsAttached(last, id))];
    assert g[..|g| - 1] == h;
  }

  /** After the saves, the parameter is what its versions settle on. */
  predicate SettlesAsStated(stored: Json, sents: seq<Json>, id: string, key: string) {
    ParamOf(Saved(stored, sents), id, key) == Settled(Good(key), History(stored, sents, id, key))
  }

  lemma OneMoreSave(stored: Json, before: seq<Json>, last: Json, id: string, key: string)
    requires HasAgent(last, id) && id != "begin" && IsKept(key)
    requires SettlesAsStated(stored, before, id, key)
    ensures SettlesAsStated(stored, before + [last], id, key)
  {
    AgentAfterSave(last, Saved(stored, before), id, key);
    HistoryGrows(stored, before, last, id, key);
    assert (before + [last])[..|before|] == before;
  }

  predicate AllHaveAgent(sents: seq<Json>, id: string) {
    forall s :: s in sents ==> HasAgent(s, id)
  }

  lemma {:induction false} SavesSettle(stored: Json, sents: seq<Json>, id: string, key: string)
    requires AllHaveAgent(sents, id)
    requires id != "begin" && IsKept(key)
    ensures SettlesAsStated(stored, sents, id, key)
  {
    if sents == [] {
      NoSaves(stored, id, key);
    } else {
      var last, before := sents[|sents| - 1], sents[..|sents| - 1];
      assert sents == before + [last];
      assert AllHaveAgent(before, id) && HasAgent(last, id);
      SavesSettle(stored, before, id, key);
      OneMoreSave(stored, before, last, id, key);
    }
  }

  lemma NoSaves(stored: Json, id: string, key: string)
    ensures SettlesAsStated(stored, [], id, key)
  {
    assert History(stored, [], id, key) == [Version(ParamOf(stored, id, key), true)];
  }

  /** An agent kept in every save ends up with a good prompt, own system prompt, tools or outputs exactly
      if some good version of it was followed only by saves with a parameter dictionary, however incomplete
      those were otherwise; and with the last good version if none after it lacked the dictionary. */
  lemma AgentsKeepTheLastGood(stored: Json, sents: seq<Json>, id: string, key: string)
    requires AllHaveAgent(sents, id)
    requires id != "begin" && IsKept(key)
    ensures var h := History(stored, sents, id, key);
            var v := ParamOf(Saved(stored, sents), id, key);
            && (Good(key)(v) <==> exists k: nat :: Survives(Good(key), h, k))
            && (forall k: nat :: Survives(Good(key), h, k) && (forall j :: k < j < |h| ==> !Good(key)(h[j].value))
                  ==> v == h[k].value)
  {
    var h := History(stored, sents, id, key);
    SavesSettle(stored, sents, id, key);
    SettledIff(Good(key), h);
    forall k: nat | Survives(Good(key), h, k) && (forall j :: k < j < |h| ==> !Good(key)(h[j].value))
      ensures Settled(Good(key), h) == h[k].value
    {
      SettledOnTheLast(Good(key), h, k);
    }
  }

  // ----- The editor's forms ------------------------------------------------------------------

  /** The graph's copy of an agent's prompt is kept exactly when the form sent is not empty: what
      is written into an empty form is lost. */
  lemma FormKeepsPromptIff(node: Json, stored: seq<Json>, key: string)
    requires node.Obj? && IsAgentNode(node) && !IsBeginNode(node) && IsKept(key)
    requires var was := Lookup(stored, IdOf(node));
             was.Some? && FormIsAttached(was.value) && Good(key)(Get(FormOf(was.value), key))
    ensures Good(key)(Get(FormOf(MergeNode(node, stored)), key)) <==> FormIsAttached(node)
  {
    AgentKeysDiffer();
    var f, g := FormOf(node), FormOf(Lookup(stored, IdOf(node)).value);
    AgentReads(f, g, key);
    if FormIsAttached(node) {
      PreservedFormIsNotEmpty(f, g);
      WithFormReads(node, PreserveAgent(f, g));
    } else {
      assert FormOf(node) == [];
      assert !Good(key)(None);
    }
  }

  function AgentNode(form: seq<Field>): Json {
    Obj([Field("id", Str("Agent:1")), Field("data", Obj([Field("label", Str("Agent")), Field("form", Obj(form))]))])
  }

  /** A stored tools list that an empty form loses. */
  lemma EmptyFormLosesTools()
    ensures var stored := AgentNode([Field("tools", Arr([Str("search")]))]);
            var sent := AgentNode([]);
            MergeNode(sent, [stored]) == sent && !Truthy(Get(FormOf(MergeNode(sent, [stored])), "tools"))
  {
    var sent := AgentNode([]);
    assert "id" != "data" && "label" != "form" by {
      assert "id"[0] == 'i' && "data"[0] == 'd' && "label"[0] == 'l' && "form"[0] == 'f';
    }
    assert FormOf(sent) == [];
  }
}
