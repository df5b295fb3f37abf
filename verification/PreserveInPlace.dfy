/** The merge as the program does it: dictionaries updated field by field, lists appended to. */
module PreserveInPlace {
  import opened Wrappers
  import opened Documents
  import opened Preserve

  /** A parameter dictionary. */
  class ParamTable {
    var fields: seq<Field>

    constructor (fields: seq<Field>)
      ensures this.fields == fields
    {
      this.fields := fields;
    }

    /** The stored table may be this very one: a node put back is merged with itself. */
    method PreserveAgent(stored: ParamTable)
      modifies this
      ensures fields == Preserve.PreserveAgent(old(fields), old(stored.fields))
    {
      if !IsPrompt(Get(fields, "prompts")) && IsPrompt(Get(stored.fields, "prompts")) {
        fields := Put(fields, "prompts", Read(stored.fields, "prompts"));
      }
      if !IsOwnSysPrompt(Get(fields, "sys_prompt")) && IsOwnSysPrompt(Get(stored.fields, "sys_prompt")) {
        fields := Put(fields, "sys_prompt", Read(stored.fields, "sys_prompt"));
      }
      if !Truthy(Get(fields, "tools")) && Truthy(Get(stored.fields, "tools")) {
        fields := Put(fields, "tools", Read(stored.fields, "tools"));
      }
      if !Truthy(Get(fields, "outputs")) && Truthy(Get(stored.fields, "outputs")) {
        fields := Put(fields, "outputs", Read(stored.fields, "outputs"));
      }
    }

    method PreserveBegin(stored: ParamTable)
      modifies this
      ensures fields == Preserve.PreserveBegin(old(fields), old(stored.fields))
    {
      if Get(fields, "mode") == Some(Str("conversational")) && Get(stored.fields, "mode") == Some(Str("task")) {
        assert this != stored by { assert "conversational"[0] == 'c' && "task"[0] == 't'; }
        fields := Put(fields, "mode", Str("task"));
        if Truthy(Get(stored.fields, "prologue")) {
          fields := Put(fields, "prologue", Read(stored.fields, "prologue"));
        }
      }
    }
  }

  lemma {:induction false} MissingNodesSnoc(ids: set<Json>, stored: seq<Json>, n: Json)
    ensures MissingNodes(ids, stored + [n]) ==
            MissingNodes(ids, stored) + if IdOf(n) !in ids && IsAgentOrTool(IdOf(n)) then [n] else []
  {
    if stored == [] {
      assert stored + [n] == [n];
    } else {
      assert (stored + [n])[1..] == stored[1..] + [n];
      MissingNodesSnoc(ids, stored[1..], n);
    }
  }

  lemma {:induction false} MissingEdgesSnoc(keys: set<EdgeKey>, stored: seq<Json>, e: Json)
    ensures MissingEdges(keys, stored + [e]) == MissingEdges(keys, stored) + if KeyOf(e) !in keys then [e] else []
  {
    if stored == [] {
      assert stored + [e] == [e];
    } else {
      assert (stored + [e])[1..] == stored[1..] + [e];
      MissingEdgesSnoc(keys, stored[1..], e);
    }
  }

  lemma {:induction false} MergeNodesAt(nodes: seq<Json>, stored: seq<Json>, k: nat)
    requires k < |nodes|
    ensures |MergeNodes(nodes, stored)| == |nodes| && MergeNodes(nodes, stored)[k] == MergeNode(nodes[k], stored)
  {
    if k > 0 {
      MergeNodesAt(nodes[1..], stored, k - 1);
    } else if |nodes| > 1 {
      MergeNodesAt(nodes[1..], stored, 0);
    }
  }

  /** The set of ids is taken before the loop and not updated in it. */
  method AppendMissingNodes(nodes: seq<Json>, stored: seq<Json>) returns (all: seq<Json>)
    ensures all == nodes + MissingNodes(Ids(nodes), stored)
  {
    var ids := set n | n in nodes :: IdOf(n);
    all := nodes;
    for i := 0 to |stored|
      invariant all == nodes + MissingNodes(ids, stored[..i])
    {
      MissingNodesSnoc(ids, stored[..i], stored[i]);
      assert stored[..i + 1] == stored[..i] + [stored[i]];
      if IdOf(stored[i]) in ids {
        continue;
      }
      if IsAgentOrTool(IdOf(stored[i])) {
        all := all + [stored[i]];
      }
    }
    assert stored[..|stored|] == stored;
  }

  method AppendMissingEdges(edges: seq<Json>, stored: seq<Json>) returns (all: seq<Json>)
    ensures all == edges + MissingEdges(EdgeKeys(edges), stored)
  {
    var existing := set e | e in edges :: KeyOf(e);
    all := edges;
    for i := 0 to |stored|
      invariant all == edges + MissingEdges(existing, stored[..i])
    {
      MissingEdgesSnoc(existing, stored[..i], stored[i]);
      assert stored[..i + 1] == stored[..i] + [stored[i]];
      if KeyOf(stored[i]) !in existing {
        all := all + [stored[i]];
      }
    }
    assert stored[..|stored|] == stored;
  }

  method PatchForm(node: Json, stored: seq<Json>) returns (patched: Json)
    ensures patched == MergeNode(node, stored)
  {
    var found := Lookup(stored, IdOf(node));
    if !node.Obj? || found.None? || !FormIsAttached(node) || !HasUsableForm(found.value) {
      return node;
    }
    var form := new ParamTable(FormOf(node));
    var storedForm := new ParamTable(FormOf(found.value));
    if IsBeginNode(node) {
      form.PreserveBegin(storedForm);
      return WithForm(node, form.fields);
    }
    if IsAgentNode(node) {
      form.PreserveAgent(storedForm);
      return WithForm(node, form.fields);
    }
    return node;
  }

  /** Each node is patched where it stands. */
  method PatchForms(nodes: array<Json>, stored: seq<Json>)
    modifies nodes
    ensures nodes[..] == MergeNodes(old(nodes[..]), stored)
  {
    ghost var was := nodes[..];
    for i := 0 to nodes.Length
      invariant forall k :: 0 <= k < i ==> nodes[k] == MergeNode(was[k], stored)
      invariant forall k :: i <= k < nodes.Length ==> nodes[k] == was[k]
    {
      var patched := PatchForm(nodes[i], stored);
      nodes[i] := patched;
    }
    forall k | 0 <= k < |was| ensures |MergeNodes(was, stored)| == |was| && nodes[..][k] == MergeNodes(was, stored)[k] {
      MergeNodesAt(was, stored, k);
    }
    assert |was| == 0 ==> MergeNodes(was, stored) == [];
  }

  lemma {:induction false} MergeComponentsSnoc(sent: seq<Field>, stored: seq<Field>, f: Field)
    ensures MergeComponents(sent + [f], stored) == MergeComponents(sent, stored) + MergeComponents([f], stored)
  {
    if sent == [] {
      assert sent + [f] == [f];
    } else {
      assert (sent + [f])[1..] == sent[1..] + [f];
      MergeComponentsSnoc(sent[1..], stored, f);
    }
  }

  /** A workflow document sent by the editor. */
  class Workflow {
    var fields: seq<Field>

    constructor (fields: seq<Field>)
      ensures this.fields == fields
    {
      this.fields := fields;
    }

    method PatchComponent(id: string, sent: Json, stored: Json) returns (patched: Json)
      ensures patched == MergeComponent(id, sent, stored)
    {
      if !stored.Obj? || Params(sent).None? {
        return sent;
      }
      var params := new ParamTable(Params(sent).value);
      var storedParams := new ParamTable(ParamsOrEmpty(stored));
      if id == "begin" || ComponentName(sent) == Some(Str("Begin")) {
        params.PreserveBegin(storedParams);
        return WithParams(sent, params.fields);
      }
      if ComponentName(sent) == Some(Str("Agent")) {
        params.PreserveAgent(storedParams);
        return WithParams(sent, params.fields);
      }
      return sent;
    }

    method PatchComponents(sent: seq<Field>, stored: seq<Field>) returns (merged: seq<Field>)
      ensures merged == MergeComponents(sent, stored)
    {
      merged := [];
      for i := 0 to |sent|
        invariant merged == MergeComponents(sent[..i], stored)
      {
        var f := sent[i];
        MergeComponentsSnoc(sent[..i], stored, f);
        assert sent[..i + 1] == sent[..i] + [f];
        if Get(stored, f.key).None? {
          merged := merged + [f];
        } else {
          var patched := PatchComponent(f.key, f.value, Get(stored, f.key).value);
          merged := merged + [Field(f.key, patched)];
        }
      }
      assert sent[..|sent|] == sent;
    }

    method PatchGraph(stored: seq<Field>)
      modifies this
      ensures fields == PreserveGraph(old(fields), stored)
    {
      if Get(fields, "graph").Some? && !Get(fields, "graph").value.Obj? {
        return;
      }
      var graph, storedGraph := GraphOf(fields), GraphOf(stored);
      var storedNodes := StoredNodes(storedGraph);
      var all := AppendMissingNodes(Elements(graph, "nodes"), storedNodes);
      var nodes := new Json[|all|](i requires 0 <= i < |all| => all[i]);
      assert nodes[..] == all;
      PatchForms(nodes, storedNodes);
      var edges := AppendMissingEdges(Elements(graph, "edges"), Elements(storedGraph, "edges"));
      graph := Put(graph, "nodes", Arr(nodes[..]));
      graph := Put(graph, "edges", Arr(edges));
      fields := Put(fields, "graph", Obj(graph));
    }

    /** The document becomes the merge of itself with the stored one. */
    method MergeWith(stored: seq<Field>)
      modifies this
      ensures Obj(fields) == Merge(Obj(old(fields)), Obj(stored))
    {
      match (Get(fields, "components"), Get(stored, "components")) {
        case (Some(Obj(sentOnes)), Some(Obj(storedOnes))) => {
          var merged := PatchComponents(sentOnes, storedOnes);
          fields := Put(fields, "components", Obj(merged));
        }
        case _ =>
      }
      PatchGraph(stored);
    }
  }
}
