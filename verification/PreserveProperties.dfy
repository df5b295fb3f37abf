/** What an autosave keeps. */
module PreserveProperties {
  import opened Wrappers
  import opened Documents
  import opened Preserve

  // ----- Parameters -------------------------------------------------------------

  lemma AgentKeysDiffer()
    ensures "prompts" != "sys_prompt" && "prompts" != "tools" && "prompts" != "outputs"
    ensures "sys_prompt" != "tools" && "sys_prompt" != "outputs" && "tools" != "outputs"
  {
    assert "prompts"[0] == 'p' && "sys_prompt"[0] == 's' && "tools"[0] == 't' && "outputs"[0] == 'o';
  }

  /** A restored field is good if either version of it is, and nothing else changes. */
  lemma RestoreReads(sent: seq<Field>, stored: seq<Field>, key: string, good: Option<Json> -> bool, other: string)
    requires !good(None)
    ensures Get(Restore(sent, stored, key, good), other) ==
            if other == key && !good(Get(sent, key)) && good(Get(stored, key)) then Get(stored, key) else Get(sent, other)
  {
    GetPut(sent, key, Read(stored, key), other);
  }

  function Choose(sent: Option<Json>, stored: Option<Json>, good: Option<Json> -> bool): Option<Json> {
    if !good(sent) && good(stored) then stored else sent
  }

  /** An agent's parameters after a save, field by field. */
  lemma AgentReads(sent: seq<Field>, stored: seq<Field>, key: string)
    ensures Get(PreserveAgent(sent, stored), key) ==
            if key == "prompts" then Choose(Get(sent, key), Get(stored, key), IsPrompt)
            else if key == "sys_prompt" then Choose(Get(sent, key), Get(stored, key), IsOwnSysPrompt)
            else if key == "tools" || key == "outputs" then Choose(Get(sent, key), Get(stored, key), Truthy)
            else Get(sent, key)
  {
    AgentKeysDiffer();
    var p1 := Restore(sent, stored, "prompts", IsPrompt);
    var p2 := Restore(p1, stored, "sys_prompt", IsOwnSysPrompt);
    var p3 := Restore(p2, stored, "tools", Truthy);
    RestoreReads(sent, stored, "prompts", IsPrompt, key);
    RestoreReads(p1, stored, "sys_prompt", IsOwnSysPrompt, key);
    RestoreReads(p2, stored, "tools", Truthy, key);
    RestoreReads(p3, stored, "outputs", Truthy, key);
    RestoreReads(sent, stored, "prompts", IsPrompt, "sys_prompt");
    RestoreReads(sent, stored, "prompts", IsPrompt, "tools");
    RestoreReads(sent, stored, "prompts", IsPrompt, "outputs");
    RestoreReads(p1, stored, "sys_prompt", IsOwnSysPrompt, "tools");
    RestoreReads(p1, stored, "sys_prompt", IsOwnSysPrompt, "outputs");
    RestoreReads(p2, stored, "tools", Truthy, "outputs");
  }

  lemma AgentTwice(sent: seq<Field>, stored: seq<Field>)
    ensures PreserveAgent(PreserveAgent(sent, stored), stored) == PreserveAgent(sent, stored)
  {
    AgentReads(sent, stored, "prompts");
    AgentReads(sent, stored, "sys_prompt");
    AgentReads(sent, stored, "tools");
    AgentReads(sent, stored, "outputs");
    AgentKeysDiffer();
  }

  lemma BeginTwice(sent: seq<Field>, stored: seq<Field>)
    ensures PreserveBegin(PreserveBegin(sent, stored), stored) == PreserveBegin(sent, stored)
  {
    assert "mode" != "prologue" && "task" != "conversational" by {
      assert "mode"[0] == 'm' && "prologue"[0] == 'p' && "task"[0] == 't' && "conversational"[0] == 'c';
    }
    var p := Put(sent, "mode", Str("task"));
    GetPut(sent, "mode", Str("task"), "mode");
    GetPut(p, "prologue", Read(stored, "prologue"), "mode");
  }

  // ----- Components ------------------------------------------------------------------

  lemma WithParamsReads(c: Json, p: seq<Field>)
    requires Params(c).Some?
    ensures Params(WithParams(c, p)) == Some(p)
    ensures ComponentName(WithParams(c, p)) == ComponentName(c)
    ensures forall q :: WithParams(WithParams(c, p), q) == WithParams(c, q)
  {
    assert "params" != "component_name" by { assert "params"[0] == 'p' && "component_name"[0] == 'c'; }
    var o := Get(c.fields, "obj").value.fields;
    GetPut(c.fields, "obj", Obj(Put(o, "params", Obj(p))), "obj");
    GetPut(o, "params", Obj(p), "params");
    GetPut(o, "params", Obj(p), "component_name");
    forall q ensures WithParams(WithParams(c, p), q) == WithParams(c, q) {
      PutTwice(o, "params", Obj(p), Obj(q));
      PutTwice(c.fields, "obj", Obj(Put(o, "params", Obj(p))), Obj(Put(o, "params", Obj(q))));
    }
  }

  lemma {:induction false} PutTwice(fields: seq<Field>, key: string, v: Json, w: Json)
    ensures Put(Put(fields, key, v), key, w) == Put(fields, key, w)
  {
    if fields != [] && fields[0].key != key {
      PutTwice(fields[1..], key, v, w);
    }
  }

  lemma ComponentTwice(id: string, sent: Json, stored: Json)
    ensures MergeComponent(id, MergeComponent(id, sent, stored), stored) == MergeComponent(id, sent, stored)
  {
    if Params(sent).Some? && stored.Obj? {
      var p, q := Params(sent).value, ParamsOrEmpty(stored);
      AgentTwice(p, q);
      BeginTwice(p, q);
      WithParamsReads(sent, PreserveBegin(p, q));
      WithParamsReads(sent, PreserveAgent(p, q));
    }
  }

  lemma {:induction false} ComponentsTwice(sent: seq<Field>, stored: seq<Field>)
    ensures MergeComponents(MergeComponents(sent, stored), stored) == MergeComponents(sent, stored)
  {
    if sent != [] {
      ComponentsTwice(sent[1..], stored);
      if Get(stored, sent[0].key).Some? {
        ComponentTwice(sent[0].key, sent[0].value, Get(stored, sent[0].key).value);
      }
    }
  }

  lemma {:induction false} MergedComponent(sent: seq<Field>, stored: seq<Field>, id: string)
    ensures Get(MergeComponents(sent, stored), id) ==
            if Get(sent, id).Some? && Get(stored, id).Some?
            then Some(MergeComponent(id, Get(sent, id).value, Get(stored, id).value)) else Get(sent, id)
  {
    if sent != [] && sent[0].key != id {
      MergedComponent(sent[1..], stored, id);
    }
  }

  // ----- Nodes --------------------------------------------------------------------------

  lemma WithFormReads(node: Json, f: seq<Field>)
    requires node.Obj? && f != []
    ensures var n := WithForm(node, f);
            && n.Obj? && IdOf(n) == IdOf(node)
            && Get(DataOf(n), "label") == Get(DataOf(node), "label")
            && FormOf(n) == f && FormIsAttached(n)
            && forall h :: WithForm(n, h) == WithForm(node, h)
  {
    assert "id" != "data" && "label" != "form" by {
      assert "id"[0] == 'i' && "data"[0] == 'd' && "label"[0] == 'l' && "form"[0] == 'f';
    }
    var d := DataOf(node);
    GetPut(node.fields, "data", Obj(Put(d, "form", Obj(f))), "id");
    GetPut(node.fields, "data", Obj(Put(d, "form", Obj(f))), "data");
    GetPut(d, "form", Obj(f), "label");
    GetPut(d, "form", Obj(f), "form");
    forall h ensures WithForm(WithForm(node, f), h) == WithForm(node, h) {
      PutTwice(d, "form", Obj(f), Obj(h));
      PutTwice(node.fields, "data", Obj(Put(d, "form", Obj(f))), Obj(Put(d, "form", Obj(h))));
    }
  }

  lemma PreservedFormIsNotEmpty(sent: seq<Field>, stored: seq<Field>)
    requires sent != []
    ensures PreserveAgent(sent, stored) != [] && PreserveBegin(sent, stored) != []
  {
  }

  /** Writing into an attached form what a second merge leaves as it is. */
  lemma PatchedNode(node: Json, f: seq<Field>)
    requires node.Obj? && f != [] && FormIsAttached(node)
    ensures var n := WithForm(node, f);
            && n.Obj? && IdOf(n) == IdOf(node) && FormOf(n) == f && FormIsAttached(n)
            && IsBeginNode(n) == IsBeginNode(node) && IsAgentNode(n) == IsAgentNode(node)
            && WithForm(n, f) == n
  {
    WithFormReads(node, f);
  }

  lemma NodeTwice(node: Json, stored: seq<Json>)
    ensures var n := MergeNode(node, stored);
            && MergeNode(n, stored) == n && IdOf(n) == IdOf(node) && n.Obj? == node.Obj?
  {
    var was := Lookup(stored, IdOf(node));
    if node.Obj? && was.Some? && FormIsAttached(node) && HasUsableForm(was.value) {
      var f, g := FormOf(node), FormOf(was.value);
      PreservedFormIsNotEmpty(f, g);
      if IsBeginNode(node) {
        BeginTwice(f, g);
        PatchedNode(node, PreserveBegin(f, g));
      } else if IsAgentNode(node) {
        AgentTwice(f, g);
        PatchedNode(node, PreserveAgent(f, g));
      }
    }
  }

  lemma {:induction false} NodesTwice(nodes: seq<Json>, stored: seq<Json>)
    requires forall n :: n in nodes ==> n.Obj?
    ensures var r := MergeNodes(nodes, stored);
            && MergeNodes(r, stored) == r && Ids(r) == Ids(nodes) && Objects(r) == r
  {
    if nodes != [] {
      NodeTwice(nodes[0], stored);
      assert nodes[0] in nodes;
      NodesTwice(nodes[1..], stored);
      var r := MergeNodes(nodes, stored);
      assert Ids(nodes) == {IdOf(nodes[0])} + Ids(nodes[1..]) by { assert nodes == [nodes[0]] + nodes[1..]; }
      assert Ids(r) == {IdOf(r[0])} + Ids(r[1..]) by { assert r == [r[0]] + r[1..]; }
    }
  }

  lemma {:induction false} ObjectsAreObjects(items: seq<Json>)
    ensures forall n :: n in Objects(items) ==> n.Obj?
    ensures (forall n :: n in items ==> n.Obj?) ==> Objects(items) == items
  {
    if items != [] {
      ObjectsAreObjects(items[1..]);
      assert items[0] in items;
    }
  }

  lemma {:induction false} IdentifiedAreElements(nodes: seq<Json>)
    ensures forall n :: n in Identified(nodes) <==> n in nodes && Truthy(Some(IdOf(n)))
  {
    if nodes != [] {
      IdentifiedAreElements(nodes[1..]);
      assert nodes == [nodes[0]] + nodes[1..];
    }
  }

  lemma {:induction false} MissingNodesAre(ids: set<Json>, stored: seq<Json>)
    ensures forall n :: n in MissingNodes(ids, stored) <==> n in stored && IdOf(n) !in ids && IsAgentOrTool(IdOf(n))
  {
    if stored != [] {
      MissingNodesAre(ids, stored[1..]);
      assert stored == [stored[0]] + stored[1..];
    }
  }

  lemma {:induction false} NothingMissing(ids: set<Json>, stored: seq<Json>)
    requires forall n :: n in stored && IsAgentOrTool(IdOf(n)) ==> IdOf(n) in ids
    ensures MissingNodes(ids, stored) == []
  {
    if stored != [] {
      assert stored[0] in stored;
      NothingMissing(ids, stored[1..]);
    }
  }

  lemma {:induction false} MissingEdgesAre(keys: set<EdgeKey>, stored: seq<Json>)
    ensures forall e :: e in MissingEdges(keys, stored) <==> e in stored && KeyOf(e) !in keys
  {
    if stored != [] {
      MissingEdgesAre(keys, stored[1..]);
      assert stored == [stored[0]] + stored[1..];
    }
  }

  lemma {:induction false} NoEdgeMissing(keys: set<EdgeKey>, stored: seq<Json>)
    requires forall e :: e in stored ==> KeyOf(e) in keys
    ensures MissingEdges(keys, stored) == []
  {
    if stored != [] {
      assert stored[0] in stored;
      NoEdgeMissing(keys, stored[1..]);
    }
  }
}
