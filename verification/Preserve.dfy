/** Autosave: a saved workflow is merged with the stored one, so that an editor that
    sends incomplete forms does not wipe prompts, tools or sub-agents. */
module Preserve {
  import opened Wrappers
  import opened Text
  import opened Documents

  const PLACEHOLDER_SYS_PROMPT := "flow.sysPromptDefaultValue"

  /** A missing field reads as null. */
  function Read(fields: seq<Field>, key: string): Json {
    if Get(fields, key).None? then NULL else Get(fields, key).value
  }

  // ----- Agent and begin parameters ---------------------------------------------

  /** Whether the value, written as text, is more than white space. */
  predicate HasText(v: Option<Json>) {
    Truthy(v) && (v.value.Str? ==> Strip(v.value.s) != "")
  }

  /** A prompt: a text, or a list whose first message has a text. */
  predicate IsPrompt(v: Option<Json>) {
    match v
    case Some(Str(s)) => Strip(s) != ""
    case Some(Arr(items)) => items != [] && items[0].Obj? && HasText(Get(items[0].fields, "content"))
    case _ => false
  }

  predicate IsOwnSysPrompt(v: Option<Json>) {
    HasText(v) && (v.value.Str? ==> Strip(v.value.s) != PLACEHOLDER_SYS_PROMPT)
  }

  /** Take the stored value of a field where only the stored one is good. */
  function Restore(sent: seq<Field>, stored: seq<Field>, key: string, good: Option<Json> -> bool): seq<Field> {
    if !good(Get(sent, key)) && good(Get(stored, key)) then Put(sent, key, Read(stored, key)) else sent
  }

  function PreserveAgent(sent: seq<Field>, stored: seq<Field>): seq<Field> {
    var p1 := Restore(sent, stored, "prompts", IsPrompt);
    var p2 := Restore(p1, stored, "sys_prompt", IsOwnSysPrompt);
    var p3 := Restore(p2, stored, "tools", Truthy);
    Restore(p3, stored, "outputs", Truthy)
  }

  function PreserveBegin(sent: seq<Field>, stored: seq<Field>): seq<Field> {
    if Get(sent, "mode") == Some(Str("conversational")) && Get(stored, "mode") == Some(Str("task")) then
      var p := Put(sent, "mode", Str("task"));
      if Truthy(Get(stored, "prologue")) then Put(p, "prologue", Read(stored, "prologue")) else p
    else sent
  }

  // ----- Components ------------------------------------------------------------------

  function ComponentName(c: Json): Option<Json> {
    match c
    case Obj(fields) =>
      (match Get(fields, "obj")
       case Some(Obj(o)) => Get(o, "component_name")
       case _ => None)
    case _ => None
  }

  /** The parameter dictionary inside a component, if there is one to write to. */
  function Params(c: Json): Option<seq<Field>> {
    match c
    case Obj(fields) =>
      (match Get(fields, "obj")
       case Some(Obj(o)) =>
         (match Get(o, "params")
          case Some(Obj(p)) => Some(p)
          case _ => None)
       case _ => None)
    case _ => None
  }

  function WithParams(c: Json, p: seq<Field>): Json
    requires Params(c).Some?
  {
    var o := Get(c.fields, "obj").value.fields;
    Obj(Put(c.fields, "obj", Obj(Put(o, "params", Obj(p)))))
  }

  function ParamsOrEmpty(c: Json): seq<Field> {
    if Params(c).Some? then Params(c).value else []
  }

  /** Parameters that are not there cannot be written back: the component stays. */
  function MergeComponent(id: string, sent: Json, stored: Json): Json {
    if Params(sent).None? || !stored.Obj? then sent
    else if id == "begin" || ComponentName(sent) == Some(Str("Begin")) then
      WithParams(sent, PreserveBegin(Params(sent).value, ParamsOrEmpty(stored)))
    else if ComponentName(sent) == Some(Str("Agent")) then
      WithParams(sent, PreserveAgent(Params(sent).value, ParamsOrEmpty(stored)))
    else sent
  }

  function MergeComponents(sent: seq<Field>, stored: seq<Field>): seq<Field> {
    if sent == [] then []
    else
      var f := sent[0];
      [if Get(stored, f.key).Some? then Field(f.key, MergeComponent(f.key, f.value, Get(stored, f.key).value)) else f] +
      MergeComponents(sent[1..], stored)
  }

  // ----- Nodes -------------------------------------------------------------------------

  function IdOf(node: Json): Json {
    if node.Obj? then Read(node.fields, "id") else NULL
  }

  function Objects(items: seq<Json>): seq<Json> {
    if items == [] then []
    else (if items[0].Obj? then [items[0]] else []) + Objects(items[1..])
  }

  function Identified(nodes: seq<Json>): seq<Json> {
    if nodes == [] then []
    else (if Truthy(Some(IdOf(nodes[0]))) then [nodes[0]] else []) + Identified(nodes[1..])
  }

  /** The dictionaries in a list field of a graph. */
  function Elements(graph: seq<Field>, key: string): seq<Json> {
    match Get(graph, key)
    case Some(Arr(items)) => Objects(items)
    case _ => []
  }

  predicate IsAgentOrTool(id: Json) {
    id.Str? && ("Agent:" <= id.s || "Tool:" <= id.s)
  }

  function Ids(nodes: seq<Json>): set<Json> {
    set n | n in nodes :: IdOf(n)
  }

  /** The stored agent and tool nodes whose ids are not among `ids`. */
  function MissingNodes(ids: set<Json>, stored: seq<Json>): seq<Json> {
    if stored == [] then []
    else (if IdOf(stored[0]) !in ids && IsAgentOrTool(IdOf(stored[0])) then [stored[0]] else []) +
         MissingNodes(ids, stored[1..])
  }

  /** The stored node with the id; the last one counts. */
  function Lookup(stored: seq<Json>, id: Json): Option<Json> {
    if stored == [] then None
    else if IdOf(stored[|stored| - 1]) == id then Some(stored[|stored| - 1])
    else Lookup(stored[..|stored| - 1], id)
  }

  function DataOf(node: Json): seq<Field> {
    match node
    case Obj(fields) =>
      (match Get(fields, "data")
       case Some(Obj(d)) => d
       case _ => [])
    case _ => []
  }

  /** A form that is not a dictionary is skipped, a false one reads as empty. */
  predicate HasUsableForm(node: Json) {
    var form := Get(DataOf(node), "form");
    !Truthy(form) || form.value.Obj?
  }

  function FormOf(node: Json): seq<Field> {
    match Get(DataOf(node), "form")
    case Some(Obj(f)) => f
    case _ => []
  }

  /** An empty form is false, so what is written lands in a fresh dictionary. */
  predicate FormIsAttached(node: Json) {
    Get(DataOf(node), "form").Some? && Get(DataOf(node), "form").value.Obj? && FormOf(node) != []
  }

  function WithForm(node: Json, f: seq<Field>): Json
    requires node.Obj?
  {
    Obj(Put(node.fields, "data", Obj(Put(DataOf(node), "form", Obj(f)))))
  }

  predicate IsBeginNode(node: Json) {
    IdOf(node) == Str("begin") || Get(DataOf(node), "label") == Some(Str("Begin"))
  }

  predicate IsAgentNode(node: Json) {
    Get(DataOf(node), "label") == Some(Str("Agent")) || (IdOf(node).Str? && "Agent:" <= IdOf(node).s)
  }

  function MergeNode(node: Json, stored: seq<Json>): Json {
    var was := Lookup(stored, IdOf(node));
    if !node.Obj? || was.None? || !FormIsAttached(node) || !HasUsableForm(was.value) then node
    else if IsBeginNode(node) then WithForm(node, PreserveBegin(FormOf(node), FormOf(was.value)))
    else if IsAgentNode(node) then WithForm(node, PreserveAgent(FormOf(node), FormOf(was.value)))
    else node
  }

  function MergeNodes(nodes: seq<Json>, stored: seq<Json>): seq<Json> {
    if nodes == [] then [] else [MergeNode(nodes[0], stored)] + MergeNodes(nodes[1..], stored)
  }

  // ----- Edges --------------------------------------------------------------------------

  datatype EdgeKey = EdgeKey(source: Json, target: Json, sourceHandle: Json, targetHandle: Json)

  function KeyOf(edge: Json): EdgeKey {
    if edge.Obj? then
      EdgeKey(Read(edge.fields, "source"), Read(edge.fields, "target"),
              Read(edge.fields, "sourceHandle"), Read(edge.fields, "targetHandle"))
    else EdgeKey(NULL, NULL, NULL, NULL)
  }

  function EdgeKeys(edges: seq<Json>): set<EdgeKey> {
    set e | e in edges :: KeyOf(e)
  }

  function MissingEdges(keys: set<EdgeKey>, stored: seq<Json>): seq<Json> {
    if stored == [] then []
    else (if KeyOf(stored[0]) !in keys then [stored[0]] else []) + MissingEdges(keys, stored[1..])
  }

  // ----- The graph and the document ---------------------------------------------------------

  function StoredNodes(graph: seq<Field>): seq<Json> {
    Identified(Elements(graph, "nodes"))
  }

  function MergeGraph(sent: seq<Field>, stored: seq<Field>): seq<Field> {
    var nodes := Elements(sent, "nodes");
    var edges := Elements(sent, "edges");
    var allNodes := nodes + MissingNodes(Ids(nodes), StoredNodes(stored));
    var allEdges := edges + MissingEdges(EdgeKeys(edges), Elements(stored, "edges"));
    Put(Put(sent, "nodes", Arr(MergeNodes(allNodes, StoredNodes(stored)))), "edges", Arr(allEdges))
  }

  function GraphOf(dsl: seq<Field>): seq<Field> {
    match Get(dsl, "graph")
    case Some(Obj(g)) => g
    case _ => []
  }

  function PreserveComponents(sent: seq<Field>, stored: seq<Field>): seq<Field> {
    match (Get(sent, "components"), Get(stored, "components"))
    case (Some(Obj(n)), Some(Obj(s))) => Put(sent, "components", Obj(MergeComponents(n, s)))
    case _ => sent
  }

  /** A missing graph starts empty; a graph that is no dictionary is left alone. */
  function PreserveGraph(sent: seq<Field>, stored: seq<Field>): seq<Field> {
    match Get(sent, "graph")
    case None => Put(sent, "graph", Obj(MergeGraph([], GraphOf(stored))))
    case Some(Obj(g)) => Put(sent, "graph", Obj(MergeGraph(g, GraphOf(stored))))
    case _ => sent
  }

  function Merge(sent: Json, stored: Json): Json {
    if sent.Obj? && stored.Obj?
    then Obj(PreserveGraph(PreserveComponents(sent.fields, stored.fields), stored.fields))
    else sent
  }
}
