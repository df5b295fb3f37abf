/** The canvas executor: one run schedules a workflow graph in waves over a growing
    path. Components are oracles: what they output, whether they fail and where they
    send control is given by a World, indexed by the path position that ran. */
module CanvasRun {
  import opened Wrappers

  type Id = string

  datatype Kind =
    | Begin | UserFillUp | Message | IterationItem | LoopItem
    | Categorize | Switch | Iteration | Loop | ExitLoop | Plain

  /** `refs` are the component ids its inputs refer to (empty for system variables),
      `start` the item a container begins with. */
  datatype Component = Component(kind: Kind, refs: seq<Id>, downstream: seq<Id>, parent: Option<Id>, start: Id)

  type Graph = map<Id, Component>

  predicate IsContainer(k: Kind) {
    k.Iteration? || k.Loop?
  }

  predicate IsItem(k: Kind) {
    k.IterationItem? || k.LoopItem?
  }

  /** Parents exist and are containers; items and loop exits have one. */
  ghost predicate WellFormed(g: Graph) {
    && (forall id :: id in g && g[id].parent.Some? ==>
          g[id].parent.value in g && IsContainer(g[g[id].parent.value].kind))
    && (forall id :: id in g && (IsItem(g[id].kind) || g[id].kind.ExitLoop?) ==> g[id].parent.Some?)
  }

  /** How one invocation ended: an error with an optional goto list or default value,
      the branch chosen by a categorize or switch, whether the content is still a
      stream, and whether an iteration or loop item is done. */
  datatype Outcome = Outcome(
    failed: bool, goto: seq<Id>, fallback: bool, chosen: seq<Id>, streaming: bool, ended: bool)

  /** `live(i, id)`: the content of `id` is still a stream when position i is settled.
      `satisfied(i)`: no waiting form lacks an answer when the wave ending at i is over.
      `namesFillUp(id)`: the id contains the type name of the waiting forms. */
  datatype World = World(
    outcome: (nat, Id) -> Outcome, live: (nat, Id) -> bool, satisfied: nat -> bool,
    namesFillUp: Id -> bool)

  datatype Cause = Own | Late | OfItem

  datatype Event =
    | Started(id: Id)
    | Shown
    | ShownEnd
    | Finished(id: Id, at: nat, cause: Cause)
    | UserInputs
    | WorkflowFinished

  datatype RunState = RunState(path: seq<Id>, partials: seq<Id>, failed: bool, events: seq<Event>)

  // ----- The batch: dropping components whose inputs are not ready ----------

  predicate AlwaysRuns(k: Kind) {
    k.Begin? || k.UserFillUp?
  }

  predicate Resumed(w: World, path: seq<Id>) {
    path != [] && w.namesFillUp(path[0])
  }

  predicate RefsReady(refs: seq<Id>, before: seq<Id>) {
    forall r | r in refs :: r == "" || r in before
  }

  /** Whether the head of `batch` is kept when `before` is the path in front of it. */
  predicate Ready(g: Graph, w: World, before: seq<Id>, batch: seq<Id>)
    requires batch != [] && batch[0] in g
  {
    var c := g[batch[0]];
    AlwaysRuns(c.kind) || Resumed(w, before + batch) || RefsReady(c.refs, before)
  }

  predicate Known(g: Graph, ids: seq<Id>) {
    forall id | id in ids :: id in g
  }

  function Kept(g: Graph, w: World, before: seq<Id>, batch: seq<Id>): seq<Id>
    requires Known(g, batch)
    decreases |batch|
  {
    if batch == [] then []
    else if Ready(g, w, before, batch) then
      [batch[0]] + Kept(g, w, before + [batch[0]], batch[1..])
    else Kept(g, w, before, batch[1..])
  }

  // ----- Settling one position after its wave has run ------------------------

  function Flush(w: World, i: nat, s: RunState): RunState
    decreases |s.partials|
  {
    if s.partials == [] || w.live(i, s.partials[0]) then s
    else Flush(w, i, s.(partials := s.partials[1..],
                        events := s.events + [Finished(s.partials[0], i, Late)]))
  }

  predicate Redirects(o: Outcome) {
    o.failed && o.goto != []
  }

  function HandleError(s: RunState, o: Outcome): RunState {
    if !o.failed then s
    else if o.goto != [] then s.(path := s.path + o.goto)
    else if o.fallback then s.(events := s.events + [Shown, ShownEnd])
    else s.(failed := true)
  }

  function Report(s: RunState, c: Component, id: Id, i: nat, o: Outcome): RunState {
    if IsContainer(c.kind) then s
    else if o.streaming && !s.failed then s.(partials := s.partials + [id])
    else s.(events := s.events + [Finished(id, i, Own)])
  }

  /** Where control goes after a component that was not redirected by an error. */
  function Route(g: Graph, c: Component, o: Outcome): seq<Id>
    requires WellFormed(g) && c in g.Values
  {
    if IsItem(c.kind) && o.ended then g[c.parent.value].downstream
    else if c.kind.Categorize? || c.kind.Switch? then o.chosen
    else if IsContainer(c.kind) then [c.start]
    else if c.kind.ExitLoop? && g[c.parent.value].kind.Loop? then g[c.parent.value].downstream
    else if c.downstream == [] && c.parent.Some? then [g[c.parent.value].start]
    else c.downstream
  }

  /** Append each id unless it is already the last one on the path. */
  function AppendAll(path: seq<Id>, ids: seq<Id>): seq<Id>
    decreases |ids|
  {
    if ids == [] then path
    else AppendAll(if path != [] && path[|path| - 1] == ids[0] then path else path + [ids[0]], ids[1..])
  }

  function Follow(g: Graph, s: RunState, c: Component, i: nat, o: Outcome): RunState
    requires WellFormed(g) && c in g.Values
  {
    var s1 := if IsItem(c.kind) && o.ended then
                s.(events := s.events + [Finished(c.parent.value, i, OfItem)])
              else s;
    if Redirects(o) then s1 else s1.(path := AppendAll(s1.path, Route(g, c, o)))
  }

  function Settle(g: Graph, w: World, s: RunState, i: nat): RunState
    requires WellFormed(g) && i < |s.path| && s.path[i] in g
  {
    var id := s.path[i];
    var c := g[id];
    var o := w.outcome(i, id);
    var s1 := if c.kind.Message? then Flush(w, i, s.(events := s.events + [Shown, ShownEnd])) else s;
    Follow(g, Report(HandleError(s1, o), c, id, i, o), c, i, o)
  }

  lemma SettleKeepsPath(g: Graph, w: World, s: RunState, i: nat)
    requires WellFormed(g) && i < |s.path| && s.path[i] in g
    ensures s.path <= Settle(g, w, s, i).path
  {
    var id := s.path[i];
    var o := w.outcome(i, id);
    var s0 := s.(events := s.events + [Shown, ShownEnd]);
    FlushKeepsPath(w, i, s0);
    var s1 := if g[id].kind.Message? then Flush(w, i, s0) else s;
    AppendAllExtends(HandleError(s1, o).path, Route(g, g[id], o));
  }

  lemma {:induction false} FlushKeepsPath(w: World, i: nat, s: RunState)
    ensures Flush(w, i, s).path == s.path && Flush(w, i, s).failed == s.failed
    decreases |s.partials|
  {
    if s.partials != [] && !w.live(i, s.partials[0]) {
      FlushKeepsPath(w, i, s.(partials := s.partials[1..],
                              events := s.events + [Finished(s.partials[0], i, Late)]));
    }
  }

  lemma {:induction false} AppendAllExtends(path: seq<Id>, ids: seq<Id>)
    ensures path <= AppendAll(path, ids)
    ensures forall p :: |path| <= p < |AppendAll(path, ids)| ==> AppendAll(path, ids)[p] in ids
    decreases |ids|
  {
    if ids != [] {
      var path' := if path != [] && path[|path| - 1] == ids[0] then path else path + [ids[0]];
      AppendAllExtends(path', ids[1..]);
    }
  }

  /** Settle positions i, i+1, ... up to `end`, all of which are known components. */
  function SettleAll(g: Graph, w: World, s: RunState, i: nat, end: nat): (r: RunState)
    requires WellFormed(g) && i <= end <= |s.path| && Known(g, s.path[i..end])
    ensures |s.path| <= |r.path|
    decreases end - i
  {
    if i == end then s
    else
      assert s.path[i] == s.path[i..end][0];
      SettleKeepsPath(g, w, s, i);
      var s' := Settle(g, w, s, i);
      assert s'.path[i + 1..end] == s.path[i..end][1..];
      SettleAll(g, w, s', i + 1, end)
  }

  lemma {:induction false} SettleAllKeepsPath(g: Graph, w: World, s: RunState, i: nat, end: nat)
    requires WellFormed(g) && i <= end <= |s.path| && Known(g, s.path[i..end])
    ensures s.path <= SettleAll(g, w, s, i, end).path
    decreases end - i
  {
    if i < end {
      assert s.path[i] == s.path[i..end][0];
      SettleKeepsPath(g, w, s, i);
      var s' := Settle(g, w, s, i);
      assert s'.path[i + 1..end] == s.path[i..end][1..];
      SettleAllKeepsPath(g, w, s', i + 1, end);
    }
  }

  // ----- Waves --------------------------------------------------------------

  function StartedEvents(g: Graph, pending: seq<Id>): seq<Event> {
    if pending == [] || pending[0] !in g then []
    else [Started(pending[0])] + StartedEvents(g, pending[1..])
  }

  predicate IsFillUp(g: Graph, id: Id) {
    id in g && g[id].kind.UserFillUp?
  }

  predicate HasFillUp(g: Graph, ids: seq<Id>) {
    exists id | id in ids :: IsFillUp(g, id)
  }

  function FillUps(g: Graph, ids: seq<Id>): seq<Id> {
    if ids == [] then []
    else (if IsFillUp(g, ids[0]) then [ids[0]] else []) + FillUps(g, ids[1..])
  }

  function Others(g: Graph, ids: seq<Id>): seq<Id> {
    if ids == [] then []
    else (if ids[0] in g && !IsFillUp(g, ids[0]) then [ids[0]] else []) + Others(g, ids[1..])
  }

  /** The path saved when the run waits for the user. */
  function Saved(g: Graph, pending: seq<Id>): seq<Id> {
    FillUps(g, pending) + Others(g, pending)
  }

  datatype Config = Config(s: RunState, idx: nat)

  datatype Result = Completed | Errored | Suspended | Crashed | Cancelled

  datatype Verdict = Continue(next: Config) | Stop(result: Result, s: RunState)

  /** The path once the wave's batch has been filtered. */
  function Batch(g: Graph, w: World, path: seq<Id>, idx: nat): seq<Id>
    requires idx <= |path| && Known(g, path[idx..])
  {
    path[..idx] + Kept(g, w, path[..idx], path[idx..])
  }

  /** The state once the kept components of a wave have run and been settled. */
  function Surge(g: Graph, w: World, c: Config): (s: RunState)
    requires WellFormed(g) && c.idx <= |c.s.path| && Known(g, c.s.path[c.idx..])
    ensures |Batch(g, w, c.s.path, c.idx)| <= |s.path|
  {
    var pending := c.s.path[c.idx..];
    var path := Batch(g, w, c.s.path, c.idx);
    KeptWasPending(g, w, c.s.path[..c.idx], pending);
    assert path[c.idx..] == Kept(g, w, c.s.path[..c.idx], pending);
    SettleAll(g, w, c.s.(path := path, events := c.s.events + StartedEvents(g, pending)), c.idx, |path|)
  }

  /** One wave. An id that is no component raises; the cancel flag, seen after the
      start events, raises and leaves the path as it is. */
  function Wave(g: Graph, w: World, c: Config, cancelled: bool): (v: Verdict)
    requires WellFormed(g) && c.idx < |c.s.path|
    ensures v.Continue? ==> v.next.idx <= |v.next.s.path|
  {
    var pending := c.s.path[c.idx..];
    if !Known(g, pending) || cancelled then
      Stop(if !Known(g, pending) then Crashed else Cancelled,
           c.s.(events := c.s.events + StartedEvents(g, pending)))
    else
      var s := Surge(g, w, c);
      var idx := |Batch(g, w, c.s.path, c.idx)|;
      if s.failed then Stop(Errored, s.(path := s.path[..c.idx]))
      else if HasFillUp(g, s.path[idx..]) && !w.satisfied(idx) then
        Stop(Suspended, s.(path := Saved(g, s.path[idx..]), events := s.events + [UserInputs]))
      else Continue(Config(s, idx))
  }

  lemma {:induction false} KeptWasPending(g: Graph, w: World, before: seq<Id>, batch: seq<Id>)
    requires Known(g, batch)
    ensures |Kept(g, w, before, batch)| <= |batch|
    ensures forall id :: id in Kept(g, w, before, batch) ==> id in batch
    decreases |batch|
  {
    if batch != [] {
      if Ready(g, w, before, batch) {
        KeptWasPending(g, w, before + [batch[0]], batch[1..]);
      } else {
        KeptWasPending(g, w, before, batch[1..]);
      }
    }
  }

  /** The run from a configuration on; the cancel flag is seen in wave `cancelAt`. */
  function RunFrom(g: Graph, w: World, c: Config, cancelAt: nat): Verdict
    requires WellFormed(g) && c.idx <= |c.s.path|
    decreases cancelAt
  {
    if c.idx == |c.s.path| then
      Stop(Completed, c.s.(events := c.s.events + [WorkflowFinished]))
    else
      var v := Wave(g, w, c, cancelAt == 0);
      if v.Stop? || cancelAt == 0 then v else RunFrom(g, w, v.next, cancelAt - 1)
  }

  function Init(w: World, path: seq<Id>): Config {
    var p := if Resumed(w, path) then path else path + ["begin"];
    Config(RunState(p, [], false, []), if Resumed(w, path) then 0 else |path|)
  }

  lemma KeepOrDrop(g: Graph, w: World, before: seq<Id>, batch: seq<Id>)
    requires Known(g, batch) && batch != []
    ensures Ready(g, w, before, batch) ==>
              (before + [batch[0]]) + Kept(g, w, before + [batch[0]], batch[1..]) == before + Kept(g, w, before, batch)
    ensures !Ready(g, w, before, batch) ==>
              before + Kept(g, w, before, batch[1..]) == before + Kept(g, w, before, batch)
  {
  }

  /** One step of the filter: the component at i is kept, or dropped from where it stands. */
  lemma BatchStep(g: Graph, w: World, path: seq<Id>, i: nat, end: nat)
    requires i < end <= |path| && Known(g, path[i..end])
    ensures path[i] in g && (Ready(g, w, path[..i], path[i..end]) <==>
              AlwaysRuns(g[path[i]].kind) || Resumed(w, path) || RefsReady(g[path[i]].refs, path[..i]))
    ensures Known(g, path[i + 1..end])
    ensures Ready(g, w, path[..i], path[i..end]) ==>
              path[..i + 1] + Kept(g, w, path[..i + 1], path[i + 1..end]) == path[..i] + Kept(g, w, path[..i], path[i..end])
    ensures !Ready(g, w, path[..i], path[i..end]) ==>
              var left := path[..i] + path[i + 1..];
              && left[end - 1..] == path[end..] && Known(g, left[i..end - 1])
              && left[..i] + Kept(g, w, left[..i], left[i..end - 1]) == path[..i] + Kept(g, w, path[..i], path[i..end])
  {
    assert path[i..end][0] == path[i] && path[i..end][1..] == path[i + 1..end];
    assert path[..i + 1] == path[..i] + [path[i]];
    assert path[..i] + path[i..end] == path[..end];
    DropAt(path, i, end);
    KeepOrDrop(g, w, path[..i], path[i..end]);
  }

  /** Taking out the first component of the batch that lies between i and end. */
  lemma DropAt(path: seq<Id>, i: nat, end: nat)
    requires i < end <= |path|
    ensures var left := path[..i] + path[i + 1..];
            && left[..i] == path[..i] && left[i..end - 1] == path[i..end][1..] && left[end - 1..] == path[end..]
  {
  }

  lemma SettleAllStep(g: Graph, w: World, s: RunState, i: nat, end: nat)
    requires WellFormed(g) && i < end <= |s.path| && Known(g, s.path[i..end])
    ensures s.path[i] in g
    ensures var s' := Settle(g, w, s, i);
            && end <= |s'.path| && Known(g, s'.path[i + 1..end])
            && SettleAll(g, w, s, i, end) == SettleAll(g, w, s', i + 1, end)
  {
    assert s.path[i] == s.path[i..end][0];
    SettleKeepsPath(g, w, s, i);
    assert Settle(g, w, s, i).path[i + 1..end] == s.path[i..end][1..];
  }

  // ----- The run, in place ---------------------------------------------------

  /** Settling the positions from i on ends in the goal. */
  ghost predicate SettlesTo(g: Graph, w: World, s: RunState, i: nat, end: nat, goal: RunState)
    requires WellFormed(g) && i <= end
    decreases end - i
  {
    if i == end then s == goal
    else i < |s.path| && s.path[i] in g && SettlesTo(g, w, Settle(g, w, s, i), i + 1, end, goal)
  }

  lemma {:induction false} SettleAllSettles(g: Graph, w: World, s: RunState, i: nat, end: nat)
    requires WellFormed(g) && i <= end <= |s.path| && Known(g, s.path[i..end])
    ensures SettlesTo(g, w, s, i, end, SettleAll(g, w, s, i, end))
    decreases end - i
  {
    if i < end {
      SettleAllStep(g, w, s, i, end);
      SettleAllSettles(g, w, Settle(g, w, s, i), i + 1, end);
    }
  }
  class Canvas {
    const components: Graph
    var path: seq<Id>
    var partials: seq<Id>
    var failed: bool
    var events: seq<Event>

    function State(): RunState
      reads this
    {
      RunState(path, partials, failed, events)
    }

    constructor (components: Graph, path: seq<Id>)
      ensures this.components == components && this.path == path
    {
      this.components := components;
      this.path, partials, failed, events := path, [], false, [];
    }

    /** Filter the batch path[f..t] where it stands; `end` is its new end. */
    method RunBatch(w: World, f: nat, t: nat) returns (end: nat)
      requires f <= t <= |path| && Known(components, path[f..t])
      modifies this`path
      ensures f <= end <= |path|
      ensures path[..end] == old(path)[..f] + Kept(components, w, old(path)[..f], old(path)[f..t])
      ensures path[end..] == old(path)[t..]
    {
      ghost var all := path[..f] + Kept(components, w, path[..f], path[f..t]);
      var i := f;
      end := t;
      while i < end
        invariant f <= i <= end <= |path|
        invariant path[end..] == old(path)[t..]
        invariant Known(components, path[i..end])
        invariant path[..i] + Kept(components, w, path[..i], path[i..end]) == all
        decreases end - i
      {
        BatchStep(components, w, path, i, end);
        var keep := AlwaysRuns(components[path[i]].kind);
        if !keep {
          keep := Resumed(w, path) || RefsReady(components[path[i]].refs, path[..i]);
        }
        if keep {
          i := i + 1;
        } else {
          path := path[..i] + path[i + 1..];
          end := end - 1;
        }
      }
      assert path[i..end] == [];
      assert path[..i] + [] == path[..i];
    }

    /** Filtering everything from `idx` on, as each wave does. */
    method FilterPending(w: World, idx: nat) returns (end: nat)
      requires idx <= |path| && Known(components, path[idx..])
      modifies this`path
      ensures path == Batch(components, w, old(path), idx) && end == |path| >= idx
      ensures path[idx..end] == path[idx..] == Kept(components, w, old(path)[..idx], old(path)[idx..])
    {
      assert path[idx..|path|] == path[idx..];
      end := RunBatch(w, idx, |path|);
      assert path[end..] == [];
      assert path == path[..end] + path[end..];
      assert path[..idx] == old(path)[..idx];
    }

    method FlushPartials(w: World, i: nat)
      modifies this`partials, this`events
      ensures State() == Flush(w, i, old(State()))
    {
      while partials != [] && !w.live(i, partials[0])
        invariant Flush(w, i, State()) == Flush(w, i, old(State()))
        decreases |partials|
      {
        events := events + [Finished(partials[0], i, Late)];
        partials := partials[1..];
      }
    }

    method AppendPath(ids: seq<Id>)
      modifies this`path
      ensures path == AppendAll(old(path), ids)
    {
      var k := 0;
      while k < |ids|
        invariant 0 <= k <= |ids|
        invariant AppendAll(path, ids[k..]) == AppendAll(old(path), ids)
      {
        if path == [] || path[|path| - 1] != ids[k] {
          path := path + [ids[k]];
        }
        assert ids[k..][1..] == ids[k + 1..];
        k := k + 1;
      }
    }

    method SettleError(o: Outcome)
      modifies this`path, this`events, this`failed
      ensures State() == HandleError(old(State()), o)
    {
      if o.failed {
        if o.goto != [] {
          path := path + o.goto;
        } else if o.fallback {
          events := events + [Shown, ShownEnd];
        } else {
          failed := true;
        }
      }
    }

    method ReportNode(c: Component, id: Id, i: nat, o: Outcome)
      modifies this`partials, this`events
      ensures State() == Report(old(State()), c, id, i, o)
    {
      if !IsContainer(c.kind) {
        if o.streaming && !failed {
          partials := partials + [id];
        } else {
          events := events + [Finished(id, i, Own)];
        }
      }
    }

    method SettlePosition(w: World, i: nat)
      requires WellFormed(components) && i < |path| && path[i] in components
      modifies this
      ensures State() == Settle(components, w, old(State()), i)
    {
      var id := path[i];
      var c := components[id];
      var o := w.outcome(i, id);
      if c.kind.Message? {
        events := events + [Shown, ShownEnd];
        FlushPartials(w, i);
        FlushKeepsPath(w, i, old(State()).(events := old(events) + [Shown, ShownEnd]));
      }
      SettleError(o);
      ReportNode(c, id, i, o);
      if IsItem(c.kind) && o.ended {
        events := events + [Finished(c.parent.value, i, OfItem)];
      }
      if !Redirects(o) {
        AppendPath(Route(components, c, o));
      }
    }

    /** One wave from position `idx`; `end` is where the next one begins. */
    method RunWave(w: World, idx: nat, cancelled: bool) returns (stop: Option<Result>, end: nat)
      requires WellFormed(components) && idx < |path|
      modifies this
      ensures Wave(components, w, Config(old(State()), idx), cancelled) ==
              if stop.Some? then Stop(stop.value, State()) else Continue(Config(State(), end))
      ensures cancelled ==> stop.Some?
    {
      ghost var before := path[..idx];
      var pending := path[idx..];
      end := |path|;
      events := events + StartedEvents(components, pending);
      if !Known(components, pending) {
        return Some(Crashed), end;
      }
      if cancelled {
        return Some(Cancelled), end;
      }
      KeptWasPending(components, w, before, pending);
      end := FilterPending(w, idx);
      SettleWave(w, idx, end);
      if failed {
        path := path[..idx];
        return Some(Errored), end;
      }
      if HasFillUp(components, path[end..]) && !w.satisfied(end) {
        path := Saved(components, path[end..]);
        events := events + [UserInputs];
        return Some(Suspended), end;
      }
      return None, end;
    }

    /** A whole run. It stops by itself, or in the wave in which the cancel flag is
        first seen. */
    method Run(w: World, cancelAt: nat) returns (result: Result)
      requires WellFormed(components)
      modifies this
      ensures Stop(result, State()) == RunFrom(components, w, Init(w, old(path)), cancelAt)
    {
      var resumed := Resumed(w, path);
      if !resumed {
        path := path + ["begin"];
      }
      partials, failed, events := [], false, [];
      var idx: nat := if resumed then 0 else |path| - 1;
      assert Config(State(), idx) == Init(w, old(path));
      result := RunWaves(w, idx, cancelAt);
    }

    method RunWaves(w: World, from: nat, cancelAt: nat) returns (result: Result)
      requires WellFormed(components) && from <= |path|
      modifies this
      ensures Stop(result, State()) == RunFrom(components, w, old(Config(State(), from)), cancelAt)
    {
      ghost var verdict := RunFrom(components, w, Config(State(), from), cancelAt);
      var idx: nat, waves: nat := from, cancelAt;
      while idx < |path|
        invariant idx <= |path|
        invariant RunFrom(components, w, Config(State(), idx), waves) == verdict
        decreases waves
      {
        ghost var c := Config(State(), idx);
        var stop, end := RunWave(w, idx, waves == 0);
        if stop.Some? {
          return stop.value;
        }
        idx := end;
        waves := waves - 1;
      }
      events := events + [WorkflowFinished];
      return Completed;
    }

    method SettleWave(w: World, idx: nat, last: nat)
      requires WellFormed(components) && idx <= last <= |path| && Known(components, path[idx..last])
      modifies this
      ensures State() == SettleAll(components, w, old(State()), idx, last)
    {
      ghost var s, goal := State(), SettleAll(components, w, State(), idx, last);
      SettleAllSettles(components, w, s, idx, last);
      var i := idx;
      while i < last
        invariant idx <= i <= last && State() == s && SettlesTo(components, w, s, i, last, goal)
        decreases last - i
      {
        SettlePosition(w, i);
        s := Settle(components, w, s, i);
        i := i + 1;
      }
    }
  }
}
