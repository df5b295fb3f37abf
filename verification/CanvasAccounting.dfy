/** Every component of a canvas run is reported exactly once. */
module CanvasAccounting {
  import opened CanvasRun
  import opened CanvasProperties

  predicate ReportsItself(e: Event) {
    e.Finished? && !e.cause.OfItem?
  }

  predicate IsDelayed(e: Event) {
    e.Finished? && e.cause.Late?
  }

  /** How often `id` reported its own end, at once or late. */
  function Reports(events: seq<Event>, id: Id): nat {
    if events == [] then 0
    else
      var e := events[|events| - 1];
      Reports(events[..|events| - 1], id) + (if ReportsItself(e) && e.id == id then 1 else 0)
  }

  /** The components reported late, in order. */
  function Delayed(events: seq<Event>): seq<Id> {
    if events == [] then []
    else
      var e := events[|events| - 1];
      Delayed(events[..|events| - 1]) + (if IsDelayed(e) then [e.id] else [])
  }

  function Count(ids: seq<Id>, id: Id): nat {
    if ids == [] then 0
    else Count(ids[..|ids| - 1], id) + (if ids[|ids| - 1] == id then 1 else 0)
  }

  lemma {:induction false} CountAppend(a: seq<Id>, b: seq<Id>, id: Id)
    ensures Count(a + b, id) == Count(a, id) + Count(b, id)
  {
    if b == [] {
      assert a + b == a;
    } else {
      assert (a + b)[..|a + b| - 1] == a + b[..|b| - 1];
      CountAppend(a, b[..|b| - 1], id);
    }
  }

  lemma Emit(events: seq<Event>, e: Event, id: Id)
    ensures Reports(events + [e], id) == Reports(events, id) + (if ReportsItself(e) && e.id == id then 1 else 0)
    ensures Delayed(events + [e]) == Delayed(events) + (if IsDelayed(e) then [e.id] else [])
  {
    assert (events + [e])[..|events|] == events;
  }

  lemma EmitShown(events: seq<Event>, id: Id)
    ensures Reports(events + [Shown, ShownEnd], id) == Reports(events, id)
    ensures Delayed(events + [Shown, ShownEnd]) == Delayed(events)
  {
    Emit(events, Shown, id);
    Emit(events + [Shown], ShownEnd, id);
    assert events + [Shown, ShownEnd] == events + [Shown] + [ShownEnd];
  }

  lemma {:induction false} EmitStarted(g: Graph, events: seq<Event>, pending: seq<Id>, id: Id)
    ensures Reports(events + StartedEvents(g, pending), id) == Reports(events, id)
    ensures Delayed(events + StartedEvents(g, pending)) == Delayed(events)
    decreases |pending|
  {
    if pending == [] || pending[0] !in g {
      assert events + [] == events;
    } else {
      var one, more := [Started(pending[0])], StartedEvents(g, pending[1..]);
      assert events + (one + more) == (events + one) + more;
      Emit(events, Started(pending[0]), id);
      EmitStarted(g, events + one, pending[1..], id);
    }
  }

  /** Own reports of `id` plus its occurrences among the deferred components. */
  function Booked(s: RunState, id: Id): nat {
    Reports(s.events, id) + Count(s.partials, id)
  }

  /** Every component deferred so far, in the order of deferral. */
  function Deferrals(s: RunState): seq<Id> {
    Delayed(s.events) + s.partials
  }

  /** Nothing was reported late while its content was still a stream. */
  ghost predicate NoneLive(w: World, events: seq<Event>) {
    forall e :: e in events && IsDelayed(e) ==> !w.live(e.at, e.id)
  }

  lemma FlushOne(w: World, i: nat, s: RunState, id: Id)
    requires s.partials != [] && !w.live(i, s.partials[0])
    ensures var s' := s.(partials := s.partials[1..], events := s.events + [Finished(s.partials[0], i, Late)]);
            && Booked(s', id) == Booked(s, id)
            && Deferrals(s') == Deferrals(s)
            && (NoneLive(w, s.events) ==> NoneLive(w, s'.events))
  {
    var e := Finished(s.partials[0], i, Late);
    Emit(s.events, e, id);
    CountAppend([s.partials[0]], s.partials[1..], id);
    assert s.partials == [s.partials[0]] + s.partials[1..];
    assert Count([s.partials[0]], id) == if s.partials[0] == id then 1 else 0 by {
      assert [s.partials[0]][..0] == [];
    }
    assert Delayed(s.events) + [e.id] + s.partials[1..] == Delayed(s.events) + s.partials;
  }

  lemma {:induction false} FlushBalances(w: World, i: nat, s: RunState, id: Id)
    ensures var r := Flush(w, i, s);
            && Booked(r, id) == Booked(s, id)
            && Deferrals(r) == Deferrals(s)
            && (NoneLive(w, s.events) ==> NoneLive(w, r.events))
    decreases |s.partials|
  {
    if s.partials != [] && !w.live(i, s.partials[0]) {
      FlushOne(w, i, s, id);
      FlushBalances(w, i, s.(partials := s.partials[1..],
                             events := s.events + [Finished(s.partials[0], i, Late)]), id);
    }
  }

  /** Whether position i is deferred: a streaming component in a run without error. */
  predicate Defers(g: Graph, w: World, s: RunState, i: nat)
    requires i < |s.path| && s.path[i] in g
  {
    var o := w.outcome(i, s.path[i]);
    && !IsContainer(g[s.path[i]].kind)
    && o.streaming
    && !(s.failed || (o.failed && o.goto == [] && !o.fallback))
  }

  lemma ErrorBalances(w: World, s: RunState, o: Outcome, id: Id)
    ensures var r := HandleError(s, o);
            && Booked(r, id) == Booked(s, id)
            && Deferrals(r) == Deferrals(s)
            && (NoneLive(w, s.events) ==> NoneLive(w, r.events))
  {
    EmitShown(s.events, id);
  }

  lemma OneMoreDeferred(s: RunState, own: Id, id: Id)
    ensures var r := s.(partials := s.partials + [own]);
            && Booked(r, id) == Booked(s, id) + (if own == id then 1 else 0)
            && Deferrals(r) == Deferrals(s) + [own]
  {
    assert (s.partials + [own])[..|s.partials|] == s.partials;
  }

  lemma ReportBalances(w: World, s: RunState, c: Component, own: Id, i: nat, o: Outcome, id: Id)
    ensures var r := Report(s, c, own, i, o);
            && Booked(r, id) == Booked(s, id) + (if !IsContainer(c.kind) && own == id then 1 else 0)
            && Deferrals(r) == Deferrals(s) +
                 (if !IsContainer(c.kind) && o.streaming && !s.failed then [own] else [])
            && (NoneLive(w, s.events) ==> NoneLive(w, r.events))
  {
    if !IsContainer(c.kind) {
      if o.streaming && !s.failed {
        OneMoreDeferred(s, own, id);
      } else {
        Emit(s.events, Finished(own, i, Own), id);
      }
    }
  }

  lemma FollowBalances(g: Graph, w: World, s: RunState, c: Component, i: nat, o: Outcome, id: Id)
    requires WellFormed(g) && c in g.Values
    ensures var r := Follow(g, s, c, i, o);
            && Booked(r, id) == Booked(s, id)
            && Deferrals(r) == Deferrals(s)
            && (NoneLive(w, s.events) ==> NoneLive(w, r.events))
  {
    if IsItem(c.kind) && o.ended {
      Emit(s.events, Finished(c.parent.value, i, OfItem), id);
    }
  }

  lemma MessageBalances(w: World, s: RunState, c: Component, i: nat, id: Id)
    ensures var r := if c.kind.Message? then Flush(w, i, s.(events := s.events + [Shown, ShownEnd])) else s;
            && Booked(r, id) == Booked(s, id)
            && Deferrals(r) == Deferrals(s)
            && (NoneLive(w, s.events) ==> NoneLive(w, r.events))
            && r.failed == s.failed
  {
    var s0 := s.(events := s.events + [Shown, ShownEnd]);
    EmitShown(s.events, id);
    FlushBalances(w, i, s0, id);
    FlushKeepsPath(w, i, s0);
  }

  /** One settled position is booked exactly once, unless it is a container, and a
      deferral goes to the end of the queue. */
  lemma SettleBalances(g: Graph, w: World, s: RunState, i: nat, id: Id)
    requires WellFormed(g) && i < |s.path| && s.path[i] in g
    ensures var r := Settle(g, w, s, i);
            && Booked(r, id) == Booked(s, id) + (if !IsContainer(g[s.path[i]].kind) && s.path[i] == id then 1 else 0)
            && Deferrals(r) == Deferrals(s) + (if Defers(g, w, s, i) then [s.path[i]] else [])
            && (NoneLive(w, s.events) ==> NoneLive(w, r.events))
  {
    var own := s.path[i];
    var c := g[own];
    var o := w.outcome(i, own);
    MessageBalances(w, s, c, i, id);
    var s1 := if c.kind.Message? then Flush(w, i, s.(events := s.events + [Shown, ShownEnd])) else s;
    ErrorBalances(w, s1, o, id);
    var s2 := HandleError(s1, o);
    ReportBalances(w, s2, c, own, i, o, id);
    FollowBalances(g, w, Report(s2, c, own, i, o), c, i, o, id);
  }

  // ----- Over whole runs ----------------------------------------------------------

  /** How often `id` stands on the path from `lo` up to `i`. */
  function Occurrences(path: seq<Id>, lo: nat, i: nat, id: Id): nat
    requires i <= |path|
    decreases i
  {
    if i <= lo then 0
    else Occurrences(path, lo, i - 1, id) + (if path[i - 1] == id then 1 else 0)
  }

  lemma {:induction false} OccurrencesFrame(path: seq<Id>, path': seq<Id>, lo: nat, i: nat, id: Id)
    requires i <= |path| && i <= |path'| && path[..i] == path'[..i]
    ensures Occurrences(path, lo, i, id) == Occurrences(path', lo, i, id)
    decreases i
  {
    if i > lo {
      assert path[i - 1] == path[..i][i - 1] == path'[..i][i - 1] == path'[i - 1];
      assert path[..i - 1] == path[..i][..i - 1] == path'[..i][..i - 1] == path'[..i - 1];
      OccurrencesFrame(path, path', lo, i - 1, id);
    }
  }

  /** Occurrences that must be accounted for: containers report through their items. */
  function Due(g: Graph, path: seq<Id>, lo: nat, i: nat, id: Id): nat
    requires i <= |path|
  {
    if id in g && !IsContainer(g[id].kind) then Occurrences(path, lo, i, id) else 0
  }

  /** The deferred components are those at the positions `at`, in path order: first
      the ones reported late, then the ones still waiting. */
  ghost predicate DeferredInOrder(s: RunState, lo: nat, i: nat, at: seq<nat>)
    requires i <= |s.path|
  {
    && |at| == |Deferrals(s)|
    && (forall k :: 0 <= k < |at| ==> lo <= at[k] < i && Deferrals(s)[k] == s.path[at[k]])
    && (forall k, l :: 0 <= k < l < |at| ==> at[k] < at[l])
  }

  /** The books after settling the positions from `lo` up to `i`. */
  ghost predicate Balanced(g: Graph, w: World, s: RunState, lo: nat, i: nat)
    requires i <= |s.path|
  {
    && (forall id :: Booked(s, id) == Due(g, s.path, lo, i, id))
    && NoneLive(w, s.events)
    && exists at :: DeferredInOrder(s, lo, i, at)
  }

  lemma StepBalanced(g: Graph, w: World, s: RunState, lo: nat, i: nat)
    requires WellFormed(g) && lo <= i < |s.path| && s.path[i] in g && Balanced(g, w, s, lo, i)
    ensures var r := Settle(g, w, s, i); i + 1 <= |r.path| && Balanced(g, w, r, lo, i + 1)
  {
    SettleKeepsPath(g, w, s, i);
    var r := Settle(g, w, s, i);
    assert r.path[..i] == s.path[..i] && r.path[i] == s.path[i];
    forall id ensures Booked(r, id) == Due(g, r.path, lo, i + 1, id) {
      SettleBalances(g, w, s, i, id);
      OccurrencesFrame(s.path, r.path, lo, i, id);
      assert Booked(s, id) == Due(g, s.path, lo, i, id);
    }
    SettleBalances(g, w, s, i, s.path[i]);
    var at :| DeferredInOrder(s, lo, i, at);
    DeferralExtends(s, r, lo, i, at, Defers(g, w, s, i));
  }

  lemma DeferralExtends(s: RunState, r: RunState, lo: nat, i: nat, at: seq<nat>, deferred: bool)
    requires lo <= i < |s.path| && s.path <= r.path && DeferredInOrder(s, lo, i, at)
    requires Deferrals(r) == Deferrals(s) + (if deferred then [s.path[i]] else [])
    ensures DeferredInOrder(r, lo, i + 1, if deferred then at + [i] else at)
  {
    var at' := if deferred then at + [i] else at;
    forall k | 0 <= k < |at'| ensures lo <= at'[k] < i + 1 && Deferrals(r)[k] == r.path[at'[k]] {
      if k < |at| {
        assert Deferrals(r)[k] == Deferrals(s)[k] == s.path[at[k]];
      }
    }
  }

  lemma {:induction false} SettleAllBalanced(g: Graph, w: World, s: RunState, lo: nat, i: nat, end: nat)
    requires WellFormed(g) && lo <= i <= end <= |s.path| && Known(g, s.path[i..end])
    requires Balanced(g, w, s, lo, i)
    ensures Balanced(g, w, SettleAll(g, w, s, i, end), lo, end)
    decreases end - i
  {
    if i < end {
      assert s.path[i] == s.path[i..end][0];
      StepBalanced(g, w, s, lo, i);
      SettleKeepsPath(g, w, s, i);
      var s' := Settle(g, w, s, i);
      assert s'.path[i + 1..end] == s.path[i..end][1..];
      SettleAllBalanced(g, w, s', lo, i + 1, end);
    }
  }

  lemma BatchedBalanced(g: Graph, w: World, c: Config, lo: nat)
    requires WellFormed(g) && lo <= c.idx <= |c.s.path| && Known(g, c.s.path[c.idx..])
    requires Balanced(g, w, c.s, lo, c.idx)
    ensures Balanced(g, w, Batched(g, w, c), lo, c.idx)
  {
    var s := Batched(g, w, c);
    var pending := c.s.path[c.idx..];
    assert s.path[..c.idx] == c.s.path[..c.idx];
    forall id ensures Booked(s, id) == Due(g, s.path, lo, c.idx, id) {
      EmitStarted(g, c.s.events, pending, id);
      OccurrencesFrame(c.s.path, s.path, lo, c.idx, id);
      assert Booked(c.s, id) == Due(g, c.s.path, lo, c.idx, id);
    }
    assert NoneLive(w, s.events) by {
      StartedAreStarted(g, pending);
    }
    EmitStarted(g, c.s.events, pending, "");
    var at :| DeferredInOrder(c.s, lo, c.idx, at);
    assert DeferredInOrder(s, lo, c.idx, at) by {
      assert Deferrals(s) == Deferrals(c.s);
      forall k | 0 <= k < |at| ensures Deferrals(s)[k] == s.path[at[k]] {
        assert s.path[at[k]] == c.s.path[at[k]];
      }
    }
  }

  lemma {:induction false} StartedAreStarted(g: Graph, pending: seq<Id>)
    ensures forall e :: e in StartedEvents(g, pending) ==> e.Started?
    decreases |pending|
  {
    if pending != [] {
      StartedAreStarted(g, pending[1..]);
    }
  }

  lemma WaveBalanced(g: Graph, w: World, c: Config, c': Config, lo: nat)
    requires WellFormed(g) && lo <= c.idx && Completes(g, w, c, c') && Balanced(g, w, c.s, lo, c.idx)
    ensures c'.idx <= |c'.s.path| && Balanced(g, w, c'.s, lo, c'.idx)
  {
    BatchedBalanced(g, w, c, lo);
    var s := Batched(g, w, c);
    SettleAllBalanced(g, w, s, lo, c.idx, |s.path|);
  }

  /** In every configuration between waves, each component that ran and is no
      container was reported exactly as often as it ran, counting the deferred ones;
      deferred components are reported first in, first out, and never while their
      content is still a stream. */
  lemma {:induction false} RunIsAccounted(g: Graph, w: World, trace: seq<Config>, j: nat)
    requires WellFormed(g) && IsTrace(g, w, trace) && j < |trace|
    requires trace[0].s.events == [] && trace[0].s.partials == []
    ensures trace[0].idx <= trace[j].idx <= |trace[j].s.path|
    ensures Balanced(g, w, trace[j].s, trace[0].idx, trace[j].idx)
    decreases j
  {
    CommittedPrefixIsStable(g, w, trace, 0, j);
    var lo := trace[0].idx;
    if j == 0 {
      assert DeferredInOrder(trace[0].s, lo, lo, []);
    } else {
      RunIsAccounted(g, w, trace, j - 1);
      assert Completes(g, w, trace[j - 1], trace[j - 1 + 1]);
      WaveBalanced(g, w, trace[j - 1], trace[j], lo);
    }
  }

  /** The same after every single settled position inside a wave. */
  lemma EveryStepIsAccounted(g: Graph, w: World, trace: seq<Config>, j: nat, i: nat)
    requires WellFormed(g) && IsTrace(g, w, trace) && j < |trace|
    requires trace[0].s.events == [] && trace[0].s.partials == []
    requires trace[j].idx <= |trace[j].s.path| && Known(g, trace[j].s.path[trace[j].idx..])
    requires trace[j].idx <= i <= |Batched(g, w, trace[j]).path|
    requires Known(g, Batched(g, w, trace[j]).path[trace[j].idx..i])
    ensures Balanced(g, w, SettleAll(g, w, Batched(g, w, trace[j]), trace[j].idx, i), trace[0].idx, i)
  {
    RunIsAccounted(g, w, trace, j);
    BatchedBalanced(g, w, trace[j], trace[0].idx);
    SettleAllBalanced(g, w, Batched(g, w, trace[j]), trace[0].idx, trace[j].idx, i);
  }
}
