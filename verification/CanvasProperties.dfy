/** What holds of every run of the canvas executor. */
module CanvasProperties {
  import opened CanvasRun

  // ----- The batch is the greedy dependency filter ---------------------------

  function Select(batch: seq<Id>, flags: seq<bool>): seq<Id>
    requires |batch| == |flags|
  {
    if batch == [] then []
    else (if flags[0] then [batch[0]] else []) + Select(batch[1..], flags[1..])
  }

  /** A component is kept if and only if it is ready given the path in front of it,
      that is the old prefix and the components of the batch kept so far. */
  ghost predicate KeepsTheReady(g: Graph, w: World, before: seq<Id>, batch: seq<Id>, flags: seq<bool>)
    requires Known(g, batch)
  {
    && |flags| == |batch|
    && forall j :: 0 <= j < |batch| ==>
         flags[j] == Ready(g, w, before + Select(batch[..j], flags[..j]), batch[j..])
  }

  /** The kept components are the subsequence selected by the one choice of flags
      that keeps exactly the ready ones. */
  lemma {:induction false} KeptIsTheGreedyFilter(g: Graph, w: World, before: seq<Id>,
                                                 batch: seq<Id>) returns (flags: seq<bool>)
    requires Known(g, batch)
    ensures KeepsTheReady(g, w, before, batch, flags)
    ensures Kept(g, w, before, batch) == Select(batch, flags)
    ensures forall other :: KeepsTheReady(g, w, before, batch, other) ==> other == flags
    decreases |batch|
  {
    if batch == [] {
      flags := [];
    } else {
      var keep := Ready(g, w, before, batch);
      var before' := if keep then before + [batch[0]] else before;
      var rest := KeptIsTheGreedyFilter(g, w, before', batch[1..]);
      flags := [keep] + rest;
      FlagsCons(g, w, before, batch, flags);
      forall other | KeepsTheReady(g, w, before, batch, other) ensures other == flags {
        assert before + Select(batch[..0], other[..0]) == before;
        assert batch[0..] == batch;
        assert other[0] == keep;
        FlagsCons(g, w, before, batch, other);
        assert other == [other[0]] + other[1..];
      }
    }
  }

  lemma SelectShifts(before: seq<Id>, batch: seq<Id>, flags: seq<bool>, j: nat)
    requires |flags| == |batch| && j < |batch| - 1
    ensures var before' := if flags[0] then before + [batch[0]] else before;
            before + Select(batch[..j + 1], flags[..j + 1]) == before' + Select(batch[1..][..j], flags[1..][..j])
    ensures batch[j + 1..] == batch[1..][j..]
  {
    assert batch[..j + 1][1..] == batch[1..][..j];
    assert flags[..j + 1][1..] == flags[1..][..j];
  }

  /** Looking past the first component of the batch. */
  lemma FlagsCons(g: Graph, w: World, before: seq<Id>, batch: seq<Id>, flags: seq<bool>)
    requires Known(g, batch) && batch != [] && |flags| == |batch|
    requires flags[0] == Ready(g, w, before, batch)
    ensures var before' := if flags[0] then before + [batch[0]] else before;
            KeepsTheReady(g, w, before, batch, flags) <==> KeepsTheReady(g, w, before', batch[1..], flags[1..])
  {
    var before' := if flags[0] then before + [batch[0]] else before;
    assert before + Select(batch[..0], flags[..0]) == before;
    assert batch[0..] == batch;
    forall j | 0 <= j < |batch| - 1
      ensures flags[1..][j] == Ready(g, w, before' + Select(batch[1..][..j], flags[1..][..j]), batch[1..][j..]) <==>
              flags[j + 1] == Ready(g, w, before + Select(batch[..j + 1], flags[..j + 1]), batch[j + 1..])
    {
      SelectShifts(before, batch, flags, j);
    }
    if KeepsTheReady(g, w, before', batch[1..], flags[1..]) {
      forall j | 0 <= j < |batch|
        ensures flags[j] == Ready(g, w, before + Select(batch[..j], flags[..j]), batch[j..])
      {
        if j > 0 {
          assert flags[1..][j - 1] == flags[j];
        }
      }
    }
  }

  /** From position `from` on, every component that can be dropped has all its
      references earlier on the path. */
  ghost predicate InputsReady(g: Graph, path: seq<Id>, from: nat) {
    forall p :: from <= p < |path| && path[p] in g && !AlwaysRuns(g[path[p]].kind) ==>
      RefsReady(g[path[p]].refs, path[..p])
  }

  /** In a wave of an ordinary run, every kept component that can be dropped has all
      its references earlier on the resulting path. */
  lemma {:induction false} KeptHaveTheirInputs(g: Graph, w: World, before: seq<Id>, batch: seq<Id>)
    requires Known(g, batch) && before + batch != [] && !Resumed(w, before + batch)
    requires before != [] || AlwaysRuns(g[batch[0]].kind)
    ensures InputsReady(g, before + Kept(g, w, before, batch), |before|)
    decreases |batch|
  {
    if batch != [] {
      if Ready(g, w, before, batch) {
        var before' := before + [batch[0]];
        var path := before + Kept(g, w, before, batch);
        assert before' + batch[1..] == before + batch;
        KeptHaveTheirInputs(g, w, before', batch[1..]);
        assert before' + Kept(g, w, before', batch[1..]) == path;
        assert path[..|before|] == before && path[|before|] == batch[0];
      } else {
        assert (before + batch[1..])[0] == (before + batch)[0];
        KeptHaveTheirInputs(g, w, before, batch[1..]);
      }
    }
  }

  /** In a resumed run nothing is dropped. */
  lemma {:induction false} ResumedKeepsAll(g: Graph, w: World, before: seq<Id>, batch: seq<Id>)
    requires Known(g, batch) && Resumed(w, before + batch)
    ensures Kept(g, w, before, batch) == batch
    decreases |batch|
  {
    if batch != [] {
      assert before + batch == before + [batch[0]] + batch[1..];
      ResumedKeepsAll(g, w, before + [batch[0]], batch[1..]);
    }
  }

  // ----- Whole runs -----------------------------------------------------------

  /** The wave from `c` completes and the run goes on with `c'`. */
  ghost predicate Completes(g: Graph, w: World, c: Config, c': Config)
    requires WellFormed(g)
  {
    c.idx < |c.s.path| && Wave(g, w, c, false) == Continue(c')
  }

  /** The configurations between the completed waves of a run. */
  ghost predicate IsTrace(g: Graph, w: World, trace: seq<Config>)
    requires WellFormed(g)
  {
    && trace != []
    && trace[0].idx <= |trace[0].s.path|
    && forall i :: 0 <= i < |trace| - 1 ==> Completes(g, w, trace[i], trace[i + 1])
  }

  /** How a run whose last completed wave led to `c` comes to its verdict. */
  ghost predicate Ends(g: Graph, w: World, c: Config, cancelled: bool, v: Verdict)
    requires WellFormed(g)
  {
    if c.idx < |c.s.path| then v == Wave(g, w, c, cancelled) && v.Stop?
    else v == Stop(Completed, c.s.(events := c.s.events + [WorkflowFinished]))
  }

  /** A run goes on behind a completed wave, or ends here. */
  // A run in the abstract: turns are taken until one stops, the last of them with the cancel flag seen.

  function Iterate(turn: (Config, bool) -> Verdict, c: Config, cancelAt: nat): Verdict
    decreases cancelAt
  {
    var v := turn(c, cancelAt == 0);
    if v.Stop? || cancelAt == 0 then v else Iterate(turn, v.next, cancelAt - 1)
  }

  ghost predicate AreTurns(turn: (Config, bool) -> Verdict, trace: seq<Config>) {
    trace != [] && forall i :: 0 <= i < |trace| - 1 ==> turn(trace[i], false) == Continue(trace[i + 1])
  }

  lemma {:induction false} IterateIsTurns(turn: (Config, bool) -> Verdict, c: Config,
                                          cancelAt: nat) returns (trace: seq<Config>)
    ensures AreTurns(turn, trace) && trace[0] == c && |trace| <= cancelAt + 1
    ensures var v := turn(trace[|trace| - 1], |trace| == cancelAt + 1);
            Iterate(turn, c, cancelAt) == v && (v.Stop? || |trace| == cancelAt + 1)
    decreases cancelAt
  {
    trace := [c];
    var v := turn(c, false);
    if cancelAt > 0 && v.Continue? {
      var rest := IterateIsTurns(turn, v.next, cancelAt - 1);
      trace := [c] + rest;
      assert trace[|trace| - 1] == rest[|rest| - 1];
      forall i | 0 <= i < |trace| - 1 ensures turn(trace[i], false) == Continue(trace[i + 1]) {
        assert i > 0 ==> turn(rest[i - 1], false) == Continue(rest[i - 1 + 1]);
      }
    }
  }

  /** The cancel flag only stops, and what it stops without cancelling would have stopped anyway. */
  ghost predicate CancelStops(turn: (Config, bool) -> Verdict) {
    forall c :: turn(c, true).Stop? && (!turn(c, true).result.Cancelled? ==> turn(c, false) == turn(c, true))
  }

  lemma {:induction false} LaterTurnsAreUnseen(turn: (Config, bool) -> Verdict, c: Config, early: nat, late: nat)
    requires CancelStops(turn) && early <= late
    requires !Iterate(turn, c, early).Stop? || !Iterate(turn, c, early).result.Cancelled?
    ensures Iterate(turn, c, late) == Iterate(turn, c, early)
    decreases early
  {
    assert turn(c, true).Stop?;
    if early > 0 && turn(c, false).Continue? {
      LaterTurnsAreUnseen(turn, turn(c, false).next, early - 1, late - 1);
    }
  }

  /** A wave, or the end of the run behind the last one. */
  function Turn(g: Graph, w: World, c: Config, cancelled: bool): Verdict
    requires WellFormed(g)
  {
    if c.idx < |c.s.path| then Wave(g, w, c, cancelled)
    else Stop(Completed, c.s.(events := c.s.events + [WorkflowFinished]))
  }

  function TurnsOf(g: Graph, w: World): (Config, bool) -> Verdict
    requires WellFormed(g)
  {
    (c, cancelled) => Turn(g, w, c, cancelled)
  }

  /** One turn, and what the run makes of the rest. */
  function NextTurn(turn: (Config, bool) -> Verdict, run: (Config, nat) -> Verdict, c: Config, cancelAt: nat): Verdict {
    var v := turn(c, cancelAt == 0);
    if v.Stop? || cancelAt == 0 then v else run(v.next, cancelAt - 1)
  }

  lemma {:induction false} IterateIsUnique(turn: (Config, bool) -> Verdict, run: (Config, nat) -> Verdict,
                                           c: Config, cancelAt: nat)
    requires forall d, n: nat {:trigger NextTurn(turn, run, d, n)} :: run(d, n) == NextTurn(turn, run, d, n)
    ensures run(c, cancelAt) == Iterate(turn, c, cancelAt)
    decreases cancelAt
  {
    var v := turn(c, cancelAt == 0);
    assert run(c, cancelAt) == NextTurn(turn, run, c, cancelAt);
    if cancelAt > 0 && v.Continue? {
      IterateIsUnique(turn, run, v.next, cancelAt - 1);
    }
  }

  function RunsOf(g: Graph, w: World): (Config, nat) -> Verdict
    requires WellFormed(g)
  {
    (c: Config, n: nat) => if c.idx <= |c.s.path| then RunFrom(g, w, c, n) else Turn(g, w, c, false)
  }

  lemma RunIsNextTurn(g: Graph, w: World, c: Config, n: nat)
    requires WellFormed(g)
    ensures RunsOf(g, w)(c, n) == NextTurn(TurnsOf(g, w), RunsOf(g, w), c, n)
  {
  }

  lemma RunIterates(g: Graph, w: World, c: Config, cancelAt: nat)
    requires WellFormed(g) && c.idx <= |c.s.path|
    ensures RunFrom(g, w, c, cancelAt) == Iterate(TurnsOf(g, w), c, cancelAt)
  {
    forall d, n: nat ensures RunsOf(g, w)(d, n) == NextTurn(TurnsOf(g, w), RunsOf(g, w), d, n) {
      RunIsNextTurn(g, w, d, n);
    }
    IterateIsUnique(TurnsOf(g, w), RunsOf(g, w), c, cancelAt);
  }

  lemma TurnCompletes(g: Graph, w: World, c: Config, c': Config)
    requires WellFormed(g) && TurnsOf(g, w)(c, false) == Continue(c')
    ensures Completes(g, w, c, c')
  {
  }

  /** Every run is a number of completed waves followed by one that stops. */
  lemma RunIsWaves(g: Graph, w: World, c: Config, cancelAt: nat) returns (trace: seq<Config>)
    requires WellFormed(g) && c.idx <= |c.s.path|
    ensures IsTrace(g, w, trace) && trace[0] == c && |trace| <= cancelAt + 1
    ensures Ends(g, w, trace[|trace| - 1], |trace| == cancelAt + 1, RunFrom(g, w, c, cancelAt))
  {
    RunIterates(g, w, c, cancelAt);
    trace := IterateIsTurns(TurnsOf(g, w), c, cancelAt);
    forall i | 0 <= i < |trace| - 1 ensures Completes(g, w, trace[i], trace[i + 1]) {
      TurnCompletes(g, w, trace[i], trace[i + 1]);
    }
    TurnEnds(g, w, trace[|trace| - 1], |trace| == cancelAt + 1);
  }

  lemma TurnEnds(g: Graph, w: World, c: Config, cancelled: bool)
    requires WellFormed(g) && (TurnsOf(g, w)(c, cancelled).Stop? || cancelled)
    ensures Ends(g, w, c, cancelled, TurnsOf(g, w)(c, cancelled))
  {
  }

  lemma SurgeKeepsPrefix(g: Graph, w: World, c: Config)
    requires WellFormed(g) && c.idx <= |c.s.path| && Known(g, c.s.path[c.idx..])
    ensures var path, batch := Surge(g, w, c).path, Batch(g, w, c.s.path, c.idx);
            c.idx <= |batch| <= |path| && batch[..c.idx] == c.s.path[..c.idx] && batch <= path
  {
    var s := Batched(g, w, c);
    SettleAllKeepsPath(g, w, s, c.idx, |s.path|);
  }

  /** What a wave does to the path, whatever its verdict. */
  lemma WaveKeepsPrefix(g: Graph, w: World, c: Config, cancelled: bool)
    requires WellFormed(g) && c.idx < |c.s.path|
    ensures PrefixKept(c, Wave(g, w, c, cancelled))
  {
    if Known(g, c.s.path[c.idx..]) && !cancelled {
      SurgeKeepsPrefix(g, w, c);
      var path, n := Surge(g, w, c).path, |Batch(g, w, c.s.path, c.idx)|;
      assert path[..c.idx] == path[..n][..c.idx] == c.s.path[..c.idx];
    }
  }

  /** The state in which the kept components of a wave are settled. */
  function Batched(g: Graph, w: World, c: Config): (s: RunState)
    requires WellFormed(g) && c.idx <= |c.s.path| && Known(g, c.s.path[c.idx..])
    ensures c.idx <= |s.path| && Known(g, s.path[c.idx..])
    ensures Surge(g, w, c) == SettleAll(g, w, s, c.idx, |s.path|)
  {
    var pending := c.s.path[c.idx..];
    var path := Batch(g, w, c.s.path, c.idx);
    KeptWasPending(g, w, c.s.path[..c.idx], pending);
    assert path[c.idx..] == Kept(g, w, c.s.path[..c.idx], pending);
    c.s.(path := path, events := c.s.events + StartedEvents(g, pending))
  }

  ghost predicate PrefixKept(c: Config, v: Verdict)
    requires c.idx <= |c.s.path|
  {
    match v
    case Continue(c') => c.idx <= c'.idx <= |c'.s.path| && c.s.path[..c.idx] <= c'.s.path[..c'.idx]
    case Stop(result, s) =>
      && (result.Errored? ==> s.path == c.s.path[..c.idx])
      && (result.Crashed? || result.Cancelled? ==> s.path == c.s.path)
      && !result.Completed?
  }

  /** The prefix a wave has committed is never altered while the run goes on. */
  lemma {:induction false} CommittedPrefixIsStable(g: Graph, w: World, trace: seq<Config>, i: nat, j: nat)
    requires WellFormed(g) && IsTrace(g, w, trace) && i <= j < |trace|
    ensures forall k :: i <= k <= j ==> trace[k].idx <= |trace[k].s.path|
    ensures trace[i].idx <= trace[j].idx
    ensures trace[i].s.path[..trace[i].idx] <= trace[j].s.path[..trace[j].idx]
    decreases j
  {
    TraceIndices(g, w, trace, j);
    if i < j {
      CommittedPrefixIsStable(g, w, trace, i, j - 1);
      assert Completes(g, w, trace[j - 1], trace[j - 1 + 1]);
      WaveKeepsPrefix(g, w, trace[j - 1], false);
    }
  }

  lemma TraceIndices(g: Graph, w: World, trace: seq<Config>, j: nat)
    requires WellFormed(g) && IsTrace(g, w, trace) && j < |trace|
    ensures trace[j].idx <= |trace[j].s.path|
  {
    if j > 0 {
      assert Completes(g, w, trace[j - 1], trace[j - 1 + 1]);
      WaveKeepsPrefix(g, w, trace[j - 1], false);
    }
  }

  // ----- Where the path comes from ---------------------------------------------

  /** The ids a settled position hands control to. */
  function Targets(g: Graph, w: World, q: nat, id: Id): seq<Id>
    requires WellFormed(g) && id in g
  {
    var o := w.outcome(q, id);
    if Redirects(o) then o.goto else Route(g, g[id], o)
  }

  /** Position p stems from the run's starting ids or from an earlier settled position. */
  ghost predicate Sourced(g: Graph, w: World, origin: seq<Id>, path: seq<Id>, lo: nat, settled: nat, p: nat)
    requires WellFormed(g) && p < |path|
  {
    || path[p] in origin
    || exists q :: lo <= q < p && q < settled && path[q] in g && path[p] in Targets(g, w, q, path[q])
  }

  ghost predicate Traced(g: Graph, w: World, origin: seq<Id>, path: seq<Id>, lo: nat, settled: nat)
    requires WellFormed(g)
  {
    forall p :: lo <= p < |path| ==> Sourced(g, w, origin, path, lo, settled, p)
  }

  /** One settled position appends only its targets, and a redirecting error appends
      exactly its goto list. */
  lemma SettleAppendsTargets(g: Graph, w: World, s: RunState, i: nat)
    requires WellFormed(g) && i < |s.path| && s.path[i] in g
    ensures var path := Settle(g, w, s, i).path;
            && s.path <= path
            && (forall p :: |s.path| <= p < |path| ==> path[p] in Targets(g, w, i, s.path[i]))
            && (Redirects(w.outcome(i, s.path[i])) ==> path == s.path + w.outcome(i, s.path[i]).goto)
  {
    var id := s.path[i];
    var o := w.outcome(i, id);
    var s0 := s.(events := s.events + [Shown, ShownEnd]);
    FlushKeepsPath(w, i, s0);
    AppendAllExtends(s.path, Route(g, g[id], o));
  }

  lemma {:induction false} SettleAllTraced(g: Graph, w: World, origin: seq<Id>, s: RunState, lo: nat, i: nat, end: nat)
    requires WellFormed(g) && lo <= i <= end <= |s.path| && Known(g, s.path[i..end])
    requires Traced(g, w, origin, s.path, lo, i)
    ensures Traced(g, w, origin, SettleAll(g, w, s, i, end).path, lo, end)
    decreases end - i
  {
    if i < end {
      assert s.path[i] == s.path[i..end][0];
      SettleAppendsTargets(g, w, s, i);
      var s', settled := Settle(g, w, s, i), i + 1;
      forall p | lo <= p < |s'.path| ensures Sourced(g, w, origin, s'.path, lo, settled, p) {
        if p < |s.path| {
          assert Sourced(g, w, origin, s.path, lo, i, p);
          if s.path[p] !in origin {
            var q :| lo <= q < p && q < i && s.path[q] in g && s.path[p] in Targets(g, w, q, s.path[q]);
            assert s'.path[q] == s.path[q];
          }
        } else {
          assert s'.path[i] == s.path[i];
        }
      }
      assert s'.path[i + 1..end] == s.path[i..end][1..];
      SettleAllTraced(g, w, origin, s', lo, i + 1, end);
    }
  }

  lemma BatchTraced(g: Graph, w: World, origin: seq<Id>, path: seq<Id>, lo: nat, idx: nat)
    requires WellFormed(g) && lo <= idx <= |path| && Known(g, path[idx..])
    requires Traced(g, w, origin, path, lo, idx)
    ensures Traced(g, w, origin, Batch(g, w, path, idx), lo, idx)
  {
    var path' := Batch(g, w, path, idx);
    KeptWasPending(g, w, path[..idx], path[idx..]);
    forall p' | lo <= p' < |path'| ensures Sourced(g, w, origin, path', lo, idx, p') {
      var p: nat := p';
      if p' >= idx {
        assert path'[p'] in path[idx..];
        p :| idx <= p < |path| && path[p] == path'[p'];
      }
      assert Sourced(g, w, origin, path, lo, idx, p);
      if path[p] !in origin {
        var q :| lo <= q < p && q < idx && path[q] in g && path[p] in Targets(g, w, q, path[q]);
        assert path'[q] == path[q];
      }
    }
  }

  lemma WaveTraced(g: Graph, w: World, origin: seq<Id>, c: Config, lo: nat)
    requires WellFormed(g) && lo <= c.idx < |c.s.path|
    requires Traced(g, w, origin, c.s.path, lo, c.idx)
    requires Wave(g, w, c, false).Continue?
    ensures var c' := Wave(g, w, c, false).next; Traced(g, w, origin, c'.s.path, lo, c'.idx)
  {
    var path := Batch(g, w, c.s.path, c.idx);
    BatchTraced(g, w, origin, c.s.path, lo, c.idx);
    SettleAllTraced(g, w, origin, Batched(g, w, c), lo, c.idx, |path|);
  }

  /** In every configuration of a run, each id the run appended is one it started
      with or the target of a control edge of an earlier position of that run. */
  lemma {:induction false} RunIsTraced(g: Graph, w: World, origin: seq<Id>, trace: seq<Config>, lo: nat, j: nat)
    requires WellFormed(g) && IsTrace(g, w, trace) && j < |trace|
    requires lo <= trace[0].idx && Traced(g, w, origin, trace[0].s.path, lo, trace[0].idx)
    ensures lo <= trace[j].idx <= |trace[j].s.path|
    ensures Traced(g, w, origin, trace[j].s.path, lo, trace[j].idx)
    decreases j
  {
    TraceIndices(g, w, trace, j);
    if j > 0 {
      RunIsTraced(g, w, origin, trace, lo, j - 1);
      assert Completes(g, w, trace[j - 1], trace[j - 1 + 1]);
      WaveKeepsPrefix(g, w, trace[j - 1], false);
      WaveTraced(g, w, origin, trace[j - 1], lo);
    }
  }

  function Origin(w: World, path: seq<Id>): seq<Id> {
    if Resumed(w, path) then path else ["begin"]
  }

  lemma StartIsTraced(g: Graph, w: World, path: seq<Id>)
    requires WellFormed(g)
    ensures var c := Init(w, path); Traced(g, w, Origin(w, path), c.s.path, c.idx, c.idx)
  {
    var c := Init(w, path);
    forall p | c.idx <= p < |c.s.path| ensures Sourced(g, w, Origin(w, path), c.s.path, c.idx, c.idx, p) {
      assert c.s.path[p] in Origin(w, path);
    }
  }

  /** Safety of a whole run started on `path`: what was committed before it stays,
      everything appended is traced, and a run that errors leaves exactly the
      positions whose waves had completed. */
  lemma RunSafety(g: Graph, w: World, path: seq<Id>, cancelAt: nat) returns (trace: seq<Config>)
    requires WellFormed(g)
    ensures IsTrace(g, w, trace) && trace[0] == Init(w, path)
    ensures var lo := Init(w, path).idx;
            var v := RunFrom(g, w, Init(w, path), cancelAt);
            var c := trace[|trace| - 1];
            && v.Stop?
            && lo <= c.idx <= |c.s.path| && path[..lo] <= c.s.path[..c.idx]
            && Traced(g, w, Origin(w, path), c.s.path, lo, c.idx)
            && (v.result.Errored? ==> v.s.path == c.s.path[..c.idx])
            && (v.result.Completed? || v.result.Crashed? || v.result.Cancelled? ==> v.s.path == c.s.path)
  {
    trace := RunIsWaves(g, w, Init(w, path), cancelAt);
    var last := |trace| - 1;
    CommittedPrefixIsStable(g, w, trace, 0, last);
    StartIsTraced(g, w, path);
    RunIsTraced(g, w, Origin(w, path), trace, trace[0].idx, last);
    if trace[last].idx < |trace[last].s.path| {
      WaveKeepsPrefix(g, w, trace[last], last == cancelAt);
    }
  }

  // ----- Waiting for the user ---------------------------------------------------

  lemma {:induction false} FillUpCounts(g: Graph, pending: seq<Id>, id: Id)
    ensures multiset(FillUps(g, pending))[id] == if IsFillUp(g, id) then multiset(pending)[id] else 0
  {
    if pending != [] {
      FillUpCounts(g, pending[1..], id);
      assert pending == [pending[0]] + pending[1..];
    }
  }

  lemma {:induction false} OtherCounts(g: Graph, pending: seq<Id>, id: Id)
    ensures multiset(Others(g, pending))[id] == if id in g && !IsFillUp(g, id) then multiset(pending)[id] else 0
  {
    if pending != [] {
      OtherCounts(g, pending[1..], id);
      assert pending == [pending[0]] + pending[1..];
    }
  }

  lemma SavedCounts(g: Graph, pending: seq<Id>, id: Id)
    ensures multiset(Saved(g, pending))[id] == if id in g then multiset(pending)[id] else 0
  {
    FillUpCounts(g, pending, id);
    OtherCounts(g, pending, id);
  }

  /** Suspension conserves work exactly when every pending id is a component; ids
      that are none are dropped from the saved path. */
  lemma SavedIsPermutation(g: Graph, pending: seq<Id>)
    ensures multiset(Saved(g, pending)) == multiset(pending) <==> Known(g, pending)
    ensures Known(g, Saved(g, pending))
  {
    forall id ensures multiset(Saved(g, pending))[id] == if id in g then multiset(pending)[id] else 0 {
      SavedCounts(g, pending, id);
    }
    forall id | id in pending && id !in g ensures multiset(Saved(g, pending)) != multiset(pending) {
      assert multiset(pending)[id] > 0;
    }
    forall id | id in Saved(g, pending) ensures id in g {
      assert multiset(Saved(g, pending))[id] > 0;
    }
  }

  /** A pending id that is no component is not in the saved path. */
  lemma UnknownIdsAreDropped(form: Component)
    requires form.kind.UserFillUp?
    ensures Saved(map["UserFillUp:1" := form], ["UserFillUp:1", "Gone:1"]) == ["UserFillUp:1"]
  {
    var g := map["UserFillUp:1" := form];
    var pending := ["UserFillUp:1", "Gone:1"];
    assert "UserFillUp:1"[0] == 'U' && "Gone:1"[0] == 'G';
    assert pending[1..] == ["Gone:1"] && pending[1..][1..] == [];
    assert FillUps(g, pending[1..]) == [] && Others(g, pending[1..]) == [];
    assert FillUps(g, pending) == ["UserFillUp:1"] && Others(g, pending) == [];
  }

  /** The waiting forms come first. */
  lemma {:induction false} FillUpsFirst(g: Graph, pending: seq<Id>)
    ensures forall id :: id in FillUps(g, pending) ==> IsFillUp(g, id)
    ensures forall id :: id in Others(g, pending) ==> !IsFillUp(g, id)
    ensures HasFillUp(g, pending) <==> FillUps(g, pending) != []
  {
    if pending != [] {
      FillUpsFirst(g, pending[1..]);
      assert forall id :: id in pending <==> id == pending[0] || id in pending[1..];
    }
  }

  /** A run that stops to wait saves its pending components, forms first. When the
      forms carry their type name, the next run resumes at position 0 and its first
      wave runs exactly the saved components; when the first one does not, the next
      run starts over behind them. */
  lemma SuspendedRunResumes(g: Graph, w: World, c: Config, cancelled: bool, next: World)
    requires WellFormed(g) && c.idx < |c.s.path|
    requires Wave(g, w, c, cancelled).Stop? && Wave(g, w, c, cancelled).result.Suspended?
    ensures var pending := Surge(g, w, c).path[|Batch(g, w, c.s.path, c.idx)|..];
            var saved := Wave(g, w, c, cancelled).s.path;
            && saved == Saved(g, pending) && saved != [] && IsFillUp(g, saved[0])
            && (multiset(saved) == multiset(pending) <==> Known(g, pending))
            && (next.namesFillUp(saved[0]) ==>
                  && Init(next, saved) == Config(RunState(saved, [], false, []), 0)
                  && Known(g, saved) && Kept(g, next, [], saved) == saved)
            && (!next.namesFillUp(saved[0]) ==> Init(next, saved).idx == |saved|)
  {
    var pending := Surge(g, w, c).path[|Batch(g, w, c.s.path, c.idx)|..];
    var saved := Saved(g, pending);
    SavedIsPermutation(g, pending);
    FillUpsFirst(g, pending);
    assert saved[0] == FillUps(g, pending)[0];
    if next.namesFillUp(saved[0]) {
      assert [] + saved == saved;
      ResumedKeepsAll(g, next, [], saved);
    }
  }

  // ----- Termination on ranked canvases -------------------------------------------

  /** No containers, and every control edge goes up in rank. */
  ghost predicate Ranked(g: Graph, w: World, rank: Id -> nat)
    requires WellFormed(g)
  {
    && (forall id :: id in g ==> !IsContainer(g[id].kind))
    && forall q, id, t :: id in g && t in Targets(g, w, q, id) ==> rank(id) < rank(t)
  }

  ghost predicate AtLeast(rank: Id -> nat, path: seq<Id>, from: nat, k: nat) {
    forall p :: from <= p < |path| ==> k <= rank(path[p])
  }

  lemma {:induction false} SettleAllRanked(g: Graph, w: World, rank: Id -> nat, s: RunState, i: nat, end: nat, k: nat)
    requires WellFormed(g) && Ranked(g, w, rank)
    requires i <= end <= |s.path| && Known(g, s.path[i..end])
    requires AtLeast(rank, s.path, i, k) && AtLeast(rank, s.path, end, k + 1)
    ensures AtLeast(rank, SettleAll(g, w, s, i, end).path, end, k + 1)
    decreases end - i
  {
    if i < end {
      assert s.path[i] == s.path[i..end][0];
      SettleAppendsTargets(g, w, s, i);
      var s' := Settle(g, w, s, i);
      assert s'.path[i + 1..end] == s.path[i..end][1..];
      SettleAllRanked(g, w, rank, s', i + 1, end, k);
    }
  }

  lemma WaveRanked(g: Graph, w: World, rank: Id -> nat, c: Config, k: nat)
    requires WellFormed(g) && Ranked(g, w, rank) && c.idx < |c.s.path|
    requires AtLeast(rank, c.s.path, c.idx, k) && Wave(g, w, c, false).Continue?
    ensures var c' := Wave(g, w, c, false).next; AtLeast(rank, c'.s.path, c'.idx, k + 1)
  {
    var s := Batched(g, w, c);
    var pending := c.s.path[c.idx..];
    KeptWasPending(g, w, c.s.path[..c.idx], pending);
    forall p | c.idx <= p < |s.path| ensures k <= rank(s.path[p]) {
      assert s.path[p] in pending;
    }
    SettleAllRanked(g, w, rank, s, c.idx, |s.path|, k);
  }

  /** Everything pending in wave k has rank at least k. */
  lemma {:induction false} PendingRank(g: Graph, w: World, rank: Id -> nat, trace: seq<Config>, k: nat)
    requires WellFormed(g) && Ranked(g, w, rank) && IsTrace(g, w, trace) && k < |trace|
    ensures AtLeast(rank, trace[k].s.path, trace[k].idx, k)
    decreases k
  {
    if k > 0 {
      PendingRank(g, w, rank, trace, k - 1);
      assert Completes(g, w, trace[k - 1], trace[k - 1 + 1]);
      WaveRanked(g, w, rank, trace[k - 1], k - 1);
    }
  }

  /** A run that ends by itself does not depend on when a later cancel would be seen. */
  lemma LaterCancelIsUnseen(g: Graph, w: World, c: Config, early: nat, late: nat)
    requires WellFormed(g) && c.idx <= |c.s.path| && early <= late
    requires !RunFrom(g, w, c, early).Stop? || !RunFrom(g, w, c, early).result.Cancelled?
    ensures RunFrom(g, w, c, late) == RunFrom(g, w, c, early)
  {
    RunIterates(g, w, c, early);
    RunIterates(g, w, c, late);
    forall d ensures Turn(g, w, d, true).Stop?
      ensures !Turn(g, w, d, true).result.Cancelled? ==> Turn(g, w, d, false) == Turn(g, w, d, true)
    {
      CancelledTurn(g, w, d);
    }
    assert CancelStops(TurnsOf(g, w));
    LaterTurnsAreUnseen(TurnsOf(g, w), c, early, late);
  }

  lemma CancelledTurn(g: Graph, w: World, c: Config)
    requires WellFormed(g)
    ensures Turn(g, w, c, true).Stop?
    ensures !Turn(g, w, c, true).result.Cancelled? ==> Turn(g, w, c, false) == Turn(g, w, c, true)
  {
    if c.idx < |c.s.path| {
      CancelledWave(g, w, c);
    }
  }

  /** A wave that sees the cancel flag and does not end the run as cancelled would have failed anyway. */
  lemma CancelledWave(g: Graph, w: World, c: Config)
    requires WellFormed(g) && c.idx < |c.s.path|
    ensures Wave(g, w, c, true).Stop?
    ensures !Wave(g, w, c, true).result.Cancelled? ==> Wave(g, w, c, false) == Wave(g, w, c, true)
  {
  }

  /** On a ranked canvas with ranks up to `top`, a run ends by itself within top + 1
      waves: a cancel flag seen any later comes too late. */
  lemma RankedRunsEnd(g: Graph, w: World, rank: Id -> nat, top: nat, path: seq<Id>, cancelAt: nat)
    requires WellFormed(g) && Ranked(g, w, rank) && (forall id :: id in g ==> rank(id) <= top)
    requires cancelAt > top
    ensures var v := RunFrom(g, w, Init(w, path), cancelAt);
            v.Stop? && !v.result.Cancelled? && v == RunFrom(g, w, Init(w, path), top + 1)
  {
    var c := Init(w, path);
    var trace := RunIsWaves(g, w, c, top + 1);
    TraceFitsRanks(g, w, rank, top, trace);
    EndsByItself(g, w, trace[|trace| - 1], |trace| == top + 2, RunFrom(g, w, c, top + 1));
    LaterCancelIsUnseen(g, w, c, top + 1, cancelAt);
  }

  lemma EndsByItself(g: Graph, w: World, c: Config, cancelled: bool, v: Verdict)
    requires WellFormed(g) && Ends(g, w, c, cancelled, v)
    requires cancelled ==> c.idx >= |c.s.path| || !Known(g, c.s.path[c.idx..])
    ensures v.Stop? && !v.result.Cancelled?
  {
  }

  lemma TraceFitsRanks(g: Graph, w: World, rank: Id -> nat, top: nat, trace: seq<Config>)
    requires WellFormed(g) && Ranked(g, w, rank) && (forall id :: id in g ==> rank(id) <= top)
    requires IsTrace(g, w, trace)
    ensures |trace| <= top + 2
    ensures |trace| == top + 2 ==>
              var c := trace[top + 1];
              c.idx >= |c.s.path| || !Known(g, c.s.path[c.idx..])
  {
    if |trace| >= top + 2 {
      PendingRank(g, w, rank, trace, top + 1);
      var c := trace[top + 1];
      if c.idx < |c.s.path| {
        var id := c.s.path[c.idx];
        assert top + 1 <= rank(id);
        assert !Known(g, c.s.path[c.idx..]) by { assert c.s.path[c.idx..][0] == id; }
      }
      assert |trace| > top + 2 ==> Completes(g, w, trace[top + 1], trace[top + 1 + 1]);
    }
  }
}
