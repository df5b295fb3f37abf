/** What settling a position tells and where it hands control, and how a wave and a run end: each spelled out on
    the component, its outcome and the path. */
module CanvasControl {
  import opened CanvasRun
  import opened CanvasProperties
  import opened Subsequences

  // ----- What settling a position tells ---------------------------------------------------

  function Lates(ids: seq<Id>, i: nat): (events: seq<Event>)
    ensures |events| == |ids| && forall j :: 0 <= j < |ids| ==> events[j] == Finished(ids[j], i, Late)
  {
    seq(|ids|, j requires 0 <= j < |ids| => Finished(ids[j], i, Late))
  }

  /** A flush finishes deferred components from the front, in order, up to the first that is still a stream. */
  lemma {:induction false} FlushIsMaximal(w: World, i: nat, s: RunState) returns (k: nat)
    ensures k <= |s.partials| && (forall j :: 0 <= j < k ==> !w.live(i, s.partials[j]))
    ensures k < |s.partials| ==> w.live(i, s.partials[k])
    ensures Flush(w, i, s) == s.(partials := s.partials[k..], events := s.events + Lates(s.partials[..k], i))
    decreases |s.partials|
  {
    if s.partials == [] || w.live(i, s.partials[0]) {
      k := 0;
      assert s.events + Lates([], i) == s.events;
    } else {
      var one := Finished(s.partials[0], i, Late);
      var less := s.(partials := s.partials[1..], events := s.events + [one]);
      var n := FlushIsMaximal(w, i, less);
      k := n + 1;
      assert Lates(s.partials[..k], i) == [one] + Lates(less.partials[..n], i);
      assert s.events + [one] + Lates(less.partials[..n], i) == s.events + Lates(s.partials[..k], i);
    }
  }

  /** The error of the outcome is neither redirected nor replaced by a default value. */
  predicate IsFatal(o: Outcome) {
    o.failed && o.goto == [] && !o.fallback
  }

  lemma HandledAs(s: RunState, o: Outcome)
    ensures var r := HandleError(s, o);
            && (r.failed <==> s.failed || IsFatal(o)) && r.partials == s.partials
            && r.events == s.events + Replaced(o)
  {
  }

  /** What is told of an error that a default value replaces. */
  function Replaced(o: Outcome): seq<Event> {
    if o.failed && o.goto == [] && o.fallback then [Shown, ShownEnd] else []
  }

  /** What is told of a component itself. */
  function Own(c: Component, id: Id, i: nat, defers: bool): seq<Event> {
    if c.kind == Iteration || c.kind == Loop || defers then [] else [Finished(id, i, Cause.Own)]
  }

  lemma ReportedAs(s: RunState, c: Component, id: Id, i: nat, o: Outcome)
    ensures var r := Report(s, c, id, i, o);
            var defers := c.kind != Iteration && c.kind != Loop && o.streaming && !s.failed;
            && r.failed == s.failed && r.partials == s.partials + (if defers then [id] else [])
            && r.events == s.events + Own(c, id, i, defers)
  {
  }

  lemma FollowedAs(g: Graph, s: RunState, c: Component, i: nat, o: Outcome)
    requires WellFormed(g) && c in g.Values
    ensures var r := Follow(g, s, c, i, o);
            r.failed == s.failed && r.partials == s.partials && r.events == s.events + Closed(g, c, i, o)
  {
  }

  /** What is told of the container of an item that ended. */
  function Closed(g: Graph, c: Component, i: nat, o: Outcome): seq<Event>
    requires WellFormed(g) && c in g.Values
  {
    if (c.kind == IterationItem || c.kind == LoopItem) && o.ended then [Finished(c.parent.value, i, OfItem)] else []
  }

  /** What comes of a component behind the messages. */
  lemma TurnsOut(g: Graph, s: RunState, c: Component, id: Id, i: nat, o: Outcome)
    requires WellFormed(g) && c in g.Values
    ensures var r := Follow(g, Report(HandleError(s, o), c, id, i, o), c, i, o);
            var defers := c.kind != Iteration && c.kind != Loop && o.streaming && !r.failed;
            && (r.failed <==> s.failed || IsFatal(o))
            && r.partials == s.partials + (if defers then [id] else [])
            && r.events == s.events + Told(g, c, id, i, o, defers)
  {
    var s1 := HandleError(s, o);
    var s2 := Report(s1, c, id, i, o);
    HandledAs(s, o);
    ReportedAs(s1, c, id, i, o);
    FollowedAs(g, s2, c, i, o);
    var defers := c.kind != Iteration && c.kind != Loop && o.streaming && !s1.failed;
    Joined(s.events, Replaced(o), Own(c, id, i, defers), Closed(g, c, i, o));
  }

  lemma Joined(a: seq<Event>, b: seq<Event>, c: seq<Event>, d: seq<Event>)
    ensures a + b + c + d == a + (b + c + d)
  {
  }

  function Told(g: Graph, c: Component, id: Id, i: nat, o: Outcome, defers: bool): seq<Event>
    requires WellFormed(g) && c in g.Values
  {
    Replaced(o) + Own(c, id, i, defers) + Closed(g, c, i, o)
  }

  /** What a settled position tells, in order: a message is shown and ends, deferred components that are done
      finish, a default value is shown, the component itself finishes unless it is a container or its content is
      still a stream, and the container of an item that ended finishes. */
  lemma SettledReports(g: Graph, w: World, s: RunState, i: nat) returns (k: nat)
    requires WellFormed(g) && i < |s.path| && s.path[i] in g
    ensures k <= |s.partials| && (forall j :: 0 <= j < k ==> !w.live(i, s.partials[j]))
    ensures if g[s.path[i]].kind == Message then k < |s.partials| ==> w.live(i, s.partials[k]) else k == 0
    ensures var id, r := s.path[i], Settle(g, w, s, i);
            var c, o := g[id], w.outcome(i, id);
            var defers := c.kind != Iteration && c.kind != Loop && o.streaming && !r.failed;
            && (r.failed <==> s.failed || (o.failed && o.goto == [] && !o.fallback))
            && r.partials == s.partials[k..] + (if defers then [id] else [])
            && r.events == s.events + Before(c, s.partials[..k], i) + Told(g, c, id, i, o, defers)
  {
    var id := s.path[i];
    var c, o := g[id], w.outcome(i, id);
    if c.kind == Message {
      var shown := s.(events := s.events + [Shown, ShownEnd]);
      k := FlushIsMaximal(w, i, shown);
      FlushKeepsPath(w, i, shown);
      TurnsOut(g, Flush(w, i, shown), c, id, i, o);
      Regroup(s.events, [Shown, ShownEnd], Lates(s.partials[..k], i));
    } else {
      k := 0;
      NothingBefore(s, c, i);
      TurnsOut(g, s, c, id, i, o);
    }
  }

  /** What a message tells before anything comes of it: that it is shown, and which deferred components finish. */
  function Before(c: Component, done: seq<Id>, i: nat): seq<Event> {
    if c.kind == Message then [Shown, ShownEnd] + Lates(done, i) else []
  }

  lemma Regroup(a: seq<Event>, b: seq<Event>, c: seq<Event>)
    ensures a + b + c == a + (b + c)
  {
  }

  lemma NothingBefore(s: RunState, c: Component, i: nat)
    requires c.kind != Message
    ensures s.events + Before(c, [], i) == s.events && s.partials[0..] == s.partials && s.partials[..0] == []
  {
  }

  // ----- Where it hands control ---------------------------------------------------------------

  /** The position in front of the k-th id. */
  function Front(before: seq<Id>, at: seq<int>, k: nat): int
    requires k <= |at|
  {
    if k == 0 then |before| - 1 else at[k - 1]
  }

  /** The ids stand on the path in turn, each behind the one before it, unless it equals the id in front of it
      and shares its place; nothing else has been appended. */
  ghost predicate PlacedAt(before: seq<Id>, ids: seq<Id>, path: seq<Id>, at: seq<int>) {
    && before <= path && |at| == |ids| && |path| == Front(before, at, |ids|) + 1
    && forall k :: 0 <= k < |ids| ==> InTurn(before, ids, path, at, k)
  }

  /** The k-th id stands behind the one before it. */
  predicate InTurn(before: seq<Id>, ids: seq<Id>, path: seq<Id>, at: seq<int>, k: nat)
    requires |at| == |ids| && k < |ids|
  {
    StandsAt(Front(before, at, k), at[k], ids[k], path)
  }

  /** The id stands behind the front, or at it if it is there. */
  predicate StandsAt(front: int, at: int, id: Id, path: seq<Id>) {
    && -1 <= front < |path| && 0 <= at < |path| && path[at] == id
    && at == if front >= 0 && path[front] == id then front else front + 1
  }

  lemma {:induction false} AppendAllPlaces(path: seq<Id>, ids: seq<Id>) returns (at: seq<int>)
    ensures PlacedAt(path, ids, AppendAll(path, ids), at)
    decreases |ids|
  {
    AppendAllExtends(path, ids);
    if ids == [] {
      at := [];
    } else {
      var path' := if path != [] && path[|path| - 1] == ids[0] then path else path + [ids[0]];
      var rest := AppendAllPlaces(path', ids[1..]);
      at := [|path'| - 1] + rest;
      PlacedBehind(path, path', ids, AppendAll(path, ids), rest, at);
    }
  }

  lemma StandsBehind(path: seq<Id>, path': seq<Id>, ids: seq<Id>, out: seq<Id>, rest: seq<int>, at: seq<int>, k: nat)
    requires 0 < k < |ids| && PlacedAt(path', ids[1..], out, rest) && at == [|path'| - 1] + rest
    ensures StandsAt(Front(path, at, k), at[k], ids[k], out)
  {
    assert InTurn(path', ids[1..], out, rest, k - 1);
  }

  lemma EndsBehind(path: seq<Id>, path': seq<Id>, ids: seq<Id>, out: seq<Id>, rest: seq<int>, at: seq<int>)
    requires ids != [] && PlacedAt(path', ids[1..], out, rest) && at == [|path'| - 1] + rest
    ensures |at| == |ids| && |out| == Front(path, at, |ids|) + 1
  {
  }

  lemma PlacedBehind(path: seq<Id>, path': seq<Id>, ids: seq<Id>, out: seq<Id>, rest: seq<int>, at: seq<int>)
    requires ids != [] && PlacedAt(path', ids[1..], out, rest) && at == [|path'| - 1] + rest
    requires path' == if path != [] && path[|path| - 1] == ids[0] then path else path + [ids[0]]
    ensures PlacedAt(path, ids, out, at)
  {
    EndsBehind(path, path', ids, out, rest, at);
    assert path <= out;
    forall k | 0 <= k < |ids| ensures InTurn(path, ids, out, at, k) {
      if k == 0 {
        StandsFirst(path, path', ids[0], out);
      } else {
        StandsBehind(path, path', ids, out, rest, at, k);
      }
    }
  }

  lemma StandsFirst(path: seq<Id>, path': seq<Id>, id: Id, out: seq<Id>)
    requires path' <= out && path' == if path != [] && path[|path| - 1] == id then path else path + [id]
    ensures StandsAt(|path| - 1, |path'| - 1, id, out)
  {
    assert path'[|path'| - 1] == id;
  }

  /** The downstream components; the last one in a container goes back to its start. */
  function Onwards(g: Graph, c: Component): seq<Id>
    requires WellFormed(g) && c in g.Values
  {
    if |c.downstream| > 0 then c.downstream
    else match c.parent
      case Some(p) => [g[p].start]
      case None => []
  }

  /** Where a component hands control, kind by kind. */
  predicate LeadsTo(g: Graph, c: Component, o: Outcome, ids: seq<Id>)
    requires WellFormed(g) && c in g.Values
  {
    match c.kind
    case IterationItem => ids == if o.ended then g[c.parent.value].downstream else Onwards(g, c)
    case LoopItem => ids == if o.ended then g[c.parent.value].downstream else Onwards(g, c)
    case Categorize => ids == o.chosen
    case Switch => ids == o.chosen
    case Iteration => ids == [c.start]
    case Loop => ids == [c.start]
    case ExitLoop => ids == if g[c.parent.value].kind == Loop then g[c.parent.value].downstream else Onwards(g, c)
    case _ => ids == Onwards(g, c)
  }

  lemma RouteLeads(g: Graph, c: Component, o: Outcome)
    requires WellFormed(g) && c in g.Values
    ensures LeadsTo(g, c, o, Route(g, c, o))
  {
  }

  lemma SettledPath(g: Graph, w: World, s: RunState, i: nat)
    requires WellFormed(g) && i < |s.path| && s.path[i] in g
    ensures var c, o := g[s.path[i]], w.outcome(i, s.path[i]);
            Settle(g, w, s, i).path ==
            if o.failed && o.goto != [] then s.path + o.goto else AppendAll(s.path, Route(g, c, o))
  {
    FlushKeepsPath(w, i, s.(events := s.events + [Shown, ShownEnd]));
  }

  /** A settled position hands control on as its kind says, each id in turn, unless an error redirects it. */
  lemma SettledHandsOn(g: Graph, w: World, s: RunState, i: nat) returns (ids: seq<Id>, at: seq<int>)
    requires WellFormed(g) && i < |s.path| && s.path[i] in g
    ensures var o, path := w.outcome(i, s.path[i]), Settle(g, w, s, i).path;
            if o.failed && o.goto != [] then path == s.path + o.goto else PlacedAt(s.path, ids, path, at)
    ensures var c, o := g[s.path[i]], w.outcome(i, s.path[i]);
            LeadsTo(g, c, o, ids)
  {
    var c, o := g[s.path[i]], w.outcome(i, s.path[i]);
    RouteLeads(g, c, o);
    SettledPath(g, w, s, i);
    ids := Route(g, c, o);
    at := AppendAllPlaces(s.path, ids);
  }

  /** An id that a settled position hands control to. */
  ghost predicate IsNext(g: Graph, c: Component, o: Outcome, t: Id)
    requires WellFormed(g) && c in g.Values
  {
    if o.failed && o.goto != [] then t in o.goto else exists ids :: LeadsTo(g, c, o, ids) && t in ids
  }

  lemma OneLead(g: Graph, c: Component, o: Outcome, ids: seq<Id>, t: Id)
    requires WellFormed(g) && c in g.Values && LeadsTo(g, c, o, ids) && IsNext(g, c, o, t) && !(o.failed && o.goto != [])
    ensures t in ids
  {
    var other :| LeadsTo(g, c, o, other) && t in other;
    assert other == ids;
  }

  lemma SettledReaches(g: Graph, w: World, s: RunState, i: nat, t: Id) returns (p: nat)
    requires WellFormed(g) && i < |s.path| && s.path[i] in g && IsNext(g, g[s.path[i]], w.outcome(i, s.path[i]), t)
    ensures var path := Settle(g, w, s, i).path; |s.path| - 1 <= p < |path| && path[p] == t
  {
    var ids, at := SettledHandsOn(g, w, s, i);
    var o := w.outcome(i, s.path[i]);
    if o.failed && o.goto != [] {
      var k :| 0 <= k < |o.goto| && o.goto[k] == t;
      p := |s.path| + k;
      assert (s.path + o.goto)[p] == o.goto[k];
    } else {
      OneLead(g, g[s.path[i]], o, ids, t);
      var k :| 0 <= k < |ids| && ids[k] == t;
      PlacesGrow(s.path, ids, Settle(g, w, s, i).path, at, k);
      p := at[k];
    }
  }

  lemma {:induction false} PlacesGrow(before: seq<Id>, ids: seq<Id>, path: seq<Id>, at: seq<int>, k: nat)
    requires PlacedAt(before, ids, path, at) && k < |ids|
    ensures |before| - 1 <= at[k] && 0 <= at[k] < |path| && path[at[k]] == ids[k]
  {
    if k > 0 {
      PlacesGrow(before, ids, path, at, k - 1);
    }
    assert InTurn(before, ids, path, at, k);
    StandsFar(Front(before, at, k), at[k], ids[k], path);
  }

  lemma StandsFar(front: int, at: int, id: Id, path: seq<Id>)
    requires StandsAt(front, at, id, path)
    ensures front <= at && 0 <= at < |path| && path[at] == id
  {
  }

  lemma {:induction false} WaveReaches(g: Graph, w: World, s: RunState, i: nat, end: nat, q: nat, t: Id) returns (p: nat)
    requires WellFormed(g) && i <= q < end <= |s.path| && Known(g, s.path[i..end])
    requires s.path[q] in g && IsNext(g, g[s.path[q]], w.outcome(q, s.path[q]), t)
    ensures var path := SettleAll(g, w, s, i, end).path; end - 1 <= p < |path| && path[p] == t
    decreases end - i
  {
    SettleAllStep(g, w, s, i, end);
    SettleKeepsPath(g, w, s, i);
    var s' := Settle(g, w, s, i);
    if q == i {
      p := SettledReaches(g, w, s, i, t);
      SettleAllKeepsPath(g, w, s', i + 1, end);
    } else {
      assert s'.path[q] == s.path[q];
      p := WaveReaches(g, w, s', i + 1, end, q, t);
    }
  }

  /** In every run, whatever a settled position hands control to stands on the path when its wave is over,
      behind the positions that ran or as the last of them. */
  lemma TargetsStand(g: Graph, w: World, trace: seq<Config>, j: nat, q: nat, t: Id) returns (p: nat)
    requires WellFormed(g) && IsTrace(g, w, trace) && j + 1 < |trace| && trace[j].idx <= q < trace[j + 1].idx
    requires q < |trace[j + 1].s.path| && trace[j + 1].s.path[q] in g
    requires IsNext(g, g[trace[j + 1].s.path[q]], w.outcome(q, trace[j + 1].s.path[q]), t)
    ensures trace[j + 1].idx - 1 <= p < |trace[j + 1].s.path| && trace[j + 1].s.path[p] == t
  {
    assert Completes(g, w, trace[j], trace[j + 1]);
    var c := trace[j];
    var s := Batched(g, w, c);
    SettleAllKeepsPath(g, w, s, c.idx, |s.path|);
    p := WaveReaches(g, w, s, c.idx, |s.path|, q, t);
  }

  /** A pending component runs in the next wave exactly if it is the start or a form, the path begins with a form
      that is resumed, or every component its inputs refer to stands in front of it. */
  lemma PendingRunsIff(g: Graph, w: World, before: seq<Id>, batch: seq<Id>) returns (flags: seq<bool>)
    requires Known(g, batch)
    ensures |flags| == |batch| && Kept(g, w, before, batch) == Select(batch, flags)
    ensures forall k :: 0 <= k < |batch| ==>
              var front := before + Select(batch[..k], flags[..k]);
              var c := g[batch[k]];
              (flags[k] <==>
               || c.kind == Begin || c.kind == UserFillUp
               || w.namesFillUp((front + batch[k..])[0])
               || forall r :: r in c.refs ==> r == "" || r in front)
  {
    flags := KeptIsTheGreedyFilter(g, w, before, batch);
    forall k | 0 <= k < |batch|
      ensures var front := before + Select(batch[..k], flags[..k]);
              var c := g[batch[k]];
              (flags[k] <==>
               || c.kind == Begin || c.kind == UserFillUp
               || w.namesFillUp((front + batch[k..])[0])
               || forall r :: r in c.refs ==> r == "" || r in front)
    {
      assert batch[k..][0] == batch[k];
    }
  }

  // ----- How a wave ends -----------------------------------------------------------------------------

  lemma {:induction false} FailsIff(g: Graph, w: World, s: RunState, i: nat, end: nat)
    requires WellFormed(g) && i <= end <= |s.path| && Known(g, s.path[i..end])
    ensures SettleAll(g, w, s, i, end).failed <==>
            s.failed || exists q :: i <= q < end && IsFatal(w.outcome(q, s.path[q]))
    decreases end - i
  {
    if i < end {
      SettleAllStep(g, w, s, i, end);
      var s' := Settle(g, w, s, i);
      var k := SettledReports(g, w, s, i);
      SettleKeepsPath(g, w, s, i);
      FailsIff(g, w, s', i + 1, end);
      assert forall q :: i + 1 <= q < end ==> s'.path[q] == s.path[q];
    }
  }

  /** Some component that ran failed with neither a goto list nor a default value. */
  ghost predicate HasFailed(w: World, ran: seq<Id>, from: nat) {
    exists q :: from <= q < |ran| && w.outcome(q, ran[q]).failed && w.outcome(q, ran[q]).goto == []
                && !w.outcome(q, ran[q]).fallback
  }

  ghost predicate HasForm(g: Graph, path: seq<Id>, from: nat) {
    exists p :: from <= p < |path| && path[p] in g && g[path[p]].kind == UserFillUp
  }

  /** When a wave ends how. `ran` is the path with the components that run, `later` the path once they have been
      settled: it crashes on an id that is no component, is cancelled if the flag is seen, fails if a component
      failed for good, waits if a form is pending and an answer is missing, and goes on in every other case. */
  lemma VerdictIff(g: Graph, w: World, c: Config, cancelled: bool) returns (ran: seq<Id>, later: seq<Id>)
    requires WellFormed(g) && c.idx < |c.s.path| && !c.s.failed
    ensures ran <= later && (Known(g, c.s.path[c.idx..]) ==>
              ran == c.s.path[..c.idx] + Kept(g, w, c.s.path[..c.idx], c.s.path[c.idx..]) && later == Surge(g, w, c).path)
    ensures var v := Wave(g, w, c, cancelled);
            var known := forall p :: c.idx <= p < |c.s.path| ==> c.s.path[p] in g;
            var waits := HasForm(g, later, |ran|) && !w.satisfied(|ran|);
            && (v.Stop? && v.result == Crashed <==> !known)
            && (v.Stop? && v.result == Cancelled <==> known && cancelled)
            && (v.Stop? && v.result == Errored <==> known && !cancelled && HasFailed(w, ran, c.idx))
            && (v.Stop? && v.result == Suspended <==> known && !cancelled && !HasFailed(w, ran, c.idx) && waits)
            && (v.Continue? <==> known && !cancelled && !HasFailed(w, ran, c.idx) && !waits)
            && (v.Continue? ==> v.next.idx == |ran| && v.next.s.path == later && !v.next.s.failed)
  {
    var pending := c.s.path[c.idx..];
    assert Known(g, pending) <==> forall p :: c.idx <= p < |c.s.path| ==> c.s.path[p] in g by {
      KnownFrom(g, c.s.path, c.idx);
    }
    if Known(g, pending) {
      ran, later := Batch(g, w, c.s.path, c.idx), Surge(g, w, c).path;
      SurgeKeepsPrefix(g, w, c);
      FailsIff(g, w, Batched(g, w, c), c.idx, |ran|);
      FormFrom(g, later, |ran|);
    } else {
      ran, later := [], [];
    }
  }

  lemma KnownFrom(g: Graph, path: seq<Id>, from: nat)
    requires from <= |path|
    ensures Known(g, path[from..]) <==> forall p :: from <= p < |path| ==> path[p] in g
  {
    if Known(g, path[from..]) {
      forall p | from <= p < |path| ensures path[p] in g {
        assert path[p] == path[from..][p - from];
      }
    }
  }

  lemma FormFrom(g: Graph, path: seq<Id>, from: nat)
    requires from <= |path|
    ensures HasFillUp(g, path[from..]) <==> HasForm(g, path, from)
  {
    if HasForm(g, path, from) {
      var p :| from <= p < |path| && path[p] in g && g[path[p]].kind == UserFillUp;
      assert path[p] == path[from..][p - from] && path[p] in path[from..] && IsFillUp(g, path[p]);
    }
    if id :| id in path[from..] && IsFillUp(g, id) {
      var k :| 0 <= k < |path[from..]| && path[from..][k] == id;
      assert from <= from + k < |path| && path[from + k] == id && g[path[from + k]].kind == UserFillUp;
    }
  }

  lemma {:induction false} TraceNeverFails(g: Graph, w: World, trace: seq<Config>, j: nat)
    requires WellFormed(g) && IsTrace(g, w, trace) && j < |trace| && !trace[0].s.failed
    ensures !trace[j].s.failed
  {
    if j > 0 {
      TraceNeverFails(g, w, trace, j - 1);
      assert Completes(g, w, trace[j - 1], trace[j - 1 + 1]);
      var ran, later := VerdictIff(g, w, trace[j - 1], false);
    }
  }

  function IsForm(g: Graph): Id -> bool {
    id => id in g && g[id].kind == UserFillUp
  }

  function IsOther(g: Graph): Id -> bool {
    id => id in g && g[id].kind != UserFillUp
  }

  /** The path saved for a run that waits: its pending forms in order, then its other pending components in order. */
  lemma SavedInOrder(g: Graph, pending: seq<Id>) returns (forms: seq<Id>, others: seq<Id>, at: seq<nat>, behind: seq<nat>)
    ensures Saved(g, pending) == forms + others
    ensures AreThose(forms, pending, at, IsForm(g))
    ensures AreThose(others, pending, behind, IsOther(g))
  {
    forms, others := FillUps(g, pending), Others(g, pending);
    at := FormsInOrder(g, pending);
    behind := OthersInOrder(g, pending);
  }

  lemma {:induction false} FormsInOrder(g: Graph, ids: seq<Id>) returns (at: seq<nat>)
    ensures AreThose(FillUps(g, ids), ids, at, IsForm(g))
  {
    if ids == [] {
      at := [];
    } else {
      var rest := FormsInOrder(g, ids[1..]);
      at := OneInFront(ids[0], FillUps(g, ids[1..]), ids[1..], rest, IsForm(g));
      assert [ids[0]] + ids[1..] == ids;
      assert (if IsForm(g)(ids[0]) then [ids[0]] else []) + FillUps(g, ids[1..]) == FillUps(g, ids);
    }
  }

  lemma {:induction false} OthersInOrder(g: Graph, ids: seq<Id>) returns (at: seq<nat>)
    ensures AreThose(Others(g, ids), ids, at, IsOther(g))
  {
    if ids == [] {
      at := [];
    } else {
      var rest := OthersInOrder(g, ids[1..]);
      at := OneInFront(ids[0], Others(g, ids[1..]), ids[1..], rest, IsOther(g));
      assert [ids[0]] + ids[1..] == ids;
      assert (if IsOther(g)(ids[0]) then [ids[0]] else []) + Others(g, ids[1..]) == Others(g, ids);
    }
  }

  // ----- How a run begins and ends ---------------------------------------------------------------------

  /** A run starts with `begin` behind the path it is given, or, where that begins with a form, at its first
      position, with nothing deferred, failed or told. It completes exactly if its waves exhaust the path, and
      otherwise ends as its last wave does. */
  lemma RunEndsAs(g: Graph, w: World, path: seq<Id>, cancelAt: nat) returns (trace: seq<Config>, ran: seq<Id>, later: seq<Id>)
    requires WellFormed(g)
    ensures IsTrace(g, w, trace) && |trace| <= cancelAt + 1
    ensures trace[0] == if path != [] && w.namesFillUp(path[0]) then Config(RunState(path, [], false, []), 0)
                        else Config(RunState(path + ["begin"], [], false, []), |path|)
    ensures var v := RunFrom(g, w, Init(w, path), cancelAt);
            var c := trace[|trace| - 1];
            var known := forall p :: c.idx <= p < |c.s.path| ==> c.s.path[p] in g;
            var cancelled := |trace| == cancelAt + 1;
            && v.Stop? && c.idx <= |c.s.path|
            && (v.result == Completed <==> c.idx == |c.s.path|)
            && (v.result == Completed ==> v.s.path == c.s.path && v.s.events == c.s.events + [WorkflowFinished])
            && (v.result == Crashed <==> !known)
            && (v.result == Cancelled <==> c.idx < |c.s.path| && known && cancelled)
            && (v.result == Errored <==> c.idx < |c.s.path| && known && !cancelled && HasFailed(w, ran, c.idx))
            && (v.result == Suspended <==>
                c.idx < |c.s.path| && known && !cancelled && !HasFailed(w, ran, c.idx))
            && (v.result == Suspended ==>
                  && HasForm(g, later, |ran|) && !w.satisfied(|ran|)
                  && v.s.events != [] && v.s.events[|v.s.events| - 1] == UserInputs)
  {
    trace := RunIsWaves(g, w, Init(w, path), cancelAt);
    var last := |trace| - 1;
    TraceIndices(g, w, trace, last);
    TraceNeverFails(g, w, trace, last);
    var c := trace[last];
    if c.idx < |c.s.path| {
      ran, later := VerdictIff(g, w, c, |trace| == cancelAt + 1);
    } else {
      ran, later := [], [];
    }
  }

  /** A wave first tells of every pending component, in order, that it starts. */
  lemma {:induction false} StartedInOrder(g: Graph, pending: seq<Id>)
    requires forall id :: id in pending ==> id in g
    ensures |StartedEvents(g, pending)| == |pending|
    ensures forall k :: 0 <= k < |pending| ==> StartedEvents(g, pending)[k] == Started(pending[k])
  {
    if pending != [] {
      StartedInOrder(g, pending[1..]);
    }
  }

  lemma {:induction false} SettleAllTells(g: Graph, w: World, s: RunState, i: nat, end: nat)
    requires WellFormed(g) && i <= end <= |s.path| && Known(g, s.path[i..end])
    ensures s.events <= SettleAll(g, w, s, i, end).events
    decreases end - i
  {
    if i < end {
      SettleAllStep(g, w, s, i, end);
      var k := SettledReports(g, w, s, i);
      SettleAllTells(g, w, Settle(g, w, s, i), i + 1, end);
    }
  }

  /** Then come the events of the positions, and nothing told before is changed. */
  lemma WaveTells(g: Graph, w: World, c: Config)
    requires WellFormed(g) && c.idx <= |c.s.path| && (forall p :: c.idx <= p < |c.s.path| ==> c.s.path[p] in g)
    ensures var told, n := Surge(g, w, c).events, |c.s.events|;
            && c.s.events <= told && n + |c.s.path| - c.idx <= |told|
            && forall p :: c.idx <= p < |c.s.path| ==> told[n + p - c.idx] == Started(c.s.path[p])
  {
    KnownFrom(g, c.s.path, c.idx);
    var pending := c.s.path[c.idx..];
    StartedInOrder(g, pending);
    var s := Batched(g, w, c);
    SettleAllTells(g, w, s, c.idx, |s.path|);
    var started := StartedEvents(g, pending);
    forall p | c.idx <= p < |c.s.path|
      ensures |c.s.events| + p - c.idx < |s.events| && s.events[|c.s.events| + p - c.idx] == Started(c.s.path[p])
    {
      assert started[p - c.idx] == Started(pending[p - c.idx]);
    }
  }
}
