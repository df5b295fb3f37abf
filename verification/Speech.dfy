/** The speech protocol inside a streamed message: a producer puts sentences on a
    queue of four slots, workers synthesise them and finish in any order, and a
    reorder buffer releases the audio in sentence order. */
module Speech {
  import opened Wrappers

  const QUEUE_SLOTS := 4

  datatype Outcome = Audio(bytes: seq<nat>) | Failed

  /** An empty audio result is falsy, so nothing is emitted for it. */
  predicate Audible(o: Outcome) {
    o.Audio? && o.bytes != []
  }

  datatype Job = Job(sequence: nat, text: string)
  datatype Completion = Completion(sequence: nat, outcome: Outcome)

  /** A message event carrying audio, tagged with the sentence it belongs to. */
  datatype Clip = Clip(sequence: nat, bytes: seq<nat>)

  // ----- The reorder buffer -------------------------------------------------

  function Collect(completed: map<nat, Outcome>, results: seq<Completion>): map<nat, Outcome>
    decreases |results|
  {
    if results == [] then completed
    else Collect(completed[results[0].sequence := results[0].outcome], results[1..])
  }

  datatype Drained = Drained(completed: map<nat, Outcome>, next: nat, clips: seq<Clip>)

  function ClipOf(n: nat, o: Outcome): seq<Clip> {
    if Audible(o) then [Clip(n, o.bytes)] else []
  }

  function Release(completed: map<nat, Outcome>, next: nat): Drained
    decreases |completed|
  {
    if next !in completed then Drained(completed, next, [])
    else
      var rest := Release(completed - {next}, next + 1);
      rest.(clips := ClipOf(next, completed[next]) + rest.clips)
  }

  class ReorderBuffer {
    var results: seq<Completion>
    var completed: map<nat, Outcome>
    var next: nat

    method CollectResults()
      modifies this
      ensures results == [] && next == old(next)
      ensures completed == Collect(old(completed), old(results))
    {
      while results != []
        invariant Collect(completed, results) == Collect(old(completed), old(results))
        invariant next == old(next)
        decreases |results|
      {
        completed := completed[results[0].sequence := results[0].outcome];
        results := results[1..];
      }
    }

    method ReleaseReady() returns (clips: seq<Clip>)
      modifies this
      ensures results == old(results)
      ensures Drained(completed, next, clips) == Release(old(completed), old(next))
    {
      clips := [];
      ghost var all := Release(completed, next);
      while next in completed
        invariant results == old(results)
        invariant Continues(all, completed, next, clips)
        decreases |completed|
      {
        ReleaseStep(all, completed, next, clips);
        clips := clips + ClipOf(next, completed[next]);
        completed := completed - {next};
        next := next + 1;
      }
      assert clips + [] == clips;
    }

    /** One drain: empty the result queue into the buffer, then release the
        contiguous run of finished sentences. */
    method DrainReady() returns (clips: seq<Clip>)
      modifies this
      ensures results == []
      ensures Drained(completed, next, clips) ==
              Release(Collect(old(completed), old(results)), old(next))
    {
      CollectResults();
      clips := ReleaseReady();
    }
  }

  /** Releasing from here after `clips` amounts to the whole release `all`. */
  ghost predicate Continues(all: Drained, completed: map<nat, Outcome>, next: nat, clips: seq<Clip>) {
    var rest := Release(completed, next);
    all == Drained(rest.completed, rest.next, clips + rest.clips)
  }

  lemma ReleaseStep(all: Drained, completed: map<nat, Outcome>, next: nat, clips: seq<Clip>)
    requires next in completed && Continues(all, completed, next, clips)
    ensures Continues(all, completed - {next}, next + 1, clips + ClipOf(next, completed[next]))
  {
    var one := ClipOf(next, completed[next]);
    var rest := Release(completed - {next}, next + 1).clips;
    assert clips + (one + rest) == (clips + one) + rest;
  }

  // ----- The protocol as a state machine ------------------------------------

  /** What the producer does next: hand over a sentence, drain, or wait for the
      queue to be fully processed. */
  datatype Op = Put(text: string) | Drain | Join

  datatype State = State(
    todo: seq<Op>,
    scheduled: nat,
    queue: seq<Job>,
    workers: seq<Option<Job>>,
    unfinished: nat,
    results: seq<Completion>,
    completed: map<nat, Outcome>,
    next: nat,
    clips: seq<Clip>,
    texts: seq<string>,          // history: the sentence behind each sequence number
    outcomes: map<nat, Outcome>) // history: how each synthesis ended

  datatype Action = Produce | Take(worker: nat) | Finish(worker: nat, outcome: Outcome)

  function Next(s: State, a: Action): Option<State> {
    match a
    case Produce =>
      if s.todo == [] then None
      else
        var s' := s.(todo := s.todo[1..]);
        (match s.todo[0]
         case Put(text) =>
           if |s.queue| < QUEUE_SLOTS then
             Some(s'.(queue := s.queue + [Job(s.scheduled, text)],
                      scheduled := s.scheduled + 1,
                      unfinished := s.unfinished + 1,
                      texts := s.texts + [text]))
           else None
         case Drain =>
           var d := Release(Collect(s.completed, s.results), s.next);
           Some(s'.(results := [], completed := d.completed, next := d.next,
                    clips := s.clips + d.clips))
         case Join =>
           if s.unfinished == 0 then Some(s') else None)
    case Take(w) =>
      if w < |s.workers| && s.workers[w].None? && s.queue != [] then
        Some(s.(workers := s.workers[w := Some(s.queue[0])], queue := s.queue[1..]))
      else None
    case Finish(w, outcome) =>
      if w < |s.workers| && s.workers[w].Some? && s.unfinished > 0 then
        var n := s.workers[w].value.sequence;
        Some(s.(workers := s.workers[w := None],
                results := s.results + [Completion(n, outcome)],
                unfinished := s.unfinished - 1,
                outcomes := s.outcomes[n := outcome]))
      else None
  }

  function Run(s: State, actions: seq<Action>): Option<State>
    decreases |actions|
  {
    if actions == [] then Some(s)
    else match Next(s, actions[0])
      case None => None
      case Some(s') => Run(s', actions[1..])
  }

  /** The producer's program always ends by joining the queue and draining once. */
  ghost predicate WellFormedProgram(body: seq<Op>, workers: nat) {
    && Join !in body
    && (workers == 0 ==> forall op | op in body :: !op.Put?)
  }

  function Start(body: seq<Op>, workers: nat): State {
    State(body + [Join, Drain], 0, [], seq(workers, _ => None), 0, [], map[], 0, [], [], map[])
  }

  // ----- The invariant ------------------------------------------------------

  function BusyCount(workers: seq<Option<Job>>): nat {
    if workers == [] then 0
    else (if workers[0].Some? then 1 else 0) + BusyCount(workers[1..])
  }

  ghost predicate Busy(s: State, n: nat) {
    exists w :: 0 <= w < |s.workers| && s.workers[w].Some? && s.workers[w].value.sequence == n
  }

  ghost predicate HasCompletion(results: seq<Completion>, n: nat) {
    exists i :: 0 <= i < |results| && results[i].sequence == n
  }

  ghost predicate InResults(s: State, n: nat) {
    HasCompletion(s.results, n)
  }

  function Clips(n: nat, outcomes: map<nat, Outcome>): seq<Clip> {
    if n == 0 then []
    else Clips(n - 1, outcomes) +
         (if n - 1 in outcomes then ClipOf(n - 1, outcomes[n - 1]) else [])
  }

  /** The number of sentences already taken off the queue. */
  function Taken(s: State): int {
    s.scheduled - |s.queue|
  }

  ghost predicate QueueInv(s: State) {
    && |s.queue| <= QUEUE_SLOTS
    && 0 <= s.next <= Taken(s)
    && |s.texts| == s.scheduled
    && forall i :: 0 <= i < |s.queue| ==>
         s.queue[i] == Job(Taken(s) + i, s.texts[Taken(s) + i])
  }

  /** Every sentence sits in at most one place. */
  ghost predicate Exclusive(s: State) {
    && (forall w :: 0 <= w < |s.workers| && s.workers[w].Some? ==>
          var n := s.workers[w].value.sequence;
          && s.next <= n < Taken(s)
          && n < |s.texts| && s.workers[w].value.text == s.texts[n]
          && n !in s.outcomes)
    && (forall v, w :: 0 <= v < w < |s.workers| && s.workers[v].Some? && s.workers[w].Some? ==>
          s.workers[v].value.sequence != s.workers[w].value.sequence)
    && (forall i :: 0 <= i < |s.results| ==>
          var n := s.results[i].sequence;
          && s.next <= n < Taken(s)
          && n !in s.completed
          && n in s.outcomes && s.outcomes[n] == s.results[i].outcome)
    && (forall i, j :: 0 <= i < j < |s.results| ==> s.results[i].sequence != s.results[j].sequence)
    && (forall n :: n in s.completed ==>
          s.next <= n < Taken(s) && n in s.outcomes && s.outcomes[n] == s.completed[n])
  }

  /** No sentence is lost. */
  ghost predicate Covered(s: State) {
    && (forall n :: n in s.outcomes ==> n < Taken(s))
    && (forall n :: 0 <= n < s.next ==> n in s.outcomes)
    && (forall n :: s.next <= n < Taken(s) ==>
          if n in s.outcomes then InResults(s, n) || n in s.completed else Busy(s, n))
  }

  /** What is left of the program, and what the last two steps may rely on. */
  ghost predicate ProgramInv(s: State) {
    && (|s.todo| >= 2 ==> exists body :: WellFormedProgram(body, |s.workers|) && s.todo == body + [Join, Drain])
    && (|s.todo| == 1 ==> s.todo == [Drain])
    && (|s.todo| < 2 ==> s.unfinished == 0)
    && (|s.todo| == 0 ==> s.results == [] && s.next !in s.completed)
    && (|s.workers| == 0 ==> s.scheduled == 0)
  }

  ghost predicate Inv(s: State) {
    && QueueInv(s)
    && Exclusive(s)
    && Covered(s)
    && ProgramInv(s)
    && s.unfinished == |s.queue| + BusyCount(s.workers)
    && s.clips == Clips(s.next, s.outcomes)
  }

  // ----- What one drain does ------------------------------------------------

  /** A drain releases exactly the gap-free run of finished sentences from `next`
      on, and keeps everything else buffered. */
  lemma {:induction false} ReleaseIsMaximalRun(completed: map<nat, Outcome>, next: nat)
    ensures var d := Release(completed, next);
            && next <= d.next && d.next !in completed
            && (forall n :: next <= n < d.next ==> n in completed)
            && (forall n :: n in d.completed <==> n in completed && !(next <= n < d.next))
            && (forall n :: n in d.completed ==> d.completed[n] == completed[n])
    decreases |completed|
  {
    if next in completed {
      ReleaseIsMaximalRun(completed - {next}, next + 1);
      forall n | next <= n < Release(completed, next).next ensures n in completed {
        assert n == next || n in completed - {next};
      }
    }
  }

  lemma {:induction false} ReleaseClips(completed: map<nat, Outcome>, next: nat, outcomes: map<nat, Outcome>)
    requires forall n :: n in completed ==> n in outcomes && outcomes[n] == completed[n]
    ensures var d := Release(completed, next);
            Clips(next, outcomes) + d.clips == Clips(d.next, outcomes)
    decreases |completed|
  {
    if next in completed {
      ReleaseClips(completed - {next}, next + 1, outcomes);
      var one := ClipOf(next, completed[next]);
      var rest := Release(completed - {next}, next + 1).clips;
      assert Clips(next, outcomes) + (one + rest) == (Clips(next, outcomes) + one) + rest;
    }
  }

  lemma {:induction false} CollectKeepsEverything(completed: map<nat, Outcome>, results: seq<Completion>, outcomes: map<nat, Outcome>)
    requires forall n :: n in completed ==> n in outcomes && outcomes[n] == completed[n]
    requires forall i :: 0 <= i < |results| ==>
               results[i].sequence in outcomes && outcomes[results[i].sequence] == results[i].outcome
    ensures var all := Collect(completed, results);
            && (forall n :: n in all ==> n in outcomes && outcomes[n] == all[n])
            && (forall n :: n in all <==> n in completed || HasCompletion(results, n))
    decreases |results|
  {
    if results != [] {
      var r := results[0];
      CollectKeepsEverything(completed[r.sequence := r.outcome], results[1..], outcomes);
      forall n: nat ensures HasCompletion(results, n) <==> n == r.sequence || HasCompletion(results[1..], n) {
        if HasCompletion(results, n) {
          var i :| 0 <= i < |results| && results[i].sequence == n;
          assert i > 0 ==> results[1..][i - 1].sequence == n;
        }
      }
    }
  }

  lemma {:induction false} ClipsFrame(n: nat, outcomes: map<nat, Outcome>, k: nat, o: Outcome)
    requires n <= k
    ensures Clips(n, outcomes[k := o]) == Clips(n, outcomes)
  {
    if n > 0 {
      ClipsFrame(n - 1, outcomes, k, o);
    }
  }

  lemma {:induction false} BusyCountUpdate(workers: seq<Option<Job>>, w: nat, slot: Option<Job>)
    requires w < |workers| && slot.Some? != workers[w].Some?
    ensures BusyCount(workers[w := slot]) == BusyCount(workers) + (if slot.Some? then 1 else -1)
  {
    if w == 0 {
      assert workers[w := slot][1..] == workers[1..];
    } else {
      BusyCountUpdate(workers[1..], w - 1, slot);
      assert workers[w := slot][1..] == workers[1..][w - 1 := slot];
    }
  }

  // ----- Every step keeps the invariant -------------------------------------

  lemma StartInv(body: seq<Op>, workers: nat)
    requires WellFormedProgram(body, workers)
    ensures Inv(Start(body, workers))
  {
    var s := Start(body, workers);
    IdleCount(s.workers);
    assert s.todo == body + [Join, Drain];
  }

  lemma {:induction false} IdleCount(workers: seq<Option<Job>>)
    ensures (forall w :: 0 <= w < |workers| ==> workers[w].None?) <==> BusyCount(workers) == 0
  {
    if workers != [] {
      IdleCount(workers[1..]);
      if forall w :: 0 <= w < |workers[1..]| ==> workers[1..][w].None? {
        forall w | 0 < w < |workers| ensures workers[w].None? {
          assert workers[1..][w - 1].None?;
        }
      }
    }
  }

  lemma PutKeepsInv(s: State)
    requires Inv(s) && s.todo != [] && s.todo[0].Put? && Next(s, Produce).Some?
    ensures Inv(Next(s, Produce).value)
  {
    var s' := Next(s, Produce).value;
    ProgramStep(s);
    assert Taken(s') == Taken(s);
    assert Exclusive(s');
    forall n | s'.next <= n < Taken(s')
      ensures if n in s'.outcomes then InResults(s', n) || n in s'.completed else Busy(s', n)
    {
      assert if n in s.outcomes then InResults(s, n) || n in s.completed else Busy(s, n);
    }
  }

  /** The remaining program shrinks from the front and keeps its closing steps. */
  lemma ProgramStep(s: State)
    requires ProgramInv(s) && s.todo != []
    ensures |s.todo[1..]| >= 2 ==>
              exists body :: WellFormedProgram(body, |s.workers|) && s.todo[1..] == body + [Join, Drain]
    ensures |s.todo[1..]| == 1 ==> s.todo[1..] == [Drain] && s.todo[0] == Join
    ensures |s.todo| == 1 ==> s.todo[0] == Drain
    ensures |s.workers| == 0 ==> !s.todo[0].Put?
    ensures |s.todo[1..]| >= 2 ==> s.todo[0] != Join
  {
    if |s.todo| >= 2 {
      var body :| WellFormedProgram(body, |s.workers|) && s.todo == body + [Join, Drain];
      if body != [] {
        assert s.todo[1..] == body[1..] + [Join, Drain];
        assert s.todo[0] == body[0] && body[0] in body;
        assert WellFormedProgram(body[1..], |s.workers|);
      } else {
        assert s.todo == [Join, Drain];
      }
    }
  }

  lemma JoinKeepsInv(s: State)
    requires Inv(s) && s.todo != [] && s.todo[0].Join? && Next(s, Produce).Some?
    ensures Inv(Next(s, Produce).value)
  {
    var s' := Next(s, Produce).value;
    ProgramStep(s);
    forall n | s'.next <= n < Taken(s')
      ensures if n in s'.outcomes then InResults(s', n) || n in s'.completed else Busy(s', n)
    {
      assert if n in s.outcomes then InResults(s, n) || n in s.completed else Busy(s, n);
    }
  }

  /** What a drain may rely on: it releases finished sentences from `next` on, up
      to the first gap, and keeps the finished ones beyond it. */
  ghost predicate DrainsTo(s: State, d: Drained) {
    && s.next <= d.next <= Taken(s) && d.next !in d.completed
    && (forall n :: n in d.completed ==> n in s.outcomes && d.completed[n] == s.outcomes[n])
    && (forall n :: n in d.completed <==> d.next <= n && (n in s.completed || InResults(s, n)))
    && (forall n :: s.next <= n < d.next ==> n in s.outcomes)
    && Clips(s.next, s.outcomes) + d.clips == Clips(d.next, s.outcomes)
  }

  function AfterDrain(s: State, d: Drained): State
    requires s.todo != []
  {
    s.(todo := s.todo[1..], results := [], completed := d.completed, next := d.next, clips := s.clips + d.clips)
  }

  /** What is released of finished sentences that all lie between two numbers. */
  lemma ReleaseUpTo(all: map<nat, Outcome>, next: nat, taken: nat, outcomes: map<nat, Outcome>)
    requires next <= taken && forall n :: n in all ==> next <= n < taken && n in outcomes && outcomes[n] == all[n]
    ensures var d := Release(all, next);
            && next <= d.next <= taken && d.next !in d.completed
            && (forall n :: n in d.completed ==> n in outcomes && d.completed[n] == outcomes[n])
            && (forall n :: n in d.completed <==> d.next <= n && n in all)
            && (forall n :: next <= n < d.next ==> n in outcomes)
            && Clips(next, outcomes) + d.clips == Clips(d.next, outcomes)
  {
    ReleaseIsMaximalRun(all, next);
    ReleaseClips(all, next, outcomes);
    assert taken !in all;
  }

  lemma CollectedLies(s: State, n: nat)
    requires Exclusive(s)
    ensures var all := Collect(s.completed, s.results);
            && (n in all <==> n in s.completed || InResults(s, n))
            && (n in all ==> s.next <= n < Taken(s) && n in s.outcomes && s.outcomes[n] == all[n])
  {
    CollectKeepsEverything(s.completed, s.results, s.outcomes);
  }

  lemma ReleaseDrains(s: State)
    requires QueueInv(s) && Exclusive(s) && Covered(s)
    ensures DrainsTo(s, Release(Collect(s.completed, s.results), s.next))
  {
    var all := Collect(s.completed, s.results);
    forall n | n in all
      ensures s.next <= n < Taken(s) && n in s.outcomes && s.outcomes[n] == all[n]
      ensures n in s.completed || InResults(s, n)
    {
      CollectedLies(s, n);
    }
    forall n: nat | n in s.completed || InResults(s, n) ensures n in all {
      CollectedLies(s, n);
    }
    ReleaseUpTo(all, s.next, Taken(s), s.outcomes);
  }

  lemma DrainExclusive(s: State, d: Drained)
    requires QueueInv(s) && Exclusive(s) && Covered(s) && s.todo != [] && DrainsTo(s, d)
    ensures QueueInv(AfterDrain(s, d)) && Exclusive(AfterDrain(s, d))
  {
    forall w | 0 <= w < |s.workers| && s.workers[w].Some?
      ensures d.next <= s.workers[w].value.sequence
    {
      assert s.workers[w].value.sequence !in s.outcomes;
    }
    forall n | n in d.completed ensures n < Taken(s) {
      assert n in s.outcomes;
    }
  }

  lemma DrainCovered(s: State, d: Drained)
    requires QueueInv(s) && Exclusive(s) && Covered(s) && s.todo != [] && DrainsTo(s, d)
    ensures Covered(AfterDrain(s, d))
  {
    var s' := AfterDrain(s, d);
    forall n | s'.next <= n < Taken(s')
      ensures if n in s'.outcomes then n in s'.completed else Busy(s', n)
    {
      assert if n in s.outcomes then InResults(s, n) || n in s.completed else Busy(s, n);
    }
  }

  lemma DrainKeepsInv(s: State)
    requires Inv(s) && s.todo != [] && s.todo[0].Drain?
    ensures Inv(Next(s, Produce).value)
  {
    var d := Release(Collect(s.completed, s.results), s.next);
    ReleaseDrains(s);
    DrainExclusive(s, d);
    DrainCovered(s, d);
    ProgramStep(s);
    assert Next(s, Produce).value == AfterDrain(s, d);
  }

  lemma TakeKeepsPlaces(s: State, w: nat, n: nat)
    requires Inv(s) && Next(s, Take(w)).Some? && s.next <= n < Taken(s)
    ensures var s' := Next(s, Take(w)).value;
            if n in s'.outcomes then InResults(s', n) || n in s'.completed else Busy(s', n)
  {
    var s' := Next(s, Take(w)).value;
    assert if n in s.outcomes then InResults(s, n) || n in s.completed else Busy(s, n);
    if n !in s.outcomes {
      var v :| 0 <= v < |s.workers| && s.workers[v].Some? && s.workers[v].value.sequence == n;
      assert s'.workers[v] == s.workers[v];
    }
  }

  lemma TakeKeepsInv(s: State, w: nat)
    requires Inv(s) && Next(s, Take(w)).Some?
    ensures Inv(Next(s, Take(w)).value)
  {
    var s' := Next(s, Take(w)).value;
    BusyCountUpdate(s.workers, w, Some(s.queue[0]));
    assert s'.workers[w].Some? && s'.workers[w].value.sequence == Taken(s);
    forall n | s'.next <= n < Taken(s')
      ensures if n in s'.outcomes then InResults(s', n) || n in s'.completed else Busy(s', n)
    {
      if n < Taken(s) {
        TakeKeepsPlaces(s, w, n);
      }
    }
  }

  lemma FinishExclusive(s: State, w: nat, outcome: Outcome)
    requires QueueInv(s) && Exclusive(s) && Next(s, Finish(w, outcome)).Some?
    ensures Exclusive(Next(s, Finish(w, outcome)).value)
  {
    var s' := Next(s, Finish(w, outcome)).value;
    var k := s.workers[w].value.sequence;
    forall v | 0 <= v < |s'.workers| && s'.workers[v].Some?
      ensures s'.workers[v] == s.workers[v] && s'.workers[v].value.sequence != k {
    }
    forall i | 0 <= i < |s'.results|
      ensures s.next <= s'.results[i].sequence < Taken(s)
      ensures s'.results[i].sequence !in s.completed
      ensures s'.results[i].sequence in s'.outcomes
      ensures s'.outcomes[s'.results[i].sequence] == s'.results[i].outcome
      ensures i < |s.results| ==> s'.results[i].sequence != k
    {
      assert i < |s.results| ==> s'.results[i] == s.results[i];
    }
  }

  lemma FinishCovered(s: State, w: nat, outcome: Outcome)
    requires QueueInv(s) && Exclusive(s) && Covered(s) && Next(s, Finish(w, outcome)).Some?
    ensures Covered(Next(s, Finish(w, outcome)).value)
  {
    var s' := Next(s, Finish(w, outcome)).value;
    var k := s.workers[w].value.sequence;
    assert s'.results[|s.results|].sequence == k;
    forall n | s'.next <= n < Taken(s')
      ensures if n in s'.outcomes then InResults(s', n) || n in s'.completed else Busy(s', n)
    {
      if n != k {
        assert if n in s.outcomes then InResults(s, n) || n in s.completed else Busy(s, n);
        if InResults(s, n) {
          var i :| 0 <= i < |s.results| && s.results[i].sequence == n;
          assert s'.results[i].sequence == n;
        }
        if n !in s.outcomes {
          var v :| 0 <= v < |s.workers| && s.workers[v].Some? && s.workers[v].value.sequence == n;
          assert s'.workers[v] == s.workers[v];
        }
      }
    }
  }

  lemma FinishKeepsInv(s: State, w: nat, outcome: Outcome)
    requires Inv(s) && Next(s, Finish(w, outcome)).Some?
    ensures Inv(Next(s, Finish(w, outcome)).value)
  {
    FinishExclusive(s, w, outcome);
    FinishCovered(s, w, outcome);
    BusyCountUpdate(s.workers, w, None);
    ClipsFrame(s.next, s.outcomes, s.workers[w].value.sequence, outcome);
  }

  lemma StepKeepsInv(s: State, a: Action)
    requires Inv(s) && Next(s, a).Some?
    ensures Inv(Next(s, a).value)
  {
    match a
    case Produce =>
      match s.todo[0] {
        case Put(_) => PutKeepsInv(s);
        case Drain => DrainKeepsInv(s);
        case Join => JoinKeepsInv(s);
      }
    case Take(w) => TakeKeepsInv(s, w);
    case Finish(w, outcome) => FinishKeepsInv(s, w, outcome);
  }

  lemma {:induction false} RunKeepsInv(s: State, actions: seq<Action>)
    requires Inv(s) && Run(s, actions).Some?
    ensures Inv(Run(s, actions).value)
    decreases |actions|
  {
    if actions != [] {
      StepKeepsInv(s, actions[0]);
      RunKeepsInv(Next(s, actions[0]).value, actions[1..]);
    }
  }

  // ----- Main results, over every interleaving ------------------------------

  /** Where a scheduled sentence can be. */
  datatype Place = InQueue(slot: nat) | AtWorker(worker: nat) | AsResult(position: nat) | Buffered | Consumed

  ghost predicate Holds(s: State, p: Place, n: nat) {
    match p
    case InQueue(i) => i < |s.queue| && s.queue[i].sequence == n
    case AtWorker(w) => w < |s.workers| && s.workers[w].Some? && s.workers[w].value.sequence == n
    case AsResult(i) => i < |s.results| && s.results[i].sequence == n
    case Buffered => n in s.completed
    case Consumed => n < s.next
  }

  /** At every reachable state each scheduled sentence is in exactly one place:
      none is lost, duplicated or consumed twice. */
  lemma ScheduledArePartitioned(body: seq<Op>, workers: nat, actions: seq<Action>, n: nat)
    requires WellFormedProgram(body, workers) && Run(Start(body, workers), actions).Some?
    ensures var s := Run(Start(body, workers), actions).value;
            if n < s.scheduled
            then exists p :: Holds(s, p, n) && forall q :: Holds(s, q, n) ==> q == p
            else forall q :: !Holds(s, q, n)
  {
    StartInv(body, workers);
    RunKeepsInv(Start(body, workers), actions);
    var s := Run(Start(body, workers), actions).value;
    if n < s.scheduled {
      var p := PlaceOf(s, n);
      forall q | Holds(s, q, n) ensures q == p {
        OnePlace(s, p, q, n);
      }
    } else {
      forall q ensures !Holds(s, q, n) {}
    }
  }

  lemma PlaceOf(s: State, n: nat) returns (p: Place)
    requires Inv(s) && n < s.scheduled
    ensures Holds(s, p, n)
  {
    if n >= Taken(s) {
      p := InQueue(n - Taken(s));
    } else if n < s.next {
      p := Consumed;
    } else if n !in s.outcomes {
      assert Busy(s, n);
      var w :| 0 <= w < |s.workers| && s.workers[w].Some? && s.workers[w].value.sequence == n;
      p := AtWorker(w);
    } else if n in s.completed {
      p := Buffered;
    } else {
      assert InResults(s, n);
      var i :| 0 <= i < |s.results| && s.results[i].sequence == n;
      p := AsResult(i);
    }
  }

  lemma OnePlace(s: State, p: Place, q: Place, n: nat)
    requires Inv(s) && Holds(s, p, n) && Holds(s, q, n)
    ensures p == q
  {
  }

  ghost predicate InOrder(clips: seq<Clip>) {
    forall i, j :: 0 <= i < j < |clips| ==> clips[i].sequence < clips[j].sequence
  }

  /** The clips of the sentences below `n`: one for each that ended with some audio, with that audio. */
  ghost predicate AudioOf(clips: seq<Clip>, n: nat, outcomes: map<nat, Outcome>) {
    && (forall c :: c in clips ==>
          c.sequence < n && c.sequence in outcomes && outcomes[c.sequence] == Audio(c.bytes) && c.bytes != [])
    && (forall k :: 0 <= k < n && k in outcomes && outcomes[k].Audio? && outcomes[k].bytes != [] ==>
          Clip(k, outcomes[k].bytes) in clips)
  }

  lemma OneMoreClip(earlier: seq<Clip>, n: nat, outcomes: map<nat, Outcome>)
    requires InOrder(earlier) && AudioOf(earlier, n, outcomes) && n in outcomes && Audible(outcomes[n])
    ensures InOrder(earlier + [Clip(n, outcomes[n].bytes)])
    ensures AudioOf(earlier + [Clip(n, outcomes[n].bytes)], n + 1, outcomes)
  {
    var c := Clip(n, outcomes[n].bytes);
    assert forall i :: 0 <= i < |earlier| ==> earlier[i] in earlier;
    assert forall x :: x in earlier + [c] <==> x in earlier || x == c;
  }

  /** The bytes of the clips one after the other. */
  function Sound(clips: seq<Clip>): seq<nat> {
    if clips == [] then [] else clips[0].bytes + Sound(clips[1..])
  }

  /** The bytes that the sentences from `k` to `n` ended with; a failed one gives none. */
  function Spoken(k: nat, n: nat, outcomes: map<nat, Outcome>): seq<nat>
    requires k <= n
    decreases n - k
  {
    if k == n then []
    else (if k in outcomes && outcomes[k].Audio? then outcomes[k].bytes else []) + Spoken(k + 1, n, outcomes)
  }

  lemma {:induction false} SoundAppend(a: seq<Clip>, b: seq<Clip>)
    ensures Sound(a + b) == Sound(a) + Sound(b)
  {
    if a == [] {
      assert a + b == b;
    } else {
      assert (a + b)[1..] == a[1..] + b;
      SoundAppend(a[1..], b);
    }
  }

  lemma {:induction false} SpokenOneMore(k: nat, n: nat, outcomes: map<nat, Outcome>)
    requires k <= n
    ensures Spoken(k, n + 1, outcomes) ==
            Spoken(k, n, outcomes) + (if n in outcomes && outcomes[n].Audio? then outcomes[n].bytes else [])
    decreases n - k
  {
    if k < n {
      SpokenOneMore(k + 1, n, outcomes);
    } else {
      assert Spoken(n + 1, n + 1, outcomes) == [];
    }
  }

  lemma SoundOfOne(n: nat, o: Outcome)
    ensures Sound(ClipOf(n, o)) == (if o.Audio? then o.bytes else [])
    ensures forall c :: c in ClipOf(n, o) ==> c.bytes != []
  {
    var clips := ClipOf(n, o);
    assert clips != [] ==> clips[1..] == [];
  }

  lemma {:induction false} ClipsAreSpoken(n: nat, outcomes: map<nat, Outcome>)
    ensures Sound(Clips(n, outcomes)) == Spoken(0, n, outcomes)
    ensures forall c :: c in Clips(n, outcomes) ==> c.bytes != []
  {
    if n > 0 {
      ClipsAreSpoken(n - 1, outcomes);
      SpokenOneMore(0, n - 1, outcomes);
      var one := if n - 1 in outcomes then ClipOf(n - 1, outcomes[n - 1]) else [];
      SoundAppend(Clips(n - 1, outcomes), one);
      if n - 1 in outcomes {
        SoundOfOne(n - 1, outcomes[n - 1]);
      }
    }
  }

  /** One drain speaks exactly the finished sentences it moves past, in order, and makes no empty clip. */
  lemma {:induction false} DrainIsSpoken(completed: map<nat, Outcome>, next: nat)
    ensures var d := Release(completed, next);
            && next <= d.next && Sound(d.clips) == Spoken(next, d.next, completed)
            && forall c :: c in d.clips ==> c.bytes != []
    decreases |completed|
  {
    if next in completed {
      var less := completed - {next};
      DrainIsSpoken(less, next + 1);
      var rest := Release(less, next + 1);
      SoundOfOne(next, completed[next]);
      SoundAppend(ClipOf(next, completed[next]), rest.clips);
      SpokenFrame(next + 1, rest.next, completed, next);
    }
  }

  lemma {:induction false} SpokenFrame(k: nat, n: nat, outcomes: map<nat, Outcome>, x: nat)
    requires x < k <= n
    ensures Spoken(k, n, outcomes - {x}) == Spoken(k, n, outcomes)
    decreases n - k
  {
    if k < n {
      SpokenFrame(k + 1, n, outcomes, x);
    }
  }

  lemma {:induction false} ClipsInOrder(n: nat, outcomes: map<nat, Outcome>)
    ensures InOrder(Clips(n, outcomes)) && AudioOf(Clips(n, outcomes), n, outcomes)
  {
    if n > 0 {
      ClipsInOrder(n - 1, outcomes);
      var earlier := Clips(n - 1, outcomes);
      if n - 1 in outcomes && Audible(outcomes[n - 1]) {
        OneMoreClip(earlier, n - 1, outcomes);
      } else {
        assert Clips(n, outcomes) == earlier;
      }
    }
  }

  /** Whatever the workers do, audio is released in strictly increasing sentence
      order, each clip being the audio synthesised for its own sentence; together the
      clips are the audio of all sentences before `next`, and none of them is empty. */
  lemma AudioInSentenceOrder(body: seq<Op>, workers: nat, actions: seq<Action>)
    requires WellFormedProgram(body, workers) && Run(Start(body, workers), actions).Some?
    ensures var s := Run(Start(body, workers), actions).value;
            && InOrder(s.clips)
            && AudioOf(s.clips, s.next, s.outcomes)
            && (forall n :: 0 <= n < s.next ==> n in s.outcomes)
            && Sound(s.clips) == Spoken(0, s.next, s.outcomes)
  {
    StartInv(body, workers);
    RunKeepsInv(Start(body, workers), actions);
    var s := Run(Start(body, workers), actions).value;
    ClipsInOrder(s.next, s.outcomes);
    ClipsAreSpoken(s.next, s.outcomes);
  }

  lemma {:induction false} SomeoneBusy(workers: seq<Option<Job>>) returns (w: nat)
    requires BusyCount(workers) > 0
    ensures w < |workers| && workers[w].Some?
  {
    if workers[0].Some? {
      w := 0;
    } else {
      var v := SomeoneBusy(workers[1..]);
      w := v + 1;
    }
  }

  /** Despite the four-slot queue, a run that has not finished can always move on. */
  lemma NoDeadlock(body: seq<Op>, workers: nat, actions: seq<Action>)
    requires WellFormedProgram(body, workers) && Run(Start(body, workers), actions).Some?
    requires Run(Start(body, workers), actions).value.todo != []
    ensures exists a :: Next(Run(Start(body, workers), actions).value, a).Some?
  {
    StartInv(body, workers);
    RunKeepsInv(Start(body, workers), actions);
    var s := Run(Start(body, workers), actions).value;
    if Next(s, Produce).None? {
      ProgramStep(s);
      assert s.unfinished > 0;
      if BusyCount(s.workers) > 0 {
        var w := SomeoneBusy(s.workers);
        assert Next(s, Finish(w, Failed)).Some?;
      } else {
        IdleCount(s.workers);
        assert Next(s, Take(0)).Some?;
      }
    }
  }

  /** The producer waits exactly where the queue is full, and at the end for sentences whose outcome is not known. */
  lemma ProducerWaitsIff(body: seq<Op>, workers: nat, actions: seq<Action>)
    requires WellFormedProgram(body, workers) && Run(Start(body, workers), actions).Some?
    ensures var s := Run(Start(body, workers), actions).value;
            Next(s, Produce).None? <==>
            || s.todo == []
            || (s.todo[0].Put? && |s.queue| == 4)
            || (s.todo[0].Join? && exists n: nat :: n < |s.texts| && n !in s.outcomes)
  {
    StartInv(body, workers);
    RunKeepsInv(Start(body, workers), actions);
    var s := Run(Start(body, workers), actions).value;
    OutstandingIff(s);
  }

  lemma OutstandingIff(s: State)
    requires Inv(s)
    ensures s.unfinished > 0 <==> exists n: nat :: n < |s.texts| && n !in s.outcomes
  {
    if |s.queue| > 0 {
      assert Taken(s) < |s.texts| && Taken(s) !in s.outcomes;
    } else if BusyCount(s.workers) > 0 {
      var w := SomeoneBusy(s.workers);
      var n := s.workers[w].value.sequence;
      assert n < |s.texts| && n !in s.outcomes;
    } else {
      forall n: nat | n < |s.texts| ensures n in s.outcomes {
        if n !in s.outcomes {
          assert Busy(s, n);
          IdleCount(s.workers);
          assert false;
        }
      }
    }
  }

  function Work(s: State): nat {
    4 * |s.todo| + 2 * |s.queue| + BusyCount(s.workers)
  }

  lemma StepDoesWork(s: State, a: Action)
    requires Next(s, a).Some?
    ensures Work(Next(s, a).value) < Work(s)
  {
    match a
    case Produce =>
    case Take(w) => BusyCountUpdate(s.workers, w, Some(s.queue[0]));
    case Finish(w, outcome) => BusyCountUpdate(s.workers, w, None);
  }

  /** Every interleaving ends: no run is longer than the work it starts with. */
  lemma {:induction false} RunsAreBounded(s: State, actions: seq<Action>)
    requires Run(s, actions).Some?
    ensures |actions| + Work(Run(s, actions).value) <= Work(s)
    decreases |actions|
  {
    if actions != [] {
      StepDoesWork(s, actions[0]);
      RunsAreBounded(Next(s, actions[0]).value, actions[1..]);
    }
  }

  function PutTexts(ops: seq<Op>): seq<string> {
    if ops == [] then []
    else (if ops[0].Put? then [ops[0].text] else []) + PutTexts(ops[1..])
  }

  lemma {:induction false} PutTextsAppend(a: seq<Op>, b: seq<Op>)
    ensures PutTexts(a + b) == PutTexts(a) + PutTexts(b)
  {
    if a == [] {
      assert a + b == b;
    } else {
      assert (a + b)[1..] == a[1..] + b;
      PutTextsAppend(a[1..], b);
    }
  }

  lemma PutTextsFirst(todo: seq<Op>)
    requires todo != []
    ensures PutTexts(todo) == (if todo[0].Put? then [todo[0].text] else []) + PutTexts(todo[1..])
  {
  }

  lemma StepKeepsTexts(s: State, a: Action)
    requires Next(s, a).Some?
    ensures var s' := Next(s, a).value; s'.texts + PutTexts(s'.todo) == s.texts + PutTexts(s.todo)
  {
    if a.Produce? {
      PutTextsFirst(s.todo);
      if s.todo[0].Put? {
        var text := s.todo[0].text;
        assert s.texts + [text] + PutTexts(s.todo[1..]) == s.texts + ([text] + PutTexts(s.todo[1..]));
      }
    }
  }

  lemma {:induction false} RunKeepsTexts(s: State, actions: seq<Action>)
    requires Run(s, actions).Some?
    ensures var s' := Run(s, actions).value; s'.texts + PutTexts(s'.todo) == s.texts + PutTexts(s.todo)
    decreases |actions|
  {
    if actions != [] {
      StepKeepsTexts(s, actions[0]);
      RunKeepsTexts(Next(s, actions[0]).value, actions[1..]);
    }
  }

  /** When the producer has joined the queue and drained once more, every sentence
      of the program has been consumed, nothing is left anywhere, and the released
      audio is that of all audible sentences, in order. */
  lemma FinishedMeansAllReleased(body: seq<Op>, workers: nat, actions: seq<Action>)
    requires WellFormedProgram(body, workers) && Run(Start(body, workers), actions).Some?
    requires Run(Start(body, workers), actions).value.todo == []
    ensures var s := Run(Start(body, workers), actions).value;
            && s.next == s.scheduled && s.completed == map[] && s.queue == [] && s.results == []
            && (forall w :: 0 <= w < |s.workers| ==> s.workers[w].None?)
            && s.texts == PutTexts(body) && |s.texts| == s.scheduled
            && s.clips == Clips(|PutTexts(body)|, s.outcomes)
            && InOrder(s.clips) && AudioOf(s.clips, |PutTexts(body)|, s.outcomes)
            && Sound(s.clips) == Spoken(0, |PutTexts(body)|, s.outcomes)
            && (forall n: nat :: n in s.outcomes <==> n < |PutTexts(body)|)
  {
    StartInv(body, workers);
    RunKeepsInv(Start(body, workers), actions);
    RunKeepsTexts(Start(body, workers), actions);
    PutTextsAppend(body, [Join, Drain]);
    assert PutTexts([Join, Drain]) == [];
    var s := Run(Start(body, workers), actions).value;
    IdleCount(s.workers);
    assert !Busy(s, s.next) && !InResults(s, s.next) && s.next !in s.completed;
    assert s.texts == s.texts + PutTexts(s.todo);
    assert [] + PutTexts(body + [Join, Drain]) == PutTexts(body) + [] == PutTexts(body);
    assert |s.texts| == s.scheduled == |PutTexts(body)|;
    ClipsInOrder(s.next, s.outcomes);
    ClipsAreSpoken(s.next, s.outcomes);
  }

  /** Without workers, a program that puts nothing never waits. */
  lemma WithoutWorkers(body: seq<Op>, actions: seq<Action>)
    requires WellFormedProgram(body, 0) && Run(Start(body, 0), actions).Some?
    ensures var s := Run(Start(body, 0), actions).value;
            s.scheduled == 0 && s.clips == [] && (s.todo != [] ==> Next(s, Produce).Some?)
  {
    StartInv(body, 0);
    RunKeepsInv(Start(body, 0), actions);
    RunKeepsWorkers(Start(body, 0), actions);
    var s := Run(Start(body, 0), actions).value;
    if s.todo != [] {
      ProgramStep(s);
    }
  }

  lemma {:induction false} RunKeepsWorkers(s: State, actions: seq<Action>)
    requires Run(s, actions).Some?
    ensures |Run(s, actions).value.workers| == |s.workers|
    decreases |actions|
  {
    if actions != [] {
      RunKeepsWorkers(Next(s, actions[0]).value, actions[1..]);
    }
  }
}
