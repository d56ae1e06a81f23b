/** The order in which rings and pipes give messages back, over every run. What enters and what leaves a queue is
    read off the messages: which of them wait in it before a step and which after. */
module MeshFifo {
  import opened Mesh
  import opened Ledger
  import opened MeshInvariant
  import opened MeshSafety
  import opened MeshTheorems

  // ----------------------------------------------------------------- what enters and what leaves

  /** Message `id` waits in queue `q`. */
  predicate WaitsIn(s: State, q: QueueId, id: nat) {
    id in s.flights && s.flights[id].stage == Queued(q)
  }

  predicate Enters(s: State, s': State, q: QueueId, id: nat) {
    !WaitsIn(s, q, id) && WaitsIn(s', q, id)
  }

  predicate Leaves(s: State, s': State, q: QueueId, id: nat) {
    WaitsIn(s, q, id) && !WaitsIn(s', q, id)
  }

  /** The message that enters the queue between two states, if there is one. */
  ghost function Entering(s: State, s': State, q: QueueId): seq<nat> {
    if id: nat :| Enters(s, s', q, id) then [id] else []
  }

  ghost function Leaving(s: State, s': State, q: QueueId): seq<nat> {
    if id: nat :| Leaves(s, s', q, id) then [id] else []
  }

  /** All that entered the queue in a run, in order. */
  ghost function Puts(states: seq<State>, q: QueueId): seq<nat> {
    if |states| <= 1 then []
    else Puts(states[..|states| - 1], q) + Entering(states[|states| - 2], states[|states| - 1], q)
  }

  /** All that left it, in order. */
  ghost function Takes(states: seq<State>, q: QueueId): seq<nat> {
    if |states| <= 1 then []
    else Takes(states[..|states| - 1], q) + Leaving(states[|states| - 2], states[|states| - 1], q)
  }

  // ----------------------------------------------------------------- one step

  lemma WaitingIsQueued(spec: Spec, s: State, q: QueueId, id: nat)
    requires Inv(spec, s)
    ensures WaitsIn(s, q, id) <==> id in Queue(s, q)
    ensures Distinct(Queue(s, q))
  {
    assert QueuesOk(s.queues, s.flights);
    if q in s.queues { assert Distinct(s.queues[q]); }
    if id in Queue(s, q) { assert q in s.queues && id in s.queues[q]; }
  }

  /** A queue without repetitions that a step leaves as it was, puts one message behind, or takes the front of. */
  predicate Moved(before: seq<nat>, after: seq<nat>) {
    || after == before
    || (|after| > 0 && after[|after| - 1] !in before && after[..|after| - 1] == before)
    || (|before| > 0 && after == before[1..])
  }

  lemma PutMoves(cfg: Config, s: State, id: nat, op: Op, q: QueueId)
    requires id in s.flights && id !in Queue(s, q)
    ensures Moved(Queue(s, q), Queue(Perform(cfg, s, id, op), q))
  {
    var s' := Perform(cfg, s, id, op);
    if op.Enqueue? {
      if op.q == q && |Queue(s, q)| < Capacity(cfg, q) { assert Queue(s', q) == Queue(s, q) + [id]; }
    } else {
      KeepsQueues(cfg, s, id, op);
    }
  }

  lemma KeepsQueues(cfg: Config, s: State, id: nat, op: Op)
    requires id in s.flights && !op.Enqueue?
    ensures Perform(cfg, s, id, op).queues == s.queues
  {
  }

  lemma TakeMoves(s: State, q: QueueId, r: QueueId)
    requires Queue(s, r) != [] && Queue(s, r)[0] in s.flights
    ensures Moved(Queue(s, q), Queue(TakeStep(s, r), q))
  {
  }

  lemma OtherStepsKeepQueues(cfg: Config, s: State, step: Step)
    requires Enabled(cfg, s, step) && !step.Advance? && !step.Take?
    ensures Apply(cfg, s, step).queues == s.queues
  {
  }

  lemma StepMoves(cfg: Config, s: State, step: Step, q: QueueId)
    requires Inv(MeshSpec(cfg), s) && Enabled(cfg, s, step)
    ensures Moved(Queue(s, q), Queue(Apply(cfg, s, step), q))
  {
    if step.Advance? {
      WaitingIsQueued(MeshSpec(cfg), s, q, step.id);
      PutMoves(cfg, s, step.id, NextOp(cfg, s.mem, s.flights[step.id]), q);
    } else if step.Take? {
      TakeMoves(s, q, step.q);
    } else {
      OtherStepsKeepQueues(cfg, s, step);
    }
  }

  lemma EntersIff(spec: Spec, s: State, s': State, q: QueueId, id: nat)
    requires Inv(spec, s) && Inv(spec, s')
    ensures Enters(s, s', q, id) <==> id !in Queue(s, q) && id in Queue(s', q)
    ensures Leaves(s, s', q, id) <==> id in Queue(s, q) && id !in Queue(s', q)
  {
    WaitingIsQueued(spec, s, q, id);
    WaitingIsQueued(spec, s', q, id);
  }

  /** What a queue that moved has gained and lost. */
  lemma GainAndLoss(before: seq<nat>, after: seq<nat>) returns (put: seq<nat>, taken: seq<nat>)
    requires Distinct(before) && Moved(before, after)
    ensures |put| <= 1 && |taken| <= 1 && before + put == taken + after
    ensures forall id: nat :: (id in put <==> id !in before && id in after)
                           && (id in taken <==> id in before && id !in after)
  {
    put, taken := [], [];
    if after == before {
    } else if |after| > 0 && after[|after| - 1] !in before && after[..|after| - 1] == before {
      put := [after[|after| - 1]];
      assert after == before + put;
    } else {
      taken := [before[0]];
      assert before == taken + after;
      assert before[0] !in after;
    }
  }

  /** The one that enters is put last, and the one that leaves was first. */
  lemma MovedBy(spec: Spec, s: State, s': State, q: QueueId)
    requires Inv(spec, s) && Inv(spec, s') && Moved(Queue(s, q), Queue(s', q))
    ensures Queue(s, q) + Entering(s, s', q) == Leaving(s, s', q) + Queue(s', q)
    ensures forall id: nat :: (Enters(s, s', q, id) <==> Entering(s, s', q) == [id])
                           && (Leaves(s, s', q, id) <==> Leaving(s, s', q) == [id])
  {
    WaitingIsQueued(spec, s, q, 0);
    var put, taken := GainAndLoss(Queue(s, q), Queue(s', q));
    forall id: nat ensures Enters(s, s', q, id) <==> id in put ensures Leaves(s, s', q, id) <==> id in taken {
      EntersIff(spec, s, s', q, id);
    }
    LogsAre(s, s', q, put, taken);
  }

  lemma LogsAre(s: State, s': State, q: QueueId, put: seq<nat>, taken: seq<nat>)
    requires |put| <= 1 && |taken| <= 1
    requires forall id: nat :: Enters(s, s', q, id) <==> id in put
    requires forall id: nat :: Leaves(s, s', q, id) <==> id in taken
    ensures Entering(s, s', q) == put && Leaving(s, s', q) == taken
    ensures forall id: nat :: (id in put <==> put == [id]) && (id in taken <==> taken == [id])
  {
    if put != [] { assert Enters(s, s', q, put[0]); }
    if taken != [] { assert Leaves(s, s', q, taken[0]); }
  }

  /** Each step of each thread puts behind what a queue holds, and takes what is at its front. */
  lemma StepIsFifo(cfg: Config, s: State, step: Step, q: QueueId)
    requires ValidConfig(cfg) && Inv(MeshSpec(cfg), s) && Enabled(cfg, s, step)
    ensures var s' := Apply(cfg, s, step);
      Queue(s, q) + Entering(s, s', q) == Leaving(s, s', q) + Queue(s', q)
  {
    StepKeeps(cfg, s, step);
    StepMoves(cfg, s, step, q);
    MovedBy(MeshSpec(cfg), s, Apply(cfg, s, step), q);
  }

  /** A step puts at most one message into a queue, and takes at most one from it. */
  lemma StepMovesOne(cfg: Config, s: State, step: Step, q: QueueId, id: nat)
    requires ValidConfig(cfg) && Inv(MeshSpec(cfg), s) && Enabled(cfg, s, step)
    ensures var s' := Apply(cfg, s, step);
      && (Enters(s, s', q, id) <==> Entering(s, s', q) == [id])
      && (Leaves(s, s', q, id) <==> Leaving(s, s', q) == [id])
  {
    StepKeeps(cfg, s, step);
    StepMoves(cfg, s, step, q);
    MovedBy(MeshSpec(cfg), s, Apply(cfg, s, step), q);
  }

  // ----------------------------------------------------------------- every run

  lemma LogsGrow(puts: seq<nat>, takes: seq<nat>, before: seq<nat>, after: seq<nat>, put: seq<nat>, taken: seq<nat>)
    requires puts == takes + before && before + put == taken + after
    ensures puts + put == (takes + taken) + after
  {
    assert puts + put == takes + (before + put);
  }

  lemma RunPrefix(cfg: Config, states: seq<State>, steps: seq<Step>, n: nat)
    requires Run(cfg, states, steps) && n <= |steps|
    ensures Run(cfg, states[..n + 1], steps[..n])
  {
  }

  /** Over every run, what was put into a queue is what was taken from it, in the same order, followed by what it
      still holds. */
  lemma {:induction false} FirstInFirstOut(cfg: Config, states: seq<State>, steps: seq<Step>, q: QueueId)
    requires ValidConfig(cfg) && Run(cfg, states, steps) && states[0] == Init
    ensures Puts(states, q) == Takes(states, q) + Queue(states[|states| - 1], q)
    decreases |steps|
  {
    if |steps| > 0 {
      var n := |steps| - 1;
      RunPrefix(cfg, states, steps, n);
      FirstInFirstOut(cfg, states[..n + 1], steps[..n], q);
      RunKeeps(cfg, states, steps, n);
      StepIsFifo(cfg, states[n], steps[n], q);
      LogsGrow(Puts(states[..n + 1], q), Takes(states[..n + 1], q), Queue(states[n], q), Queue(states[n + 1], q),
        Entering(states[n], states[n + 1], q), Leaving(states[n], states[n + 1], q));
    }
  }

  /** The k-th message taken from a queue is the k-th that was put. */
  lemma TakenInOrder(cfg: Config, states: seq<State>, steps: seq<Step>, q: QueueId, k: nat)
    requires ValidConfig(cfg) && Run(cfg, states, steps) && states[0] == Init && k < |Takes(states, q)|
    ensures k < |Puts(states, q)| && Takes(states, q)[k] == Puts(states, q)[k]
  {
    FirstInFirstOut(cfg, states, steps, q);
  }

  // ----------------------------------------------------------------- no overtaking

  /** Both wait in the queue, the first one further ahead. */
  predicate Ahead(ids: seq<nat>, first: nat, second: nat) {
    exists i, j :: 0 <= i < j < |ids| && ids[i] == first && ids[j] == second
  }

  lemma OrderKept(before: seq<nat>, after: seq<nat>, put: seq<nat>, taken: seq<nat>, first: nat, second: nat)
    requires Distinct(before) && Ahead(before, first, second) && before + put == taken + after && |taken| <= 1
    ensures taken != [second] && (taken == [first] || Ahead(after, first, second))
  {
    var i, j :| 0 <= i < j < |before| && before[i] == first && before[j] == second;
    if taken == [] {
      assert after == before + put;
      assert after[i] == first && after[j] == second;
    } else {
      assert taken[0] == (before + put)[0] == before[0];
      if i > 0 {
        assert (taken + after)[i] == after[i - 1] && (taken + after)[j] == after[j - 1];
        assert after[i - 1] == first && after[j - 1] == second;
      }
    }
  }

  /** A step keeps the order of two that wait, unless it takes the first. */
  lemma AheadStays(cfg: Config, s: State, step: Step, q: QueueId, first: nat, second: nat)
    requires ValidConfig(cfg) && Inv(MeshSpec(cfg), s) && Enabled(cfg, s, step)
    requires Ahead(Queue(s, q), first, second)
    ensures var s' := Apply(cfg, s, step);
      !Leaves(s, s', q, second) && (Leaves(s, s', q, first) || Ahead(Queue(s', q), first, second))
  {
    var s' := Apply(cfg, s, step);
    StepIsFifo(cfg, s, step, q);
    StepMovesOne(cfg, s, step, q, first);
    StepMovesOne(cfg, s, step, q, second);
    WaitingIsQueued(MeshSpec(cfg), s, q, second);
    OrderKept(Queue(s, q), Queue(s', q), Entering(s, s', q), Leaving(s, s', q), first, second);
  }

  lemma LastBehind(before: seq<nat>, after: seq<nat>, first: nat, second: nat)
    requires first in before && Moved(before, after) && second !in before && second in after
    ensures Ahead(after, first, second)
  {
    var i :| 0 <= i < |before| && before[i] == first;
    assert forall id | id in before[1..] :: id in before;
    var n := |after| - 1;
    assert after[..n] == before && after == after[..n] + [after[n]];
    assert after[i] == after[..n][i] == first && after[n] == second;
  }

  /** One that enters stands behind all that wait. */
  lemma EntersBehind(cfg: Config, s: State, step: Step, q: QueueId, first: nat, second: nat)
    requires ValidConfig(cfg) && Inv(MeshSpec(cfg), s) && Enabled(cfg, s, step)
    requires WaitsIn(s, q, first) && Enters(s, Apply(cfg, s, step), q, second)
    ensures Ahead(Queue(Apply(cfg, s, step), q), first, second)
  {
    var s' := Apply(cfg, s, step);
    StepKeeps(cfg, s, step);
    StepMoves(cfg, s, step, q);
    WaitingIsQueued(MeshSpec(cfg), s, q, first);
    WaitingIsQueued(MeshSpec(cfg), s, q, second);
    WaitingIsQueued(MeshSpec(cfg), s', q, second);
    LastBehind(Queue(s, q), Queue(s', q), first, second);
  }

  /** Between steps `from` and `to` of a run message `id` leaves the queue. */
  predicate LeftBetween(states: seq<State>, q: QueueId, id: nat, from: nat, to: nat)
    requires to < |states|
  {
    exists k :: from <= k < to && Leaves(states[k], states[k + 1], q, id)
  }

  lemma {:induction false} StillWaits(states: seq<State>, q: QueueId, id: nat, from: nat, to: nat)
    requires from <= to < |states| && WaitsIn(states[from], q, id) && !LeftBetween(states, q, id, from, to)
    ensures WaitsIn(states[to], q, id)
    decreases |states| - from
  {
    if from < to {
      assert !Leaves(states[from], states[from + 1], q, id);
      StillWaits(states, q, id, from + 1, to);
    }
  }

  lemma AheadAt(cfg: Config, states: seq<State>, steps: seq<Step>, q: QueueId, first: nat, second: nat, i: nat)
    requires ValidConfig(cfg) && Run(cfg, states, steps) && states[0] == Init && i < |steps|
    requires Ahead(Queue(states[i], q), first, second)
    ensures !Leaves(states[i], states[i + 1], q, second)
    ensures Leaves(states[i], states[i + 1], q, first) || Ahead(Queue(states[i + 1], q), first, second)
  {
    RunKeeps(cfg, states, steps, i);
    AheadStays(cfg, states[i], steps[i], q, first, second);
  }

  lemma {:induction false} StillAhead(cfg: Config, states: seq<State>, steps: seq<Step>, q: QueueId, first: nat,
      second: nat, from: nat, to: nat)
    requires ValidConfig(cfg) && Run(cfg, states, steps) && states[0] == Init
    requires from <= to < |steps| && Ahead(Queue(states[from], q), first, second)
    requires !LeftBetween(states, q, first, from, to)
    ensures !Leaves(states[to], states[to + 1], q, second)
    decreases |states| - from
  {
    AheadAt(cfg, states, steps, q, first, second, from);
    if from < to {
      assert !Leaves(states[from], states[from + 1], q, first);
      StillAhead(cfg, states, steps, q, first, second, from + 1, to);
    }
  }

  /** Of two messages put into the same queue in any run, the one put earlier is taken first. */
  lemma NoOvertaking(cfg: Config, states: seq<State>, steps: seq<Step>, q: QueueId, first: nat, second: nat, i: nat,
      j: nat, l: nat)
    requires ValidConfig(cfg) && Run(cfg, states, steps) && states[0] == Init
    requires i < j < l < |steps|
    requires Enters(states[i], states[i + 1], q, first)
    requires Enters(states[j], states[j + 1], q, second)
    requires Leaves(states[l], states[l + 1], q, second)
    ensures exists k :: i < k < l && Leaves(states[k], states[k + 1], q, first)
  {
    if !LeftBetween(states, q, first, i + 1, l) {
      assert !LeftBetween(states, q, first, i + 1, j);
      StillWaits(states, q, first, i + 1, j);
      RunKeeps(cfg, states, steps, j);
      EntersBehind(cfg, states[j], steps[j], q, first, second);
      StillAhead(cfg, states, steps, q, first, second, j + 1, l);
    }
  }

  /** A message that goes on waiting is not touched: it is taken with the descriptor it was put with. */
  lemma WaitingIsUntouched(cfg: Config, s: State, step: Step, q: QueueId, id: nat)
    requires ValidConfig(cfg) && Inv(MeshSpec(cfg), s) && Enabled(cfg, s, step) && WaitsIn(s, q, id)
    ensures var s' := Apply(cfg, s, step);
      id in s'.flights && s'.flights[id].msg == s.flights[id].msg && s'.flights[id].desc == s.flights[id].desc
  {
    if step.Advance? {
      OthersUntouched(cfg, s, step.id, NextOp(cfg, s.mem, s.flights[step.id]), id);
    } else if step.BeginWrite? || step.BeginInject? {
      FlightIsOld(MeshSpec(cfg), s, id);
      BeginLeaves(cfg, s, step, id);
    } else {
      OtherStepsLeave(cfg, s, step, id);
    }
  }

  lemma BeginLeaves(cfg: Config, s: State, step: Step, id: nat)
    requires Enabled(cfg, s, step) && (step.BeginWrite? || step.BeginInject?) && id in s.flights && id < s.next
    ensures id in Apply(cfg, s, step).flights && Apply(cfg, s, step).flights[id] == s.flights[id]
  {
  }

  lemma OtherStepsLeave(cfg: Config, s: State, step: Step, id: nat)
    requires Enabled(cfg, s, step) && !step.Advance? && !step.BeginWrite? && !step.BeginInject?
    requires id in s.flights && s.flights[id].stage.Queued?
    ensures var s' := Apply(cfg, s, step);
      id in s'.flights && s'.flights[id].msg == s.flights[id].msg && s'.flights[id].desc == s.flights[id].desc
  {
  }
}
