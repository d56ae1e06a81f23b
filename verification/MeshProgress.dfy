/** Draining: without new traffic the pipeline runs dry, and it is never stuck on the way. */
module MeshProgress {
  import opened Descriptor
  import opened Mesh
  import opened Ledger
  import opened MeshInvariant
  import opened MeshSteps
  import opened MeshSafety
  import opened MeshTheorems

  // ----------------------------------------------------------------- the measure

  function CopyRank(c: Copy): nat {
    match c
    case Fresh => 2
    case Loaded(_) => 1
    case Stored => 0
  }

  /** Operations a message still needs, give or take the ones it may skip. */
  function Rank(st: Stage): nat {
    match st
    case WriteHeader(_, written) => if written then 59 else 60
    case WriteBody(_, _, written) => if written then 57 else 58
    case WriteAbort(_) => 1
    case TxRetry => 56
    case Queued(q) =>
      (match q
       case TxSq(_) => 55
       case SidecarTxSq => 49
       case SidecarRxSq => 44
       case RxSq(_) => 34
       case Notify(_) => 32)
    case TxTaken => 54
    case TxCopy(_, c) => 51 + CopyRank(c)
    case TxForward(_) => 50
    case RouteTaken => 48
    case Routing(_) => 47
    case RouteForward => 46
    case BridgeBody(_) => 3
    case BridgeFreeBody(_, _) => 2
    case BridgeFreeHeader(_, _) => 1
    case DropBody(_) => 2
    case DropHeader(_) => 1
    case Inject(_, written) => if written then 49 else 50
    case InjectAbort(_) => 1
    case RxRetry => 45
    case RxTaken => 43
    case BodyCopy(_, c) => 40 + CopyRank(c)
    case HeaderStart(_) => 39
    case HeaderCopy(_, _, c) => 36 + CopyRank(c)
    case RxForward(_, _) => 35
    case Polled => 33
    case Replied => 32
    case Orphaned => 0
    case ReadTaken => 31
    case ReadHeader(_) => 30
    case Handling(_, _) => 29
    case ReadFreeBody(_, _) => 28
    case Lost => 0
  }

  ghost function Total(flights: map<nat, Flight>): nat
    decreases |flights|
  {
    if flights == map[] then 0
    else
      var id :| id in flights;
      Rank(flights[id].stage) + Total(flights - {id})
  }

  /** The sum does not depend on the order of summation. */
  lemma {:induction false} TotalSplit(flights: map<nat, Flight>, id: nat)
    requires id in flights
    ensures Total(flights) == Rank(flights[id].stage) + Total(flights - {id})
    decreases |flights|
  {
    var k :| k in flights && Total(flights) == Rank(flights[k].stage) + Total(flights - {k});
    if k != id {
      TotalSplit(flights - {k}, id);
      TotalSplit(flights - {id}, k);
      assert flights - {k} - {id} == flights - {id} - {k};
    }
  }

  lemma TotalUpdate(flights: map<nat, Flight>, id: nat, f: Flight)
    requires id in flights && Rank(f.stage) < Rank(flights[id].stage)
    ensures Total(flights[id := f]) < Total(flights)
  {
    TotalSplit(flights, id);
    TotalSplit(flights[id := f], id);
    assert flights[id := f] - {id} == flights - {id};
  }

  // ----------------------------------------------------------------- draining steps

  /** An allocation that is refused and sends the descriptor back to the ring it came from. */
  ghost predicate Backpressure(cfg: Config, s: State, step: Step) {
    && step.Advance? && step.id in s.flights
    && var op := NextOp(cfg, s.mem, s.flights[step.id]);
       || (op.Alloc? && TurnedBack(op.refused) && FirstFree(cfg, s.owner, op.pool, 0) < 0)
       || (op.Continue? && TurnedBack(op.stage))
  }

  predicate TurnedBack(st: Stage) {
    st.TxRetry? || st.RxRetry?
  }

  /** A step that brings no new message and is not turned back by a full pool. */
  ghost predicate Drains(cfg: Config, s: State, step: Step) {
    Enabled(cfg, s, step) && !step.BeginWrite? && !step.BeginInject? && !Backpressure(cfg, s, step)
  }

  /** What the sidecar decides on a message, from its header and direction. A choice that depends on what was decided
      before, such as a worker counter, makes the decision depend on the message. */
  type Policy = (nat, Bytes, bool) -> Decision

  /** Only responses go to the bridge, and only registered pods are sent anything. */
  ghost predicate Admissible(cfg: Config, policy: Policy) {
    forall id, header, response :: Allowed(cfg, policy(id, header, response), response)
  }

  predicate Allowed(cfg: Config, d: Decision, response: bool) {
    (d.ToBridge? ==> response) && (d.Forward? ==> d.pod in cfg.registry)
  }

  function Decided(policy: Policy, id: nat, f: Flight): Decision
    requires f.stage.Routing?
  {
    policy(id, f.stage.header, f.desc.IsResponse())
  }

  /** If the step is a routing decision, it is the policy's. */
  predicate Follows(policy: Policy, s: State, step: Step) {
    step.Decide? && step.id in s.flights && s.flights[step.id].stage.Routing? ==>
      step.decision == Decided(policy, step.id, s.flights[step.id])
  }

  /** A draining step that is the policy's, and does not lose the destination. */
  ghost predicate Advances(cfg: Config, policy: Policy, s: State, step: Step) {
    Drains(cfg, s, step) && !step.LosePod? && Follows(policy, s, step)
  }

  /** Wherever an operation leads it is down, unless it is turned back. */
  ghost predicate LeadsDown(op: Op, rank: nat) {
    match op
    case Continue(stage) => Rank(stage) < rank || TurnedBack(stage)
    case Alloc(_, granted, refused) =>
      (forall i :: Rank(granted(i)) < rank) && (Rank(refused) < rank || TurnedBack(refused))
    case Free(_, stage) => Rank(stage) < rank
    case Write(_, _, stage) => Rank(stage) < rank
    case Enqueue(q, _) => Rank(Queued(q)) < rank
    case Answer(_, _) => 32 < rank
    case Leave(_, _) => 0 < rank
  }

  lemma WriterLeadsDown(cfg: Config, f: Flight)
    requires ThreadOf(f).Writer?
    ensures LeadsDown(WriterOp(cfg, f), Rank(f.stage))
  {
  }

  lemma DpaTxLeadsDown(cfg: Config, mem: Memory, f: Flight)
    requires ThreadOf(f).DpaTx?
    ensures LeadsDown(DpaTxOp(cfg, mem, f), Rank(f.stage))
  {
  }

  lemma DpaRxLeadsDown(cfg: Config, mem: Memory, f: Flight)
    requires ThreadOf(f).DpaRx? && !f.stage.DropBody? && !f.stage.DropHeader?
    ensures LeadsDown(DpaRxOp(cfg, mem, f), Rank(f.stage))
  {
  }

  lemma SidecarLeadsDown(cfg: Config, mem: Memory, f: Flight)
    requires (ThreadOf(f).Sidecar? && !f.stage.Routing?) || f.stage.DropBody? || f.stage.DropHeader?
    ensures LeadsDown(SidecarOp(cfg, mem, f), Rank(f.stage))
  {
  }

  lemma WorkerLeadsDown(cfg: Config, mem: Memory, f: Flight)
    requires ThreadOf(f).Poller? || ThreadOf(f).Reader?
    ensures LeadsDown(WorkerOp(cfg, mem, f), Rank(f.stage))
  {
  }

  lemma NextLeadsDown(cfg: Config, mem: Memory, f: Flight)
    requires !ThreadOf(f).Nobody? && !f.stage.Routing?
    ensures LeadsDown(NextOp(cfg, mem, f), Rank(f.stage))
  {
    match ThreadOf(f)
    case Writer(_) => WriterLeadsDown(cfg, f);
    case DpaTx => DpaTxLeadsDown(cfg, mem, f);
    case DpaRx =>
      if f.stage.DropBody? || f.stage.DropHeader? { SidecarLeadsDown(cfg, mem, f); } else { DpaRxLeadsDown(cfg, mem,
        f); }
    case Sidecar => SidecarLeadsDown(cfg, mem, f);
    case Poller(_) => WorkerLeadsDown(cfg, mem, f);
    case Reader(_) => WorkerLeadsDown(cfg, mem, f);
    case BridgeClient =>
  }

  lemma PerformLowers(cfg: Config, s: State, id: nat, op: Op)
    requires id in s.flights && LeadsDown(op, Rank(s.flights[id].stage))
    requires op.Alloc? && TurnedBack(op.refused) ==> FirstFree(cfg, s.owner, op.pool, 0) >= 0
    requires op.Continue? ==> !TurnedBack(op.stage)
    ensures Total(Perform(cfg, s, id, op).flights) < Total(s.flights)
  {
    var f := s.flights[id];
    match op
    case Continue(stage) => TotalUpdate(s.flights, id, f.(stage := stage));
    case Alloc(pool, granted, refused) =>
      var i := FirstFree(cfg, s.owner, pool, 0);
      TotalUpdate(s.flights, id, f.(stage := if i < 0 then refused else granted(i)));
    case Free(_, stage) => TotalUpdate(s.flights, id, f.(stage := stage));
    case Write(_, _, stage) => TotalUpdate(s.flights, id, f.(stage := stage));
    case Enqueue(q, x) =>
      if |Queue(s, q)| >= Capacity(cfg, q) { TotalUpdate(s.flights, id, f.(stage := Lost)); }
      else { TotalUpdate(s.flights, id, f.(desc := x, stage := Queued(q))); }
    case Answer(pod, index) =>
      TotalUpdate(s.flights, id, f.(stage := if (pod, index) in s.waiting then Replied else Orphaned));
    case Leave(_, _) => TotalSplit(s.flights, id);
  }

  lemma AdvanceLowers(cfg: Config, s: State, id: nat)
    requires Drains(cfg, s, Advance(id))
    ensures Total(Apply(cfg, s, Advance(id)).flights) < Total(s.flights)
  {
    NextLeadsDown(cfg, s.mem, s.flights[id]);
    PerformLowers(cfg, s, id, NextOp(cfg, s.mem, s.flights[id]));
  }

  lemma TakeLowers(cfg: Config, s: State, q: QueueId)
    requires Enabled(cfg, s, Take(q)) && s.flights[Queue(s, q)[0]].stage == Queued(q)
    ensures Total(Apply(cfg, s, Take(q)).flights) < Total(s.flights)
  {
    var id := Queue(s, q)[0];
    TotalUpdate(s.flights, id, s.flights[id].(stage := TakenStage(q, s.flights[id].desc)));
  }

  lemma DecideLowers(s: State, id: nat, d: Decision)
    requires id in s.flights && s.flights[id].stage.Routing?
    ensures Total(DecideStep(s, id, d).flights) < Total(s.flights)
  {
    var f := s.flights[id];
    match d
    case Forward(pod) =>
      TotalUpdate(s.flights, id, f.(desc := RoutedDescriptor(f.desc, pod), stage := RouteForward));
    case ToBridge => TotalUpdate(s.flights, id, f.(stage := BridgeBody(f.stage.header)));
    case NoWorker => TotalUpdate(s.flights, id, f.(stage := DropBody(false)));
  }

  lemma GoLowers(s: State, id: nat, stage: Stage)
    requires id in s.flights && Rank(stage) < Rank(s.flights[id].stage)
    ensures Total(Go(s, id, stage).flights) < Total(s.flights)
  {
    TotalUpdate(s.flights, id, s.flights[id].(stage := stage));
  }

  /** Every draining step lowers the sum of what remains to be done. */
  lemma DrainingLowers(spec: Spec, s: State, step: Step)
    requires Inv(spec, s) && Drains(spec.cfg, s, step)
    ensures Total(Apply(spec.cfg, s, step).flights) < Total(s.flights)
  {
    if step.Advance? {
      AdvanceLowers(spec.cfg, s, step.id);
    } else if step.Take? {
      FrontInFlight(spec, s, step.q);
      TakeLowers(spec.cfg, s, step.q);
    } else if step.Decide? {
      DecideLowers(s, step.id, step.decision);
    } else if step.TakeReply? {
      GoLowers(s, step.id, ReadTaken);
    } else {
      GoLowers(s, step.id, DropBody(true));
    }
  }

  /** A run of draining steps. */
  ghost predicate DrainingRun(cfg: Config, states: seq<State>, steps: seq<Step>) {
    Run(cfg, states, steps) && forall i | 0 <= i < |steps| :: Drains(cfg, states[i], steps[i])
  }

  /** Without new traffic and refusals a run is over after a number of steps known from its first state. */
  lemma {:induction false} DrainingEnds(cfg: Config, states: seq<State>, steps: seq<Step>)
    requires ValidConfig(cfg) && DrainingRun(cfg, states, steps) && Inv(MeshSpec(cfg), states[0])
    ensures |steps| + Total(states[|steps|].flights) <= Total(states[0].flights)
    ensures Inv(MeshSpec(cfg), states[|steps|])
    decreases |steps|
  {
    if steps != [] {
      var n := |steps| - 1;
      DrainingEnds(cfg, states[..n + 1], steps[..n]);
      DrainingLowers(MeshSpec(cfg), states[n], steps[n]);
      StepKeeps(cfg, states[n], steps[n]);
    }
  }

  // ----------------------------------------------------------------- never stuck

  /** The thread holding the message can go on whatever the pools look like. */
  predicate Busy(f: Flight) {
    !ThreadOf(f).Nobody? && !f.stage.TxTaken? && !f.stage.RxTaken?
  }

  /** Stages in which a message can hold an RX body slot. */
  predicate MayHoldRxBody(f: Flight) {
    Busy(f) || f.stage.Replied? || f.stage.Orphaned? || (f.stage.Queued? && (f.stage.q.RxSq? || f.stage.q.Notify?))
  }

  predicate MayHoldDpuHeader(f: Flight) {
    Busy(f) || f.stage.RxTaken? || (f.stage.Queued? && (f.stage.q.SidecarTxSq? || f.stage.q.SidecarRxSq?))
  }

  /** What the search for an enabled step needs to know of single messages. */
  ghost predicate Holders(spec: Spec, mem: Memory) {
    SlotHolders(spec, mem) && AllSensible(spec, mem)
  }

  ghost predicate SlotHolders(spec: Spec, mem: Memory) {
    forall f: Flight, sl: Slot {:trigger spec.own(f), sl.pool} | spec.ok(mem, f) && sl in spec.own(f) ::
      (sl.pool.HostRxBody? ==> MayHoldRxBody(f)) && (sl.pool == DpuTxHeader ==> MayHoldDpuHeader(f))
  }

  ghost predicate AllSensible(spec: Spec, mem: Memory) {
    forall f: Flight | spec.ok(mem, f) :: Sensible(spec.cfg, mem, f)
  }

  ghost predicate Sensible(cfg: Config, mem: Memory, f: Flight) {
    && f.stage != Lost && f.msg.pod in cfg.registry
    && (f.stage.TxTaken? ==> NextOp(cfg, mem, f) != Continue(TxRetry))
  }

  lemma HoldersOf(cfg: Config, f: Flight, sl: Slot)
    requires ValidConfig(cfg) && ValidMsg(cfg, f.msg) && Shape(cfg, f) && sl in Owned(cfg, f)
    ensures sl.pool.HostRxBody? ==> MayHoldRxBody(f)
    ensures sl.pool == DpuTxHeader ==> MayHoldDpuHeader(f)
  {
    var m, x := f.msg, f.desc;
    if HostRefs(cfg, m, x) { HostRefsResolve(cfg, m, x); }
    else if DpuRefs(cfg, m, x) { DpuRefsResolve(cfg, m, x); }
    else if IngressRefs(cfg, m, x) { IngressRefsResolve(cfg, m, x); }
  }

  lemma OkIsSensible(cfg: Config, mem: Memory, f: Flight)
    requires ValidConfig(cfg) && ValidMsg(cfg, f.msg) && Shape(cfg, f)
    ensures Sensible(cfg, mem, f)
  {
    if f.stage.TxTaken? {
      HostRefsResolve(cfg, f.msg, f.desc);
      assert DpaTxOp(cfg, mem, f).Alloc?;
    }
  }

  lemma MeshSlotHolders(cfg: Config, mem: Memory)
    requires ValidConfig(cfg)
    ensures SlotHolders(MeshSpec(cfg), mem)
  {
    forall f: Flight, sl: Slot | FlightOk(cfg, mem, f) && sl in Owned(cfg, f)
      ensures (sl.pool.HostRxBody? ==> MayHoldRxBody(f)) && (sl.pool == DpuTxHeader ==> MayHoldDpuHeader(f))
    {
      HoldersOf(cfg, f, sl);
    }
  }

  lemma MeshSensible(cfg: Config, mem: Memory)
    requires ValidConfig(cfg)
    ensures AllSensible(MeshSpec(cfg), mem)
  {
    forall f: Flight | FlightOk(cfg, mem, f) ensures Sensible(cfg, mem, f) {
      OkIsSensible(cfg, mem, f);
    }
  }

  lemma MeshHolders(cfg: Config, mem: Memory)
    requires ValidConfig(cfg)
    ensures Holders(MeshSpec(cfg), mem)
  {
    MeshSlotHolders(cfg, mem);
    MeshSensible(cfg, mem);
  }

  /** Every RX body slot of the service is held by an orphan: nothing will ever be copied there again. */
  ghost predicate HeldByOrphans(cfg: Config, s: State, svc: string) {
    forall i | 0 <= i < cfg.numSlots :: OrphanHolds(s, Slot(HostRxBody(svc), i))
  }

  ghost predicate OrphanHolds(s: State, sl: Slot) {
    sl in s.owner && s.owner[sl] in s.flights && s.flights[s.owner[sl]].stage.Orphaned?
  }

  /** If a pool is full, its first slot has an owner. */
  lemma FullHasOwner(spec: Spec, s: State, pool: PoolId) returns (id: nat)
    requires Inv(spec, s) && spec.cfg.numSlots >= 1 && FirstFree(spec.cfg, s.owner, pool, 0) < 0
    ensures id in s.flights && Slot(pool, 0) in spec.own(s.flights[id]) && spec.ok(s.mem, s.flights[id])
  {
    assert Slot(pool, 0) in s.owner;
    id := s.owner[Slot(pool, 0)];
  }

  /** If an RX body pool is full and orphans do not hold all of it, some other message holds a slot. */
  lemma FullHasLiveOwner(spec: Spec, s: State, svc: string) returns (id: nat)
    requires Inv(spec, s) && Holders(spec, s.mem) && FirstFree(spec.cfg, s.owner, HostRxBody(svc), 0) < 0
    requires !HeldByOrphans(spec.cfg, s, svc)
    ensures id in s.flights && MayHoldRxBody(s.flights[id]) && !s.flights[id].stage.Orphaned?
  {
    var i :| 0 <= i < spec.cfg.numSlots && !OrphanHolds(s, Slot(HostRxBody(svc), i));
    var sl := Slot(HostRxBody(svc), i);
    assert sl in s.owner;
    id := s.owner[sl];
    assert spec.ok(s.mem, s.flights[id]) && sl in spec.own(s.flights[id]) && sl.pool.HostRxBody?;
  }

  /** In a queue that some message is in, the front can be taken once the taker is idle. */
  lemma FrontCanGo(spec: Spec, policy: Policy, s: State, id: nat)
    requires Inv(spec, s) && id in s.flights && s.flights[id].stage.Queued? && Idle(s, Taker(s.flights[id].stage.q))
    ensures Advances(spec.cfg, policy, s, Take(s.flights[id].stage.q))
  {
    var q := s.flights[id].stage.q;
    assert id in s.queues[q];
    FrontInFlight(spec, s, q);
  }

  lemma BusyCanGo(cfg: Config, policy: Policy, s: State, id: nat) returns (step: Step)
    requires id in s.flights && Busy(s.flights[id]) && Admissible(cfg, policy)
    ensures Advances(cfg, policy, s, step)
  {
    if s.flights[id].stage.Routing? {
      var f := s.flights[id];
      step := Decide(id, Decided(policy, id, f));
      assert Allowed(cfg, policy(id, f.stage.header, f.desc.IsResponse()), f.desc.IsResponse());
    } else {
      step := Advance(id);
      BusyIsNotTurnedBack(cfg, s.mem, s.flights[id]);
    }
  }

  lemma BusyIsNotTurnedBack(cfg: Config, mem: Memory, f: Flight)
    requires Busy(f) && !f.stage.Routing?
    ensures NextOp(cfg, mem, f).Alloc? ==> !TurnedBack(NextOp(cfg, mem, f).refused)
    ensures NextOp(cfg, mem, f).Continue? ==> !TurnedBack(NextOp(cfg, mem, f).stage)
  {
  }

  function WantedPool(cfg: Config, f: Flight): PoolId {
    if f.stage.TxTaken? then DpuTxHeader else HostRxBody(Service(cfg, f.desc.dstPodId))
  }

  /** A taken descriptor either goes on or names a full pool. */
  lemma TakenGoesOrPoolFull(spec: Spec, policy: Policy, s: State, id: nat)
    requires Inv(spec, s) && id in s.flights && (s.flights[id].stage.TxTaken? || s.flights[id].stage.RxTaken?)
    ensures Advances(spec.cfg, policy, s, Advance(id))
      || FirstFree(spec.cfg, s.owner, WantedPool(spec.cfg, s.flights[id]), 0) < 0
      || NextOp(spec.cfg, s.mem, s.flights[id]) == Continue(TxRetry)
  {
  }

  /** With nobody busy, a thread is idle unless it has just taken a descriptor. */
  lemma NobodyBusy(s: State, t: Thread)
    requires forall id | id in s.flights :: !Busy(s.flights[id])
    requires t.DpaTx? ==> forall id | id in s.flights :: !s.flights[id].stage.TxTaken?
    requires t.DpaRx? ==> forall id | id in s.flights :: !s.flights[id].stage.RxTaken?
    requires !t.Nobody?
    ensures Idle(s, t)
  {
  }

  /** The worker's end: with nobody busy, a landed message can be taken. */
  lemma LandedCanGo(spec: Spec, policy: Policy, s: State, id: nat) returns (step: Step)
    requires Inv(spec, s) && id in s.flights && forall j | j in s.flights :: !Busy(s.flights[j])
    requires MayHoldRxBody(s.flights[id]) && !s.flights[id].stage.Orphaned?
    ensures Advances(spec.cfg, policy, s, step)
  {
    var f := s.flights[id];
    if f.stage.Replied? {
      NobodyBusy(s, Reader(f.desc.dstPodId));
      step := TakeReply(id);
    } else {
      NobodyBusy(s, Taker(f.stage.q));
      FrontCanGo(spec, policy, s, id);
      step := Take(f.stage.q);
    }
  }

  /** No service has lost its whole RX body pool to orphans. */
  ghost predicate PoolsOpen(cfg: Config, s: State) {
    forall svc :: !HeldByOrphans(cfg, s, svc)
  }

  /** The middle: with nobody busy and nothing landed, a message that holds a DPU header can go on. */
  lemma RoutedCanGo(spec: Spec, policy: Policy, s: State, id: nat) returns (step: Step)
    requires Inv(spec, s) && Holders(spec, s.mem) && PoolsOpen(spec.cfg, s)
    requires id in s.flights && MayHoldDpuHeader(s.flights[id])
    requires forall j | j in s.flights :: !Busy(s.flights[j])
    ensures Advances(spec.cfg, policy, s, step)
  {
    if j :| j in s.flights && s.flights[j].stage.RxTaken? {
      TakenGoesOrPoolFull(spec, policy, s, j);
      assert spec.ok(s.mem, s.flights[j]);
      if Advances(spec.cfg, policy, s, Advance(j)) {
        step := Advance(j);
      } else {
        RxTakenNotTxRetry(spec.cfg, s.mem, s.flights[j]);
        var k := FullHasLiveOwner(spec, s, Service(spec.cfg, s.flights[j].desc.dstPodId));
        step := LandedCanGo(spec, policy, s, k);
      }
    } else {
      var q := s.flights[id].stage.q;
      NobodyBusy(s, Taker(q));
      FrontCanGo(spec, policy, s, id);
      step := Take(q);
    }
  }

  lemma RxTakenNotTxRetry(cfg: Config, mem: Memory, f: Flight)
    requires f.stage.RxTaken?
    ensures NextOp(cfg, mem, f) != Continue(TxRetry)
  {
  }

  /** The sender's end: with nobody busy and no DPU header in use, a taken descriptor gets one. */
  lemma TxTakenCanGo(spec: Spec, policy: Policy, s: State, id: nat)
    requires Inv(spec, s) && Holders(spec, s.mem) && spec.cfg.numSlots >= 1
    requires forall j | j in s.flights :: !MayHoldDpuHeader(s.flights[j])
    requires id in s.flights && s.flights[id].stage.TxTaken?
    ensures Advances(spec.cfg, policy, s, Advance(id))
  {
    TakenGoesOrPoolFull(spec, policy, s, id);
    assert spec.ok(s.mem, s.flights[id]);
    if FirstFree(spec.cfg, s.owner, DpuTxHeader, 0) < 0 {
      var k := FullHasOwner(spec, s, DpuTxHeader);
      assert false;
    }
  }

  /** ... and with nothing taken, the front of its ring is taken. */
  lemma WaitingCanGo(spec: Spec, policy: Policy, s: State, id: nat)
    requires Inv(spec, s) && Holders(spec, s.mem) && id in s.flights && !s.flights[id].stage.Orphaned?
    requires forall j | j in s.flights ::
      && !Busy(s.flights[j]) && !MayHoldDpuHeader(s.flights[j]) && !s.flights[j].stage.TxTaken?
      && (MayHoldRxBody(s.flights[j]) ==> s.flights[j].stage.Orphaned?)
    ensures s.flights[id].stage.Queued? && Advances(spec.cfg, policy, s, Take(s.flights[id].stage.q))
  {
    assert spec.ok(s.mem, s.flights[id]);
    assert s.flights[id].stage.Queued?;
    NobodyBusy(s, DpaTx);
    FrontCanGo(spec, policy, s, id);
  }

  /** A pipeline with a message in it that is no orphan, and with room, has a step that takes one on. */
  lemma SomeStepAdvances(spec: Spec, policy: Policy, s: State) returns (step: Step)
    requires Inv(spec, s) && Holders(spec, s.mem) && spec.cfg.numSlots >= 1 && PoolsOpen(spec.cfg, s)
    requires Admissible(spec.cfg, policy)
    requires exists j :: j in s.flights && !s.flights[j].stage.Orphaned?
    ensures Advances(spec.cfg, policy, s, step)
  {
    if id :| id in s.flights && Busy(s.flights[id]) {
      assert spec.ok(s.mem, s.flights[id]);
      step := BusyCanGo(spec.cfg, policy, s, id);
    } else if id :| id in s.flights && MayHoldRxBody(s.flights[id]) && !s.flights[id].stage.Orphaned? {
      step := LandedCanGo(spec, policy, s, id);
    } else if id :| id in s.flights && MayHoldDpuHeader(s.flights[id]) {
      step := RoutedCanGo(spec, policy, s, id);
    } else if id :| id in s.flights && s.flights[id].stage.TxTaken? {
      TxTakenCanGo(spec, policy, s, id);
      step := Advance(id);
    } else {
      var id :| id in s.flights && !s.flights[id].stage.Orphaned?;
      WaitingCanGo(spec, policy, s, id);
      step := Take(s.flights[id].stage.q);
    }
  }

  /** Deadlock freedom: for every routing policy and every reachable state with a message that is no orphan, unless
      orphans hold a whole RX body pool, some step is enabled that is no refusal. If it is a routing decision it is the
      policy's on the header and direction the sender gave, so a message is given up only when the policy says so. */
  lemma DeadlockFree(cfg: Config, policy: Policy, s: State) returns (step: Step)
    requires ValidConfig(cfg) && Admissible(cfg, policy) && Reachable(cfg, s) && PoolsOpen(cfg, s)
    requires exists j :: j in s.flights && !s.flights[j].stage.Orphaned?
    ensures Advances(cfg, policy, s, step)
    ensures step.Decide? ==> step.id in s.flights && var m := s.flights[step.id].msg;
      step.decision == policy(step.id, m.header, m.response)
  {
    ReachableInv(cfg, s);
    MeshHolders(cfg, s.mem);
    step := SomeStepAdvances(MeshSpec(cfg), policy, s);
    if step.Decide? { RoutedOnTheSendersHeader(cfg, s, step.id); }
  }

  /** Draining: from a reachable state every run without new traffic and refusals has at most `Total` steps, and
      where, for some routing policy, no step takes a message on, only orphans are in flight and only their slots are
      allocated, unless orphans hold a whole RX body pool. */
  lemma DrainsDry(cfg: Config, policy: Policy, states: seq<State>, steps: seq<Step>)
    requires ValidConfig(cfg) && Admissible(cfg, policy) && DrainingRun(cfg, states, steps) && Reachable(cfg, states[0])
    ensures |steps| <= Total(states[0].flights)
    ensures var s := states[|steps|];
      (forall step :: !Advances(cfg, policy, s, step)) && PoolsOpen(cfg, s) ==>
        && (forall j | j in s.flights :: s.flights[j].stage.Orphaned?)
        && (forall sl | sl in s.owner :: OrphanHolds(s, sl))
  {
    ReachableInv(cfg, states[0]);
    DrainingEnds(cfg, states, steps);
    var s := states[|steps|];
    if PoolsOpen(cfg, s) && exists j :: j in s.flights && !s.flights[j].stage.Orphaned? {
      MeshHolders(cfg, s.mem);
      var step := SomeStepAdvances(MeshSpec(cfg), policy, s);
    } else {
      assert forall sl | sl in s.owner :: s.owner[sl] in s.flights;
    }
  }

  /** Without a dropped response there is always room, and draining empties the pipeline. */
  lemma DrainsEmpty(cfg: Config, policy: Policy, states: seq<State>, steps: seq<Step>)
    requires ValidConfig(cfg) && Admissible(cfg, policy) && DrainingRun(cfg, states, steps) && Reachable(cfg, states[0])
    requires var s := states[|steps|];
      (forall j | j in s.flights :: !s.flights[j].stage.Orphaned?) && forall step :: !Advances(cfg, policy, s, step)
    ensures var s := states[|steps|]; s.flights == map[] && s.owner == map[] && forall q :: Queue(s, q) == []
  {
    var s := states[|steps|];
    forall svc ensures !HeldByOrphans(cfg, s, svc) {
      assert !OrphanHolds(s, Slot(HostRxBody(svc), 0));
    }
    DrainsDry(cfg, policy, states, steps);
    ReachableInv(cfg, states[0]);
    DrainingEnds(cfg, states, steps);
    assert s.flights == map[];
    NothingInFlight(MeshSpec(cfg), s);
  }

  /** The exception is real: once orphans hold a service's whole RX body pool they hold it for ever, and every
      message taken for that service is turned back. */
  lemma HeldPoolStays(cfg: Config, s: State, svc: string, step: Step)
    requires ValidConfig(cfg) && Reachable(cfg, s) && HeldByOrphans(cfg, s, svc) && Enabled(cfg, s, step)
    ensures HeldByOrphans(cfg, Apply(cfg, s, step), svc)
  {
    var s' := Apply(cfg, s, step);
    ReachableInv(cfg, s);
    StepKeeps(cfg, s, step);
    forall i | 0 <= i < cfg.numSlots ensures OrphanHolds(s', Slot(HostRxBody(svc), i)) {
      assert OrphanHolds(s, Slot(HostRxBody(svc), i));
      SlotStays(cfg, s, step, Slot(HostRxBody(svc), i));
    }
  }

  lemma SlotStays(cfg: Config, s: State, step: Step, sl: Slot)
    requires ValidConfig(cfg) && Reachable(cfg, s) && Enabled(cfg, s, step) && OrphanHolds(s, sl)
    requires Inv(MeshSpec(cfg), s) && Inv(MeshSpec(cfg), Apply(cfg, s, step))
    ensures OrphanHolds(Apply(cfg, s, step), sl)
  {
    var id, s' := s.owner[sl], Apply(cfg, s, step);
    OwnerOwns(MeshSpec(cfg), s, sl);
    OrphansStay(cfg, s, step, id);
    SoleOwner(MeshSpec(cfg), s', id, sl);
  }

  lemma OwnerOwns(spec: Spec, s: State, sl: Slot)
    requires Inv(spec, s) && sl in s.owner
    ensures s.owner[sl] in s.flights && sl in spec.own(s.flights[s.owner[sl]])
  {
  }

  lemma HeldPoolTurnsBack(cfg: Config, s: State, id: nat)
    requires ValidConfig(cfg) && Reachable(cfg, s) && id in s.flights && s.flights[id].stage.RxTaken?
    requires HeldByOrphans(cfg, s, Service(cfg, s.flights[id].desc.dstPodId))
    ensures Backpressure(cfg, s, Advance(id))
  {
    ReachableInv(cfg, s);
    FlightHolds(cfg, s, id);
    RxTakenAllocates(cfg, s.mem, s.flights[id]);
    var i := FirstFree(cfg, s.owner, HostRxBody(Service(cfg, s.flights[id].desc.dstPodId)), 0);
    assert i >= 0 ==> OrphanHolds(s, Slot(HostRxBody(Service(cfg, s.flights[id].desc.dstPodId)), i));
  }
}
