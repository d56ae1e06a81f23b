/** Safety of every run: what the invariant says, read back in the system's own terms. */
module MeshSafety {
  import opened Descriptor
  import opened Mesh
  import opened Ledger
  import opened MeshInvariant
  import opened MeshSteps

  // ----------------------------------------------------------------- one step

  /** Whoever holds an RX header slot holds one only, and with it an RX body slot of the same service. */
  lemma HeadersPaired(cfg: Config, mem: Memory, svc: string)
    requires ValidConfig(cfg)
    ensures Paired(MeshSpec(cfg), mem, HostRxHeader(svc), HostRxBody(svc), f => BodyMate(cfg, f))
  {
    var spec := MeshSpec(cfg);
    forall f: Flight, sl: Slot | spec.ok(mem, f) && sl in spec.own(f) && sl.pool == HostRxHeader(svc)
      ensures BodyMate(cfg, f) in spec.own(f) && BodyMate(cfg, f).pool == HostRxBody(svc)
      ensures forall t | t in spec.own(f) && t.pool == HostRxHeader(svc) :: t == sl
    {
      HeaderOwnersOwnBodies(cfg, f, sl);
    }
  }

  lemma UsedInRange(cfg: Config, s: State, svc: string)
    requires ValidConfig(cfg) && Inv(MeshSpec(cfg), s)
    ensures |Used(s.owner, HostRxBody(svc))| <= cfg.numSlots
  {
    var used, all := Used(s.owner, HostRxBody(svc)), PoolSlots(cfg, HostRxBody(svc));
    forall sl | sl in used ensures sl in all {
      var f := s.flights[s.owner[sl]];
      assert MeshSpec(cfg).ok(s.mem, f) && sl in MeshSpec(cfg).own(f);
      OwnedInRange(cfg, f, sl);
    }
    assert |all| == |used| + |all - used|;
  }

  lemma OwnedInRange(cfg: Config, f: Flight, sl: Slot)
    requires ValidConfig(cfg) && ValidMsg(cfg, f.msg) && Shape(cfg, f) && sl in Owned(cfg, f)
    ensures InPool(cfg, sl.index)
  {
    var m, x := f.msg, f.desc;
    if HostRefs(cfg, m, x) { HostRefsResolve(cfg, m, x); }
    else if DpuRefs(cfg, m, x) { DpuRefsResolve(cfg, m, x); }
    else if IngressRefs(cfg, m, x) { IngressRefsResolve(cfg, m, x); }
  }

  /** A case-3 message that has its body slot but no header slot yet is one body ahead of the headers in
      use, so the destination's header pool has a clear bit for it. */
  lemma HeaderPoolHasRoom(cfg: Config, s: State, id: nat)
    requires ValidConfig(cfg) && Inv(MeshSpec(cfg), s) && id in s.flights && s.flights[id].stage.HeaderStart?
    ensures FirstFree(cfg, s.owner, HostRxHeader(Service(cfg, s.flights[id].desc.dstPodId)), 0) >= 0
  {
    var f := s.flights[id];
    var svc := Service(cfg, f.desc.dstPodId);
    HeadersPaired(cfg, s.mem, svc);
    StartOwnsBodyAlone(cfg, s.mem, f);
    var body := BodyMate(cfg, f);
    assert MeshSpec(cfg).ok(s.mem, f) && body in MeshSpec(cfg).own(f);
    PairedCounts(MeshSpec(cfg), s, HostRxHeader(svc), HostRxBody(svc), g => BodyMate(cfg, g), {body});
    UsedInRange(cfg, s, svc);
    FullPool(cfg, s.owner, HostRxHeader(svc));
  }

  lemma StartOwnsBodyAlone(cfg: Config, mem: Memory, f: Flight)
    requires ValidConfig(cfg) && f.stage.HeaderStart?
    ensures MeshSpec(cfg).ok(mem, f) ==>
      && BodyMate(cfg, f) in MeshSpec(cfg).own(f)
      && BodyMate(cfg, f).pool == HostRxBody(Service(cfg, f.desc.dstPodId))
      && forall t | t in MeshSpec(cfg).own(f) :: !t.pool.HostRxHeader?
  {
    if MeshSpec(cfg).ok(mem, f) { DpuRefsResolve(cfg, f.msg, f.desc); }
  }

  /** The RX body slot of a message that has one. */
  function BodyMate(cfg: Config, f: Flight): Slot {
    RxBodySlot(cfg, f,
      match f.stage
      case BodyCopy(b, _) => b
      case HeaderStart(b) => b
      case HeaderCopy(b, _, _) => b
      case RxForward(b, _) => b
      case _ => f.desc.bodyBufSlot)
  }

  /** On its way into the destination's pools. */
  predicate Landing(st: Stage) {
    st.BodyCopy? || st.HeaderStart? || st.HeaderCopy? || st.RxForward?
  }

  lemma LandedPair(cfg: Config, f: Flight, sl: Slot)
    requires Shape(cfg, f) && Landed(f.stage) && sl in Owned(cfg, f) && sl.pool.HostRxHeader?
    ensures BodyMate(cfg, f) in Owned(cfg, f) && BodyMate(cfg, f) in PoolSlots(cfg, HostRxBody(sl.pool.service))
    ensures forall t | t in Owned(cfg, f) && t.pool.HostRxHeader? :: t == sl
  {
  }

  lemma LandingPair(cfg: Config, f: Flight, sl: Slot)
    requires Shape(cfg, f) && Landing(f.stage) && sl in Owned(cfg, f) && sl.pool.HostRxHeader?
    ensures BodyMate(cfg, f) in Owned(cfg, f) && BodyMate(cfg, f) in PoolSlots(cfg, HostRxBody(sl.pool.service))
    ensures forall t | t in Owned(cfg, f) && t.pool.HostRxHeader? :: t == sl
  {
    SourceNeverRx(cfg, f.msg, f.desc);
  }

  /** Elsewhere a message owns nothing of the destination's. */
  lemma OthersOwnNoRx(cfg: Config, f: Flight)
    requires Shape(cfg, f) && !Landed(f.stage) && !Landing(f.stage)
    ensures forall t | t in Owned(cfg, f) :: !t.pool.HostRxHeader?
  {
    var m, x := f.msg, f.desc;
    if HostRefs(cfg, m, x) || DpuRefs(cfg, m, x) || IngressRefs(cfg, m, x) { SourceNeverRx(cfg, m, x); }
  }

  lemma HeaderOwnersOwnBodies(cfg: Config, f: Flight, sl: Slot)
    requires ValidConfig(cfg) && ValidMsg(cfg, f.msg) && Shape(cfg, f)
    requires sl in Owned(cfg, f) && sl.pool.HostRxHeader?
    ensures BodyMate(cfg, f) in Owned(cfg, f)
    ensures BodyMate(cfg, f) in PoolSlots(cfg, HostRxBody(sl.pool.service))
    ensures forall t | t in Owned(cfg, f) && t.pool.HostRxHeader? :: t == sl
  {
    if Landed(f.stage) { LandedPair(cfg, f, sl); }
    else if Landing(f.stage) { LandingPair(cfg, f, sl); }
    else { OthersOwnNoRx(cfg, f); }
  }

  lemma SourceNeverRx(cfg: Config, m: Msg, x: SwDescriptor)
    requires HostRefs(cfg, m, x) || DpuRefs(cfg, m, x) || IngressRefs(cfg, m, x)
    ensures forall t | t in RefSet(HeaderRef(cfg, x)) + RefSet(BodyRef(cfg, x)) ::
      !t.pool.HostRxHeader? && !t.pool.HostRxBody?
  {
  }

  lemma AdvanceLegal(cfg: Config, s: State, id: nat)
    requires ValidConfig(cfg) && Inv(MeshSpec(cfg), s)
    requires Enabled(cfg, s, Advance(id))
    ensures Legal(MeshSpec(cfg), s.owner, s.mem, s.flights[id], NextOp(cfg, s.mem, s.flights[id]))
  {
    var f := s.flights[id];
    assert MeshSpec(cfg).ok(s.mem, f);
    var st := f.stage;
    if st.HeaderStart? { HeaderPoolHasRoom(cfg, s, id); }
    StageLegal(cfg, s.owner, s.mem, f);
  }

  lemma WriterLegal(cfg: Config, owner: map<Slot, nat>, mem: Memory, f: Flight)
    requires Alone(cfg, mem, f) && ThreadOf(f).Writer?
    ensures Legal(MeshSpec(cfg), owner, mem, f, WriterOp(cfg, f))
  {
    var st := f.stage;
    if !st.WriteBody? { WriteHeaderLegal(cfg, owner, mem, f); }
    else if st.written { WrittenLegal(cfg, owner, mem, f); }
    else { WriteBodyLegal(cfg, owner, mem, f); }
  }

  lemma DpaTxLegal(cfg: Config, owner: map<Slot, nat>, mem: Memory, f: Flight)
    requires Alone(cfg, mem, f) && ThreadOf(f).DpaTx?
    ensures Legal(MeshSpec(cfg), owner, mem, f, DpaTxOp(cfg, mem, f))
  {
    match f.stage
    case TxCopy(_, Fresh) => TxLoadLegal(cfg, owner, mem, f);
    case TxCopy(_, Loaded(_)) => TxStoreLegal(cfg, owner, mem, f);
    case TxCopy(_, Stored) => TxFreeLegal(cfg, owner, mem, f);
    case TxForward(_) => TxForwardLegal(cfg, owner, mem, f);
    case _ => TxTakenLegal(cfg, owner, mem, f);
  }

  lemma SidecarLegal(cfg: Config, owner: map<Slot, nat>, mem: Memory, f: Flight)
    requires Alone(cfg, mem, f) && !f.stage.Routing?
    requires ThreadOf(f).Sidecar? || f.stage.DropBody? || f.stage.DropHeader?
    ensures Legal(MeshSpec(cfg), owner, mem, f, SidecarOp(cfg, mem, f))
  {
    var st := f.stage;
    if st.RouteTaken? || st.RouteForward? { RouteLegal(cfg, owner, mem, f); }
    else if st.DropBody? || st.DropHeader? { DropLegal(cfg, owner, mem, f); }
    else if st.BridgeBody? { BridgeReadLegal(cfg, owner, mem, f); }
    else if st.BridgeFreeBody? { BridgeFreeLegal(cfg, owner, mem, f); }
    else { BridgeAnswerLegal(cfg, owner, mem, f); }
  }

  lemma BridgeLegal(cfg: Config, owner: map<Slot, nat>, mem: Memory, f: Flight)
    requires Alone(cfg, mem, f) && ThreadOf(f).BridgeClient?
    ensures Legal(MeshSpec(cfg), owner, mem, f, BridgeOp(cfg, f))
  {
    var st := f.stage;
    if st.InjectAbort? { InjectAbortLegal(cfg, owner, mem, f); }
    else if st.written { InjectedLegal(cfg, owner, mem, f); }
    else { InjectWriteLegal(cfg, owner, mem, f); }
  }

  lemma DpaRxLegal(cfg: Config, owner: map<Slot, nat>, mem: Memory, f: Flight)
    requires Alone(cfg, mem, f) && ThreadOf(f).DpaRx? && !f.stage.DropBody? && !f.stage.DropHeader?
    requires f.stage.HeaderStart? ==> FirstFree(cfg, owner, HostRxHeader(Service(cfg, f.desc.dstPodId)), 0) >= 0
    ensures Legal(MeshSpec(cfg), owner, mem, f, DpaRxOp(cfg, mem, f))
  {
    match f.stage
    case RxRetry => RxRetryLegal(cfg, owner, mem, f);
    case BodyCopy(_, Fresh) => BodyLoadLegal(cfg, owner, mem, f);
    case BodyCopy(_, Loaded(_)) => BodyStoreLegal(cfg, owner, mem, f);
    case BodyCopy(_, Stored) => BodyFreeLegal(cfg, owner, mem, f);
    case HeaderStart(_) => HeaderStartLegal(cfg, owner, mem, f);
    case HeaderCopy(_, _, Fresh) => HeaderLoadLegal(cfg, owner, mem, f);
    case HeaderCopy(_, _, Loaded(_)) => HeaderStoreLegal(cfg, owner, mem, f);
    case HeaderCopy(_, _, Stored) => HeaderFreeLegal(cfg, owner, mem, f);
    case RxForward(_, _) => RxForwardLegal(cfg, owner, mem, f);
    case _ => RxTakenLegal(cfg, owner, mem, f);
  }

  lemma WorkerLegal(cfg: Config, owner: map<Slot, nat>, mem: Memory, f: Flight)
    requires Alone(cfg, mem, f) && (ThreadOf(f).Poller? || ThreadOf(f).Reader?)
    ensures Legal(MeshSpec(cfg), owner, mem, f, WorkerOp(cfg, mem, f))
  {
    match f.stage
    case ReadTaken => ReadHeaderLegal(cfg, owner, mem, f);
    case ReadHeader(_) => ReadBodyLegal(cfg, owner, mem, f);
    case Handling(_, _) => HandledLegal(cfg, owner, mem, f);
    case ReadFreeBody(_, _) => ReadFreeLegal(cfg, owner, mem, f);
    case _ => if f.desc.IsResponse() { PollResponseLegal(cfg, owner, mem, f); } else { PollLegal(cfg, owner, mem, f); }
  }

  lemma StageLegal(cfg: Config, owner: map<Slot, nat>, mem: Memory, f: Flight)
    requires Alone(cfg, mem, f) && !ThreadOf(f).Nobody? && !f.stage.Routing?
    requires f.stage.HeaderStart? ==> FirstFree(cfg, owner, HostRxHeader(Service(cfg, f.desc.dstPodId)), 0) >= 0
    ensures Legal(MeshSpec(cfg), owner, mem, f, NextOp(cfg, mem, f))
  {
    if f.stage.DropBody? || f.stage.DropHeader? {
      SidecarLegal(cfg, owner, mem, f);
    } else {
      match ThreadOf(f)
      case Writer(_) => WriterLegal(cfg, owner, mem, f);
      case DpaTx => DpaTxLegal(cfg, owner, mem, f);
      case Sidecar => SidecarLegal(cfg, owner, mem, f);
      case BridgeClient => BridgeLegal(cfg, owner, mem, f);
      case DpaRx => DpaRxLegal(cfg, owner, mem, f);
      case _ => WorkerLegal(cfg, owner, mem, f);
    }
  }

  /** A put never finds its ring or pipe full. */
  lemma EnqueueHasRoom(cfg: Config, s: State, id: nat)
    requires ValidConfig(cfg) && Inv(MeshSpec(cfg), s) && Enabled(cfg, s, Advance(id))
    requires NextOp(cfg, s.mem, s.flights[id]).Enqueue?
    ensures var q := NextOp(cfg, s.mem, s.flights[id]).q; |Queue(s, q)| < Capacity(cfg, q)
  {
    AdvanceLegal(cfg, s, id);
    var f := s.flights[id];
    var op := NextOp(cfg, s.mem, f);
    QueueHasRoom(cfg, s, id, op.q, op.desc);
  }

  lemma QueueHasRoom(cfg: Config, s: State, id: nat, q: QueueId, x: SwDescriptor)
    requires ValidConfig(cfg) && Inv(MeshSpec(cfg), s) && id in s.flights && !s.flights[id].stage.Queued?
    requires Legal(MeshSpec(cfg), s.owner, s.mem, s.flights[id], Enqueue(q, x))
    ensures |Queue(s, q)| < Capacity(cfg, q)
  {
    Room(cfg, s, q, id, s.flights[id].(desc := x, stage := Queued(q)));
  }

  lemma AdvanceKeeps(cfg: Config, s: State, id: nat)
    requires ValidConfig(cfg) && Inv(MeshSpec(cfg), s) && Enabled(cfg, s, Advance(id))
    ensures Inv(MeshSpec(cfg), Apply(cfg, s, Advance(id)))
  {
    AdvanceLegal(cfg, s, id);
    SpecFramed(cfg);
    var op := NextOp(cfg, s.mem, s.flights[id]);
    if op.Enqueue? { EnqueueHasRoom(cfg, s, id); }
    OpKeeps(MeshSpec(cfg), s, id, op);
  }

  lemma TakenFits(cfg: Config, mem: Memory, f: Flight, q: QueueId)
    requires FlightOk(cfg, mem, f) && f.stage == Queued(q)
    ensures Fits(MeshSpec(cfg), mem, f.(stage := TakenStage(q, f.desc)), MeshSpec(cfg).own(f))
  {
  }

  lemma TakeStepKeeps(cfg: Config, s: State, q: QueueId)
    requires ValidConfig(cfg) && Inv(MeshSpec(cfg), s) && Enabled(cfg, s, Take(q))
    ensures Inv(MeshSpec(cfg), Apply(cfg, s, Take(q)))
  {
    SpecFramed(cfg);
    var id := Queue(s, q)[0];
    assert id in s.queues[q] && MeshSpec(cfg).ok(s.mem, s.flights[id]);
    TakenFits(cfg, s.mem, s.flights[id], q);
    TakeKeeps(MeshSpec(cfg), s, q, TakenStage(q, s.flights[id].desc));
  }

  lemma ReplyFits(cfg: Config, mem: Memory, f: Flight)
    requires FlightOk(cfg, mem, f) && f.stage.Replied?
    ensures Fits(MeshSpec(cfg), mem, f.(stage := ReadTaken), Owned(cfg, f))
  {
  }

  lemma GoneFits(cfg: Config, mem: Memory, f: Flight)
    requires FlightOk(cfg, mem, f) && f.stage.RxTaken?
    ensures Fits(MeshSpec(cfg), mem, f.(stage := DropBody(true)), Owned(cfg, f))
  {
  }

  lemma NoWorkerFits(cfg: Config, mem: Memory, f: Flight)
    requires FlightOk(cfg, mem, f) && f.stage.Routing?
    ensures Fits(MeshSpec(cfg), mem, f.(stage := DropBody(false)), Owned(cfg, f))
  {
  }

  lemma ToBridgeFits(cfg: Config, mem: Memory, f: Flight)
    requires FlightOk(cfg, mem, f) && f.stage.Routing? && f.desc.IsResponse()
    ensures Fits(MeshSpec(cfg), mem, f.(stage := BridgeBody(f.stage.header)), Owned(cfg, f))
  {
  }

  lemma ForwardFits(cfg: Config, mem: Memory, f: Flight, pod: int)
    requires FlightOk(cfg, mem, f) && f.stage.Routing? && pod in cfg.registry
    ensures Fits(MeshSpec(cfg), mem, f.(desc := RoutedDescriptor(f.desc, pod), stage := RouteForward), Owned(cfg, f))
  {
  }

  /** The sidecar's decision leaves the message with its slots. */
  lemma DecisionFits(cfg: Config, s: State, id: nat, d: Decision)
    requires id in s.flights && FlightOk(cfg, s.mem, s.flights[id]) && s.flights[id].stage.Routing?
    requires (d.ToBridge? ==> s.flights[id].desc.IsResponse()) && (d.Forward? ==> d.pod in cfg.registry)
    ensures var g := DecideStep(s, id, d).flights[id];
      && DecideStep(s, id, d) == s.(flights := s.flights[id := g])
      && Fits(MeshSpec(cfg), s.mem, g, Owned(cfg, s.flights[id]))
  {
    var f := s.flights[id];
    match d
    case Forward(pod) => ForwardFits(cfg, s.mem, f, pod);
    case ToBridge => ToBridgeFits(cfg, s.mem, f);
    case NoWorker => NoWorkerFits(cfg, s.mem, f);
  }

  lemma FlightHolds(cfg: Config, s: State, id: nat)
    requires Inv(MeshSpec(cfg), s) && id in s.flights
    ensures FlightOk(cfg, s.mem, s.flights[id])
  {
    assert MeshSpec(cfg).ok(s.mem, s.flights[id]);
  }

  /** A message with no queue and no slot at stake changes in place. */
  lemma InPlaceKeeps(cfg: Config, s: State, id: nat, g: Flight)
    requires Inv(MeshSpec(cfg), s) && id in s.flights && !s.flights[id].stage.Queued?
    requires Fits(MeshSpec(cfg), s.mem, g, Owned(cfg, s.flights[id]))
    ensures Inv(MeshSpec(cfg), s.(flights := s.flights[id := g]))
  {
    SpecFramed(cfg);
    MoveKeeps(MeshSpec(cfg), s, id, g);
  }

  lemma DecideStepKeeps(cfg: Config, s: State, id: nat, d: Decision)
    requires Inv(MeshSpec(cfg), s) && Enabled(cfg, s, Decide(id, d))
    ensures Inv(MeshSpec(cfg), DecideStep(s, id, d))
  {
    FlightHolds(cfg, s, id);
    DecisionFits(cfg, s, id, d);
    InPlaceKeeps(cfg, s, id, DecideStep(s, id, d).flights[id]);
  }

  lemma ReplyStepKeeps(cfg: Config, s: State, id: nat)
    requires Inv(MeshSpec(cfg), s) && id in s.flights && s.flights[id].stage.Replied?
    ensures Inv(MeshSpec(cfg), Go(s, id, ReadTaken))
  {
    FlightHolds(cfg, s, id);
    ReplyFits(cfg, s.mem, s.flights[id]);
    InPlaceKeeps(cfg, s, id, s.flights[id].(stage := ReadTaken));
  }

  lemma LosePodKeeps(cfg: Config, s: State, id: nat)
    requires Inv(MeshSpec(cfg), s) && id in s.flights && s.flights[id].stage.RxTaken?
    ensures Inv(MeshSpec(cfg), Go(s, id, DropBody(true)))
  {
    FlightHolds(cfg, s, id);
    GoneFits(cfg, s.mem, s.flights[id]);
    InPlaceKeeps(cfg, s, id, s.flights[id].(stage := DropBody(true)));
  }

  lemma FirstFits(cfg: Config, mem: Memory, m: Msg, i: nat)
    requires ValidMsg(cfg, m) && i < cfg.numSlots
    ensures m.bridge ==> Fits(MeshSpec(cfg), mem, Flight(m, NoDesc, Inject(i, false)), {Slot(DpuRxBody, i)})
    ensures !m.bridge ==> Fits(MeshSpec(cfg), mem, Flight(m, NoDesc, WriteHeader(i, false)),
                               {Slot(HostTxHeader(Service(cfg, m.pod)), i)})
  {
  }

  lemma BeginStepKeeps(cfg: Config, s: State, step: Step)
    requires ValidConfig(cfg) && Inv(MeshSpec(cfg), s) && Enabled(cfg, s, step)
    requires step.BeginWrite? || step.BeginInject?
    ensures Inv(MeshSpec(cfg), Apply(cfg, s, step))
  {
    SpecFramed(cfg);
    var m := step.msg;
    var pool := if m.bridge then DpuRxBody else HostTxHeader(Service(cfg, m.pod));
    var i := FirstFree(cfg, s.owner, pool, 0);
    if i >= 0 { FirstFits(cfg, s.mem, m, i); }
    if m.bridge { BeginInjectKeeps(MeshSpec(cfg), s, m); } else { BeginWriteKeeps(MeshSpec(cfg), s, m); }
  }

  /** Every step of every thread keeps the invariant. */
  lemma StepKeeps(cfg: Config, s: State, step: Step)
    requires ValidConfig(cfg) && Inv(MeshSpec(cfg), s) && Enabled(cfg, s, step)
    ensures Inv(MeshSpec(cfg), Apply(cfg, s, step))
  {
    if step.Advance? { AdvanceKeeps(cfg, s, step.id); }
    else if step.Take? { TakeStepKeeps(cfg, s, step.q); }
    else if step.BeginWrite? || step.BeginInject? { BeginStepKeeps(cfg, s, step); }
    else if step.Decide? { DecideStepKeeps(cfg, s, step.id, step.decision); }
    else if step.TakeReply? { ReplyStepKeeps(cfg, s, step.id); }
    else { LosePodKeeps(cfg, s, step.id); }
  }

  /** ... so it holds in every state of every run. */
  lemma {:induction false} RunKeeps(cfg: Config, states: seq<State>, steps: seq<Step>, i: nat)
    requires ValidConfig(cfg) && Run(cfg, states, steps) && states[0] == Init && i < |states|
    ensures Inv(MeshSpec(cfg), states[i])
  {
    if i == 0 {
      InitOk(MeshSpec(cfg));
    } else {
      RunKeeps(cfg, states, steps, i - 1);
      StepKeeps(cfg, states[i - 1], steps[i - 1]);
    }
  }
}
