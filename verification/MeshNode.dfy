/** The handlers of the DPA and the workers as they run: straight-line code over shared bitmaps, slots, rings and
    response pipes, with other threads running between any two operations. Every shared operation is proved to be
    the machine's next operation on the message the handler works on. */
module MeshNode {
  import opened Options
  import opened Descriptor
  import opened Mesh
  import opened Ledger
  import opened MeshInvariant
  import opened MeshSafety
  import opened MeshTheorems
  import SharedRing

  // ----------------------------------------------------------------- the shared memory and the machine

  /** A ring holds the descriptors of the messages the machine has queued in it. */
  ghost predicate RingIs(ring: seq<SwDescriptor>, ids: seq<nat>, flights: map<nat, Flight>, q: QueueId) {
    && |ring| == |ids|
    && forall i | 0 <= i < |ids| ::
         ids[i] in flights && flights[ids[i]].stage == Queued(q) && ring[i] == flights[ids[i]].desc
  }

  function Ring(rings: map<QueueId, seq<SwDescriptor>>, q: QueueId): seq<SwDescriptor> {
    if q in rings then rings[q] else []
  }

  ghost predicate RingsAre(rings: map<QueueId, seq<SwDescriptor>>, s: State) {
    forall q :: RingIs(Ring(rings, q), Queue(s, q), s.flights, q)
  }

  ghost predicate Safe(cfg: Config, s: State) {
    ValidConfig(cfg) && Inv(MeshSpec(cfg), s)
  }

  /** Some thread is working on the message. */
  ghost predicate Acting(f: Flight) {
    !ThreadOf(f).Nobody? && !f.stage.Routing?
  }

  /** One operation of a thread: the states before and after it. */
  datatype Turn = Turn(before: State, after: State)

  type Next = (Memory, Flight) -> Op

  /** The operation is the machine's next on the message, or finds the message's destination gone. */
  ghost predicate TurnOk(next: Next, cfg: Config, id: nat, t: Turn) {
    && id in t.before.flights
    && (|| t.after == Perform(cfg, t.before, id, next(t.before.mem, t.before.flights[id]))
        || (t.before.flights[id].stage.RxTaken? && t.after == Go(t.before, id, DropBody(true))))
  }

  predicate SameFlight(a: State, b: State, id: nat) {
    id in a.flights && id in b.flights && a.flights[id] == b.flights[id]
  }

  /** From state `from` on, a thread has done the machine's operations on the message one after the other, the last
      of which gave `to`; between two of them other threads ran, and left the message alone. */
  ghost predicate Chain(next: Next, cfg: Config, id: nat, from: State, turns: seq<Turn>, to: State)
    decreases |turns|
  {
    if turns == [] then from == to
    else
      var t := turns[|turns| - 1];
      t.after == to && TurnOk(next, cfg, id, t) && exists left ::
        SameFlight(left, t.before, id) && Chain(next, cfg, id, from, turns[..|turns| - 1], left)
  }

  ghost predicate Worked(next: Next, cfg: Config, id: nat, from: State, to: State) {
    exists turns :: Chain(next, cfg, id, from, turns, to)
  }

  lemma WorkedOn(next: Next, cfg: Config, id: nat, from: State, left: State, t: Turn)
    requires Worked(next, cfg, id, from, left) && TurnOk(next, cfg, id, t) && SameFlight(left, t.before, id)
    ensures Worked(next, cfg, id, from, t.after)
  {
    var turns :| Chain(next, cfg, id, from, turns, left);
    assert (turns + [t])[..|turns|] == turns;
    assert Chain(next, cfg, id, from, turns + [t], t.after);
  }

  lemma NothingDone(next: Next, cfg: Config, id: nat, from: State)
    ensures Worked(next, cfg, id, from, from)
  {
    assert Chain(next, cfg, id, from, [], from);
  }

  /** What the handlers know of the machine: the next operation on a message, whether a thread works on it, which
      states are safe, and what counts as a thread's work on a message from one state to another. */
  datatype Plan = Plan(
    next: Next,
    acts: Flight -> bool,
    safe: State -> bool,
    worked: (nat, State, State) -> bool)

  ghost function RealPlan(cfg: Config): Plan {
    var next: Next := (mem, f) => NextOp(cfg, mem, f);
    Plan(next, f => Acting(f), s => Safe(cfg, s),
         (id: nat, from: State, to: State) => Worked(next, cfg, id, from, to))
  }

  ghost function Upcoming(plan: Plan, s: State, id: nat): Op
    requires id in s.flights
  {
    plan.next(s.mem, s.flights[id])
  }

  ghost predicate Sound(plan: Plan, cfg: Config) {
    && (forall f :: plan.acts(f) ==> !f.stage.Queued?)
    && (forall s: State, id: nat | id in s.flights && plan.acts(s.flights[id]) && plan.safe(s) ::
          plan.safe(Perform(cfg, s, id, Upcoming(plan, s, id))))
    && (forall s: State, id: nat | id in s.flights && plan.safe(s) :: s.flights[id].stage != Lost && id !in s.outcomes)
    && Counts(plan, cfg)
  }

  /** Work may be nothing yet, and goes on with every operation. */
  ghost predicate Counts(plan: Plan, cfg: Config) {
    && (forall id: nat, from: State :: plan.worked(id, from, from))
    && (forall id: nat, from: State, left: State, before: State, after: State
          {:trigger plan.worked(id, from, left), TurnOk(plan.next, cfg, id, Turn(before, after))} |
          plan.worked(id, from, left) && TurnOk(plan.next, cfg, id, Turn(before, after)) && SameFlight(left, before, id)
          :: plan.worked(id, from, after))
  }

  lemma RealPlanCounts(cfg: Config)
    ensures Counts(RealPlan(cfg), cfg)
  {
    var plan := RealPlan(cfg);
    forall id: nat, from: State ensures plan.worked(id, from, from) { NothingDone(plan.next, cfg, id, from); }
    forall id: nat, from: State, left: State, before: State, after: State | plan.worked(id, from, left)
      && TurnOk(plan.next, cfg, id, Turn(before, after)) && SameFlight(left, before, id)
      ensures plan.worked(id, from, after)
    {
      WorkedOn(plan.next, cfg, id, from, left, Turn(before, after));
    }
  }

  lemma SafeIsNotLost(plan: Plan, cfg: Config, s: State, id: nat)
    requires Sound(plan, cfg) && id in s.flights
    ensures plan.safe(s) ==> s.flights[id].stage != Lost
  {
  }

  lemma InFlightHasNoOutcome(spec: Spec, s: State, id: nat)
    requires Inv(spec, s) && id in s.flights
    ensures id !in s.outcomes
  {
  }

  lemma RealPlanIsSound(cfg: Config)
    ensures Sound(RealPlan(cfg), cfg)
  {
    var plan := RealPlan(cfg);
    RealPlanCounts(cfg);
    forall s: State, id: nat | id in s.flights && plan.acts(s.flights[id]) && plan.safe(s)
      ensures plan.safe(Perform(cfg, s, id, Upcoming(plan, s, id)))
    {
      StepKeeps(cfg, s, Advance(id));
    }
    forall s: State, id: nat | id in s.flights && plan.safe(s)
      ensures s.flights[id].stage != Lost && id !in s.outcomes
    {
      ShapeHolds(cfg, s, id);
      InFlightHasNoOutcome(MeshSpec(cfg), s, id);
    }
  }

  /** Changing a message that is in no ring changes no ring. */
  lemma RingsKept(rings: map<QueueId, seq<SwDescriptor>>, s: State, s': State, id: nat, f: Flight)
    requires RingsAre(rings, s) && id in s.flights && !s.flights[id].stage.Queued?
    requires s'.queues == s.queues && s'.flights == s.flights[id := f]
    ensures RingsAre(rings, s')
  {
    forall q ensures RingIs(Ring(rings, q), Queue(s', q), s'.flights, q) {
      assert RingIs(Ring(rings, q), Queue(s, q), s.flights, q);
    }
  }

  lemma RingsAfterPut(rings: map<QueueId, seq<SwDescriptor>>, s: State, s': State, id: nat, q: QueueId, x: SwDescriptor)
    requires RingsAre(rings, s) && id in s.flights && !s.flights[id].stage.Queued?
    requires s'.queues == s.queues[q := Queue(s, q) + [id]]
    requires s'.flights == s.flights[id := s.flights[id].(desc := x, stage := Queued(q))]
    ensures RingsAre(rings[q := Ring(rings, q) + [x]], s')
  {
    var rings' := rings[q := Ring(rings, q) + [x]];
    forall p ensures RingIs(Ring(rings', p), Queue(s', p), s'.flights, p) {
      assert RingIs(Ring(rings, p), Queue(s, p), s.flights, p);
    }
  }

  lemma RingsAfterTake(rings: map<QueueId, seq<SwDescriptor>>, s: State, q: QueueId)
    requires RingsAre(rings, s) && Ring(rings, q) != []
    requires forall i, j | 0 <= i < j < |Queue(s, q)| :: Queue(s, q)[i] != Queue(s, q)[j]
    ensures Queue(s, q) != [] && Queue(s, q)[0] in s.flights
    ensures RingsAre(rings[q := Ring(rings, q)[1..]], TakeStep(s, q))
  {
    assert RingIs(Ring(rings, q), Queue(s, q), s.flights, q);
    var rings', s' := rings[q := Ring(rings, q)[1..]], TakeStep(s, q);
    var id := Queue(s, q)[0];
    forall p ensures RingIs(Ring(rings', p), Queue(s', p), s'.flights, p) {
      assert RingIs(Ring(rings, p), Queue(s, p), s.flights, p);
      if p != q { assert forall i | 0 <= i < |Queue(s, p)| :: Queue(s, p)[i] != id; }
    }
  }

  /** A message that is in no ring leaves without changing one. */
  lemma RingsAfterLeave(rings: map<QueueId, seq<SwDescriptor>>, s: State, s': State, id: nat)
    requires RingsAre(rings, s) && id in s.flights && !s.flights[id].stage.Queued?
    requires s'.queues == s.queues && s'.flights == s.flights - {id}
    ensures RingsAre(rings, s')
  {
    forall q ensures RingIs(Ring(rings, q), Queue(s', q), s'.flights, q) {
      assert RingIs(Ring(rings, q), Queue(s, q), s.flights, q);
    }
  }

  /** What another thread can do meanwhile: any step that is not about this message leaves it alone. */
  lemma OthersLeaveIt(cfg: Config, s: State, step: Step, id: nat)
    requires Safe(cfg, s) && Enabled(cfg, s, step) && id in s.flights && Acting(s.flights[id]) && !About(step, id)
    ensures Safe(cfg, Apply(cfg, s, step))
    ensures id in Apply(cfg, s, step).flights && Apply(cfg, s, step).flights[id] == s.flights[id]
  {
    StepKeeps(cfg, s, step);
    OtherFlightsStay(MeshSpec(cfg), s, step, id);
  }

  // ----------------------------------------------------------------- what the machine does with a message

  ghost predicate Allocates(op: Op, pool: PoolId, granted: int -> Stage, refused: Stage) {
    op.Alloc? && op.pool == pool && op.refused == refused && forall i :: op.granted(i) == granted(i)
  }

  /** The three stages of copying `len` bytes of `src` into a new slot of `dst`. */
  ghost predicate Copies(plan: Plan, cfg: Config, m: Msg, x: SwDescriptor, src: Slot, len: int, dst: PoolId,
      mk: (int, Copy) -> Stage) {
    && (forall d, c :: plan.acts(Flight(m, x, mk(d, c))))
    && (forall mem, d ::
          plan.next(mem, Flight(m, x, mk(d, Fresh))) == Continue(mk(d, Loaded(Load(cfg, mem, src, len)))))
    && (forall mem, d, data ::
          plan.next(mem, Flight(m, x, mk(d, Loaded(data)))) == Write(Slot(dst, d), data, mk(d, Stored)))
  }

  /** The source header or body of a descriptor. */
  function SourceHeader(pool: PoolId, x: SwDescriptor): Slot { Slot(pool, x.srcHeaderBufSlot) }
  function SourceBody(pool: PoolId, x: SwDescriptor): Slot { Slot(pool, x.srcBodyBufSlot) }

  /** Whether the descriptor names a header, or a body, that can be copied. */
  predicate HasHeader(cfg: Config, x: SwDescriptor) {
    ResolvePool(cfg, x.srcHeaderPoolType, x.srcHeaderPodId).Some? && x.srcHeaderBufSlot >= 0 && x.headerLen > 0
  }

  predicate HasBody(cfg: Config, x: SwDescriptor) {
    ResolvePool(cfg, x.srcBodyPoolType, x.srcBodyPodId).Some? && x.srcBodyBufSlot >= 0 && x.bodyLen > 0
  }

  /** The host TX part of the machine, for one message. */
  ghost predicate TxProgram(plan: Plan, cfg: Config, m: Msg, x: SwDescriptor) {
    TxStart(plan, cfg, m, x) && TxCopying(plan, cfg, m, x) && TxEnd(plan, m, x)
  }

  ghost predicate TxStart(plan: Plan, cfg: Config, m: Msg, x: SwDescriptor) {
    && plan.acts(Flight(m, x, TxTaken))
    && forall mem ::
         var pool := ResolvePool(cfg, x.srcHeaderPoolType, x.srcHeaderPodId);
         var op := plan.next(mem, Flight(m, x, TxTaken));
         if x.headerBufSlot < 0 || x.headerLen == 0 || pool.None? then op == Continue(TxForward(-1))
         else if x.srcHeaderBufSlot < 0 then op == Continue(TxRetry)
         else Allocates(op, DpuTxHeader, d => TxCopy(d, Fresh), TxRetry)
  }

  ghost predicate TxCopying(plan: Plan, cfg: Config, m: Msg, x: SwDescriptor) {
    var pool := ResolvePool(cfg, x.srcHeaderPoolType, x.srcHeaderPodId);
    pool.Some? && x.srcHeaderBufSlot >= 0 ==>
      && Copies(plan, cfg, m, x, SourceHeader(pool.value, x), x.headerLen, DpuTxHeader, (d, c) => TxCopy(d, c))
      && forall mem, d :: plan.next(mem, Flight(m, x, TxCopy(d, Stored))) == Free({SourceHeader(pool.value, x)},
        TxForward(d))
  }

  ghost predicate TxEnd(plan: Plan, m: Msg, x: SwDescriptor) {
    && (forall d :: plan.acts(Flight(m, x, TxForward(d)))) && plan.acts(Flight(m, x, TxRetry))
    && (forall mem, d :: plan.next(mem, Flight(m, x, TxForward(d))) == Enqueue(SidecarTxSq, SidecarDescriptor(x, d)))
    && (forall mem :: plan.next(mem, Flight(m, x, TxRetry)) == Enqueue(TxSq(x.srcPodId), x))
  }

  lemma TxStartIsReal(cfg: Config, m: Msg, x: SwDescriptor)
    ensures TxStart(RealPlan(cfg), cfg, m, x)
  {
  }

  lemma TxCopyingIsReal(cfg: Config, m: Msg, x: SwDescriptor)
    ensures TxCopying(RealPlan(cfg), cfg, m, x)
  {
  }

  lemma TxEndIsReal(cfg: Config, m: Msg, x: SwDescriptor)
    ensures TxEnd(RealPlan(cfg), m, x)
  {
  }

  /** The sidecar RX part. */
  ghost predicate RxProgram(plan: Plan, cfg: Config, m: Msg, x: SwDescriptor) {
    && RxStart(plan, cfg, m, x) && BodyCopying(plan, cfg, m, x) && RxEnd(plan, m, x)
    && forall b :: HeaderStarting(plan, cfg, m, x, b) && HeaderCopying(plan, cfg, m, x, b)
  }

  function AfterBody(x: SwDescriptor, b: int): Stage {
    if x.Case() == CASE_LOCAL then HeaderStart(b) else RxForward(b, -1)
  }

  ghost predicate RxStart(plan: Plan, cfg: Config, m: Msg, x: SwDescriptor) {
    && plan.acts(Flight(m, x, RxTaken))
    && forall mem ::
         var op := plan.next(mem, Flight(m, x, RxTaken));
         if HasBody(cfg, x) then Allocates(op, HostRxBody(Service(cfg, x.dstPodId)), b => BodyCopy(b, Fresh), RxRetry)
         else op == Continue(AfterBody(x, -1))
  }

  ghost predicate BodyCopying(plan: Plan, cfg: Config, m: Msg, x: SwDescriptor) {
    var pool := ResolvePool(cfg, x.srcBodyPoolType, x.srcBodyPodId);
    pool.Some? && x.srcBodyBufSlot >= 0 ==>
      && Copies(plan, cfg, m, x, SourceBody(pool.value, x), x.bodyLen, HostRxBody(Service(cfg, x.dstPodId)),
        (b, c) => BodyCopy(b, c))
      && forall mem, b :: plan.next(mem, Flight(m, x, BodyCopy(b, Stored))) == Free({SourceBody(pool.value, x)},
        AfterBody(x, b))
  }

  ghost predicate HeaderStarting(plan: Plan, cfg: Config, m: Msg, x: SwDescriptor, b: int) {
    && plan.acts(Flight(m, x, HeaderStart(b)))
    && forall mem ::
         var op := plan.next(mem, Flight(m, x, HeaderStart(b)));
         if HasHeader(cfg, x) then Allocates(op, HostRxHeader(Service(cfg, x.dstPodId)), h => HeaderCopy(b, h, Fresh),
           Lost)
         else op == Continue(RxForward(b, -1))
  }

  ghost predicate HeaderCopying(plan: Plan, cfg: Config, m: Msg, x: SwDescriptor, b: int) {
    var pool := ResolvePool(cfg, x.srcHeaderPoolType, x.srcHeaderPodId);
    pool.Some? && x.srcHeaderBufSlot >= 0 ==>
      && Copies(plan, cfg, m, x, SourceHeader(pool.value, x), x.headerLen, HostRxHeader(Service(cfg, x.dstPodId)),
        (h, c) => HeaderCopy(b, h, c))
      && forall mem, h :: plan.next(mem, Flight(m, x, HeaderCopy(b, h, Stored))) == Free({SourceHeader(pool.value, x)},
        RxForward(b, h))
  }

  ghost predicate RxEnd(plan: Plan, m: Msg, x: SwDescriptor) {
    RxForwarding(plan, m, x) && RxRetrying(plan, m, x)
  }

  ghost predicate RxForwarding(plan: Plan, m: Msg, x: SwDescriptor) {
    && (forall b, h :: plan.acts(Flight(m, x, RxForward(b, h))))
    && (forall mem, b, h :: plan.next(mem, Flight(m, x, RxForward(b, h))) == Enqueue(RxSq(x.dstPodId),
      RxDescriptor(x, b, h)))
  }

  ghost predicate RxRetrying(plan: Plan, m: Msg, x: SwDescriptor) {
    plan.acts(Flight(m, x, RxRetry)) && forall mem :: plan.next(mem, Flight(m, x, RxRetry)) == Enqueue(SidecarRxSq, x)
  }

  lemma RxStartIsReal(cfg: Config, m: Msg, x: SwDescriptor)
    requires x.bodyLen >= 0
    ensures RxStart(RealPlan(cfg), cfg, m, x)
  {
  }

  lemma BodyCopiesReal(cfg: Config, m: Msg, x: SwDescriptor, pool: PoolId)
    requires ResolvePool(cfg, x.srcBodyPoolType, x.srcBodyPodId) == Some(pool) && x.srcBodyBufSlot >= 0
    ensures Copies(RealPlan(cfg), cfg, m, x, SourceBody(pool, x), x.bodyLen, HostRxBody(Service(cfg, x.dstPodId)),
      (b, c) => BodyCopy(b, c))
  {
  }

  lemma BodyCopyingIsReal(cfg: Config, m: Msg, x: SwDescriptor)
    ensures BodyCopying(RealPlan(cfg), cfg, m, x)
  {
    var pool := ResolvePool(cfg, x.srcBodyPoolType, x.srcBodyPodId);
    if pool.Some? && x.srcBodyBufSlot >= 0 { BodyCopiesReal(cfg, m, x, pool.value); }
  }

  lemma HeaderStartingIsReal(cfg: Config, m: Msg, x: SwDescriptor, b: int)
    requires x.headerLen >= 0
    ensures HeaderStarting(RealPlan(cfg), cfg, m, x, b)
  {
  }

  lemma HeaderCopyingIsReal(cfg: Config, m: Msg, x: SwDescriptor, b: int)
    ensures HeaderCopying(RealPlan(cfg), cfg, m, x, b)
  {
  }

  lemma RxForwardingIsReal(cfg: Config, m: Msg, x: SwDescriptor)
    ensures RxForwarding(RealPlan(cfg), m, x)
  {
  }

  lemma RxRetryingIsReal(cfg: Config, m: Msg, x: SwDescriptor)
    ensures RxRetrying(RealPlan(cfg), m, x)
  {
  }

  /** The cleanup of a message whose destination is gone. */
  ghost predicate DropProgram(plan: Plan, cfg: Config, m: Msg, x: SwDescriptor) {
    && plan.acts(Flight(m, x, DropBody(true))) && plan.acts(Flight(m, x, DropHeader(true)))
    && (forall mem :: plan.next(mem, Flight(m, x, DropBody(true))) == Free(RefSet(BodyRef(cfg, x)), DropHeader(true)))
    && (forall mem :: plan.next(mem, Flight(m, x, DropHeader(true))) == Leave(RefSet(HeaderRef(cfg, x)), Discarded(m)))
  }

  lemma DropIsReal(cfg: Config, m: Msg, x: SwDescriptor)
    ensures DropProgram(RealPlan(cfg), cfg, m, x)
  {
  }

  /** dpumesh_write, from its first allocation on. */
  ghost predicate WriteProgram(plan: Plan, cfg: Config, m: Msg) {
    WriteHeaderProgram(plan, cfg, m) && WriteBodyProgram(plan, cfg, m)
  }

  ghost predicate WriteHeaderProgram(plan: Plan, cfg: Config, m: Msg) {
    && (forall h, w :: plan.acts(Flight(m, NoDesc, WriteHeader(h, w))))
    && (forall h :: plan.acts(Flight(m, NoDesc, WriteAbort(h))))
    && (forall mem, h :: plan.next(mem, Flight(m, NoDesc, WriteHeader(h, false))) == Write(TxHeaderSlot(cfg, m, h),
      m.header, WriteHeader(h, true)))
    && (forall mem, h :: Allocates(plan.next(mem, Flight(m, NoDesc, WriteHeader(h, true))),
          HostTxBody(Service(cfg, m.pod)), b => WriteBody(h, b, false), WriteAbort(h)))
    && (forall mem, h :: plan.next(mem, Flight(m, NoDesc, WriteAbort(h))) == Leave({TxHeaderSlot(cfg, m, h)},
      Refused(m)))
  }

  ghost predicate WriteBodyProgram(plan: Plan, cfg: Config, m: Msg) {
    && (forall h, b, w :: plan.acts(Flight(m, NoDesc, WriteBody(h, b, w))))
    && (forall mem, h, b :: plan.next(mem, Flight(m, NoDesc, WriteBody(h, b, false))) == Write(TxBodySlot(cfg, m, b),
      Carried(m.body), WriteBody(h, b, true)))
    && (forall mem, h, b :: plan.next(mem, Flight(m, NoDesc, WriteBody(h, b, true))) == Enqueue(TxSq(m.pod),
      HostDescriptor(m, h, b)))
  }

  lemma WriteHeaderIsReal(cfg: Config, m: Msg)
    ensures WriteHeaderProgram(RealPlan(cfg), cfg, m)
  {
  }

  lemma WriteBodyIsReal(cfg: Config, m: Msg)
    ensures WriteBodyProgram(RealPlan(cfg), cfg, m)
  {
  }

  /** The poller's part. */
  ghost predicate PollProgram(plan: Plan, m: Msg, x: SwDescriptor) {
    && plan.acts(Flight(m, x, Polled))
    && forall mem :: plan.next(mem, Flight(m, x, Polled)) ==
         if x.IsResponse() then Answer(x.dstPodId, x.reqId % MAX_PENDING) else Enqueue(Notify(x.dstPodId), x)
  }

  lemma PollIsReal(cfg: Config, m: Msg, x: SwDescriptor)
    ensures PollProgram(RealPlan(cfg), m, x)
  {
  }

  function LandedHeader(cfg: Config, x: SwDescriptor): Option<Slot> {
    if x.headerBufSlot >= 0 then Some(Slot(HostRxHeader(Service(cfg, x.dstPodId)), x.headerBufSlot)) else None
  }

  function LandedBody(cfg: Config, x: SwDescriptor): Option<Slot> {
    if x.bodyBufSlot >= 0 then Some(Slot(HostRxBody(Service(cfg, x.dstPodId)), x.bodyBufSlot)) else None
  }

  /** What a reader copies into its header and body buffers. */
  function HeaderText(cfg: Config, mem: Memory, x: SwDescriptor): Bytes {
    if x.headerBufSlot >= 0 && x.headerLen > 0 && (x.IsResponse() || x.Case() != CASE_INGRESS)
    then LoadRef(cfg, mem, LandedHeader(cfg, x), ReadLen(x.headerLen, MAX_HEADER)) else []
  }

  function BodyText(cfg: Config, mem: Memory, x: SwDescriptor): Bytes {
    if x.bodyBufSlot >= 0 && x.bodyLen > 0 then LoadRef(cfg, mem, LandedBody(cfg, x),
      ReadLen(x.bodyLen, cfg.slotSize)) else []
  }

  /** The reader's part. */
  ghost predicate ReadProgram(plan: Plan, cfg: Config, m: Msg, x: SwDescriptor) {
    ReadLoads(plan, cfg, m, x) && ReadFrees(plan, cfg, m, x)
  }

  ghost predicate ReadLoads(plan: Plan, cfg: Config, m: Msg, x: SwDescriptor) {
    ReadsHeader(plan, cfg, m, x) && ReadsBody(plan, cfg, m, x)
  }

  ghost predicate ReadsHeader(plan: Plan, cfg: Config, m: Msg, x: SwDescriptor) {
    && plan.acts(Flight(m, x, ReadTaken))
    && forall mem :: plan.next(mem, Flight(m, x, ReadTaken)) == Continue(ReadHeader(HeaderText(cfg, mem, x)))
  }

  ghost predicate ReadsBody(plan: Plan, cfg: Config, m: Msg, x: SwDescriptor) {
    && (forall t :: plan.acts(Flight(m, x, ReadHeader(t))))
    && forall mem, t :: plan.next(mem, Flight(m, x, ReadHeader(t))) == Continue(Handling(t, BodyText(cfg, mem, x)))
  }

  ghost predicate ReadFrees(plan: Plan, cfg: Config, m: Msg, x: SwDescriptor) {
    FreesHeader(plan, cfg, m, x) && FreesBody(plan, cfg, m, x)
  }

  ghost predicate FreesHeader(plan: Plan, cfg: Config, m: Msg, x: SwDescriptor) {
    && (forall t, d :: plan.acts(Flight(m, x, Handling(t, d))))
    && forall mem, t, d :: plan.next(mem, Flight(m, x, Handling(t, d))) == Free(RefSet(LandedHeader(cfg, x)),
      ReadFreeBody(t, d))
  }

  ghost predicate FreesBody(plan: Plan, cfg: Config, m: Msg, x: SwDescriptor) {
    && (forall t, d :: plan.acts(Flight(m, x, ReadFreeBody(t, d))))
    && forall mem, t, d :: plan.next(mem, Flight(m, x, ReadFreeBody(t, d))) ==
         Leave(RefSet(LandedBody(cfg, x)), Delivered(m, x.dstPodId, t, d, x.reqId, x.IsResponse()))
  }

  lemma ReadsHeaderIsReal(cfg: Config, m: Msg, x: SwDescriptor)
    ensures ReadsHeader(RealPlan(cfg), cfg, m, x)
  {
  }

  lemma ReadsBodyIsReal(cfg: Config, m: Msg, x: SwDescriptor)
    ensures ReadsBody(RealPlan(cfg), cfg, m, x)
  {
  }

  lemma FreesHeaderIsReal(cfg: Config, m: Msg, x: SwDescriptor)
    ensures FreesHeader(RealPlan(cfg), cfg, m, x)
  {
  }

  lemma FreesBodyIsReal(cfg: Config, m: Msg, x: SwDescriptor)
    ensures FreesBody(RealPlan(cfg), cfg, m, x)
  {
  }

  lemma ReadProgramIsReal(cfg: Config, m: Msg, x: SwDescriptor)
    ensures ReadProgram(RealPlan(cfg), cfg, m, x)
  {
    ReadsHeaderIsReal(cfg, m, x);
    ReadsBodyIsReal(cfg, m, x);
    FreesHeaderIsReal(cfg, m, x);
    FreesBodyIsReal(cfg, m, x);
  }

  // ----------------------------------------------------------------- all that is known of the machine

  ghost predicate CanTake(plan: Plan, s: State, q: QueueId) {
    && plan.safe(s) && Queue(s, q) != [] && Idle(s, Taker(q))
    && Queue(s, q)[0] in s.flights && s.flights[Queue(s, q)[0]].stage.Queued?
  }

  ghost predicate TakesWell(plan: Plan, s: State, q: QueueId)
    requires CanTake(plan, s, q)
  {
    && plan.safe(TakeStep(s, q))
    && (forall i, j | 0 <= i < j < |Queue(s, q)| :: Queue(s, q)[i] != Queue(s, q)[j])
    && var x := s.flights[Queue(s, q)[0]].desc; x.bodyLen >= 0 && x.headerLen >= 0
  }

  ghost predicate CanBegin(plan: Plan, cfg: Config, s: State, m: Msg) {
    plan.safe(s) && ValidMsg(cfg, m) && !m.bridge && Idle(s, Writer(m.pod))
  }

  ghost predicate BeginsWell(plan: Plan, cfg: Config, s: State, m: Msg) {
    plan.safe(BeginWriteStep(cfg, s, m)) && s.next !in s.flights
  }

  /** A message delivered with this header and body, which are those its sender wrote. */
  ghost predicate Received(cfg: Config, s: State, id: nat, header: Bytes, body: Bytes) {
    && id in s.outcomes && s.outcomes[id].Delivered?
    && header == s.outcomes[id].header == s.outcomes[id].msg.header
    && body == s.outcomes[id].body && BodyRead(cfg, s.outcomes[id].msg, body)
  }

  ghost predicate KnowsTake(plan: Plan) {
    forall s, q | CanTake(plan, s, q) :: TakesWell(plan, s, q)
  }

  ghost predicate KnowsWrite(plan: Plan, cfg: Config) {
    && (forall m :: WriteProgram(plan, cfg, m))
    && (forall s, m | CanBegin(plan, cfg, s, m) :: BeginsWell(plan, cfg, s, m))
  }

  ghost predicate KnowsTx(plan: Plan, cfg: Config) {
    forall m, x :: TxProgram(plan, cfg, m, x)
  }

  ghost predicate KnowsRx(plan: Plan, cfg: Config) {
    && (forall m, x: SwDescriptor | x.bodyLen >= 0 && x.headerLen >= 0 :: RxProgram(plan, cfg, m, x))
    && (forall m, x :: DropProgram(plan, cfg, m, x))
    && (forall s: State, id: nat | plan.safe(s) && id in s.flights && s.flights[id].stage.RxTaken? ::
          plan.safe(Go(s, id, DropBody(true))))
  }

  ghost predicate KnowsPoll(plan: Plan) {
    forall m, x :: PollProgram(plan, m, x)
  }

  ghost predicate KnowsRead(plan: Plan, cfg: Config) {
    && (forall m, x :: ReadProgram(plan, cfg, m, x))
    && (forall s: State, id: nat | plan.safe(s) && id in s.outcomes && s.outcomes[id].Delivered? ::
          Received(cfg, s, id, s.outcomes[id].header, s.outcomes[id].body))
  }

  /** Everything the handlers rely on. */
  ghost predicate Complete(plan: Plan, cfg: Config) {
    && Sound(plan, cfg) && KnowsTake(plan) && KnowsWrite(plan, cfg) && KnowsTx(plan, cfg) && KnowsRx(plan, cfg)
    && KnowsPoll(plan) && KnowsRead(plan, cfg)
  }

  /** Taking the front of a ring. */
  lemma TakeResult(plan: Plan, cfg: Config, rings: map<QueueId, seq<SwDescriptor>>, s: State, q: QueueId)
    requires Sound(plan, cfg) && KnowsTake(plan) && plan.safe(s)
    requires RingsAre(rings, s) && Ring(rings, q) != [] && Idle(s, Taker(q))
    ensures Queue(s, q) != [] && Queue(s, q)[0] in s.flights && Queue(s, q)[0] !in s.outcomes
    ensures var id, x, s' := Queue(s, q)[0], Ring(rings, q)[0], TakeStep(s, q);
      && plan.safe(s') && RingsAre(rings[q := Ring(rings, q)[1..]], s')
      && id in s'.flights && s'.flights[id] == Flight(s.flights[id].msg, x, TakenStage(q, x))
      && s'.owner == s.owner && s'.mem == s.mem && s'.waiting == s.waiting
      && x.bodyLen >= 0 && x.headerLen >= 0 && x.valid == 1 && plan.worked(id, s', s')
  {
    assert RingIs(Ring(rings, q), Queue(s, q), s.flights, q);
    assert CanTake(plan, s, q);
    assert TakesWell(plan, s, q);
    RingsAfterTake(rings, s, q);
  }

  class Node {
    const cfg: Config
    ghost const plan: Plan
    var bitmap: set<Slot>
    var mem: map<Slot, Bytes>
    var rings: map<QueueId, seq<SwDescriptor>>
    var pipes: set<(int, int)>
    ghost var s: State
    // the state in which the thread got the message it works on, and the one its last operation left
    ghost var taken: State
    ghost var left: State

    ghost predicate Tracks()
      reads this
    {
      bitmap == s.owner.Keys && mem == s.mem && pipes == s.waiting && RingsAre(rings, s)
    }

    /** The handler is at `stage` of its work on message `id`. */
    ghost predicate At(id: nat, m: Msg, x: SwDescriptor, stage: Stage)
      reads this
    {
      Tracks() && id in s.flights && s.flights[id] == Flight(m, x, stage) && WorkingOn(id)
    }

    /** The message waits at the end of a ring: behind all that is in it. */
    ghost predicate IsLast(q: QueueId, id: nat)
      reads this
    {
      var ids, ring := Queue(s, q), Ring(rings, q);
      && ids != [] && ids[|ids| - 1] == id && id in s.flights
      && ring != [] && ring[|ring| - 1] == s.flights[id].desc
    }

    /** The message was passed on to its destination's ring, or sent round again. */
    ghost predicate PassedOn(id: nat, x: SwDescriptor)
      reads this
    {
      && id in s.flights
      && var st := s.flights[id].stage; st in {Queued(RxSq(x.dstPodId)), Queued(SidecarRxSq)} && IsLast(st.q, id)
    }

    ghost predicate AtEnd(id: nat, m: Msg, x: SwDescriptor, q: QueueId)
      reads this
    {
      At(id, m, x, Queued(q)) && IsLast(q, id)
    }

    /** The thread's operations so far are the machine's on this message, and have left it as it is now. */
    ghost predicate WorkingOn(id: nat)
      reads this
    {
      plan.worked(id, taken, left) && SameFlight(left, s, id)
    }

    /** The thread's operations are the machine's on this message, and the last of them gave this state. */
    ghost predicate HasActed(id: nat)
      reads this
    {
      plan.worked(id, taken, s)
    }

    /** The thread took the front of the queue in state `from`, and has worked on it since. */
    ghost predicate Handled(from: State, q: QueueId, id: nat)
      reads this
    {
      && Queue(from, q) != [] && Queue(from, q)[0] == id && id in from.flights
      && taken == TakeStep(from, q) && HasActed(id)
    }

    /** The operation just done becomes part of the thread's work. */
    ghost method Note(before: State, id: nat)
      requires Sound(plan, cfg) && plan.worked(id, taken, left) && SameFlight(left, before, id)
      requires TurnOk(plan.next, cfg, id, Turn(before, s))
      modifies `left
      ensures left == s && HasActed(id)
    {
      left := s;
    }

    /** Nothing is in flight; what the handlers know is true of the machine. */
    constructor (cfg: Config)
      requires ValidConfig(cfg)
      ensures this.cfg == cfg && plan == RealPlan(cfg) && s == Init && Valid() && Complete(plan, cfg)
    {
      this.cfg, plan := cfg, RealPlan(cfg);
      bitmap, mem, rings, pipes, s, taken, left := {}, map[], map[], {}, Init, Init, Init;
      RealPlanIsComplete(cfg);
      InitIsSafe(cfg);
    }

    /** Other threads may run here: afterwards only this much is known. */
    method Yield(ghost id: nat, ghost m: Msg, ghost x: SwDescriptor, ghost stage: Stage)
      requires At(id, m, x, stage) && plan.acts(Flight(m, x, stage))
      modifies `bitmap, `mem, `rings, `pipes, `s
      ensures At(id, m, x, stage)
      ensures old(plan.safe(s)) ==> plan.safe(s)
    {
    }

    /** A decision on local variables only. */
    method Local(ghost id: nat, ghost m: Msg, ghost x: SwDescriptor, ghost stage: Stage, ghost stage': Stage)
      requires Sound(plan, cfg)
      requires At(id, m, x, stage) && plan.acts(Flight(m, x, stage))
      requires plan.next(s.mem, Flight(m, x, stage)) == Continue(stage')
      modifies `s, `left
      ensures At(id, m, x, stage')
      ensures HasActed(id)
      ensures old(plan.safe(s)) ==> plan.safe(s)
    {
      ghost var before := s;
      s := Perform(cfg, s, id, Upcoming(plan, s, id));
      Note(before, id);
      RingsKept(rings, before, s, id, s.flights[id]);
    }

    /** The search loop of alloc: the first clear bit, or -1. */
    method FirstClear(pool: PoolId) returns (slot: int)
      requires bitmap == s.owner.Keys
      ensures slot == FirstFree(cfg, s.owner, pool, 0)
    {
      slot := 0;
      while slot < cfg.numSlots && Slot(pool, slot) in bitmap
        invariant 0 <= slot <= cfg.numSlots
        invariant FirstFree(cfg, s.owner, pool, slot) == FirstFree(cfg, s.owner, pool, 0)
      {
        slot := slot + 1;
      }
      if slot == cfg.numSlots {
        slot := -1;
      }
    }

    /** alloc: the bit is set if there is one. */
    method AllocSlot(pool: PoolId, ghost id: nat, ghost m: Msg, ghost x: SwDescriptor, ghost stage: Stage,
        ghost granted: int -> Stage, ghost refused: Stage)
      returns (slot: int)
      requires Sound(plan, cfg)
      requires At(id, m, x, stage) && plan.acts(Flight(m, x, stage))
      requires Allocates(plan.next(s.mem, Flight(m, x, stage)), pool, granted, refused)
      modifies `bitmap, `s, `left
      ensures At(id, m, x, if slot < 0 then refused else granted(slot))
      ensures HasActed(id)
      ensures old(plan.safe(s)) ==> plan.safe(s)
    {
      slot := FirstClear(pool);
      if slot >= 0 {
        bitmap := bitmap + {Slot(pool, slot)};
      }
      ghost var before := s;
      s := Perform(cfg, s, id, Upcoming(plan, s, id));
      Note(before, id);
      RingsKept(rings, before, s, id, s.flights[id]);
    }

    /** write */
    method WriteSlot(slot: Slot, data: Bytes, ghost id: nat, ghost m: Msg, ghost x: SwDescriptor, ghost stage: Stage,
        ghost stage': Stage)
      requires Sound(plan, cfg)
      requires At(id, m, x, stage) && plan.acts(Flight(m, x, stage))
      requires plan.next(s.mem, Flight(m, x, stage)) == Write(slot, data, stage')
      modifies `mem, `s, `left
      ensures At(id, m, x, stage')
      ensures HasActed(id)
      ensures old(plan.safe(s)) ==> plan.safe(s)
    {
      mem := Store(cfg, mem, slot, data);
      ghost var before := s;
      s := Perform(cfg, s, id, Upcoming(plan, s, id));
      Note(before, id);
      RingsKept(rings, before, s, id, s.flights[id]);
    }

    /** put: false when the ring is full, which a safe state rules out. */
    method Put(q: QueueId, y: SwDescriptor, ghost id: nat, ghost m: Msg, ghost x: SwDescriptor,
        ghost stage: Stage) returns (ok: bool)
      requires Sound(plan, cfg)
      requires At(id, m, x, stage) && plan.acts(Flight(m, x, stage))
      requires plan.next(s.mem, Flight(m, x, stage)) == Enqueue(q, y)
      modifies `rings, `s, `left
      ensures if ok then AtEnd(id, m, y, q) else At(id, m, x, Lost)
      ensures rings == if ok then old(rings)[q := old(Ring(rings, q)) + [y]] else old(rings)
      ensures (Ring(rings, q), SharedRing.Accepted(ok)) ==
              SharedRing.QueueCall(old(Ring(rings, q)), Capacity(cfg, q), SharedRing.PutC(y))
      ensures HasActed(id)
      ensures old(plan.safe(s)) ==> plan.safe(s) && ok
    {
      assert RingIs(Ring(rings, q), Queue(s, q), s.flights, q);
      ok := |Ring(rings, q)| < Capacity(cfg, q);
      ghost var before := s;
      s := Perform(cfg, s, id, Upcoming(plan, s, id));
      Note(before, id);
      if ok {
        RingsAfterPut(rings, before, s, id, q, y);
        rings := rings[q := Ring(rings, q) + [y]];
      } else {
        RingsKept(rings, before, s, id, s.flights[id]);
      }
    }

    /** copy_buffer: allocate, read, write, with other threads in between; -1 when the pool is full. */
    method CopyBuffer(src: Slot, len: int, dst: PoolId, ghost id: nat, ghost m: Msg, ghost x: SwDescriptor,
        ghost stage: Stage,
                      ghost mk: (int, Copy) -> Stage, ghost refused: Stage)
      returns (slot: int)
      requires Sound(plan, cfg)
      requires At(id, m, x, stage) && plan.acts(Flight(m, x, stage))
      requires Allocates(plan.next(s.mem, Flight(m, x, stage)), dst, d => mk(d, Fresh), refused)
      requires Copies(plan, cfg, m, x, src, len, dst, mk)
      modifies `bitmap, `mem, `rings, `pipes, `s, `left
      ensures At(id, m, x, if slot < 0 then refused else mk(slot, Stored)) && (slot < 0 ==> HasActed(id))
      ensures old(plan.safe(s)) ==> plan.safe(s)
    {
      hide Sound;
      slot := AllocSlot(dst, id, m, x, stage, d => mk(d, Fresh), refused);
      if slot < 0 {
        return;
      }
      Yield(id, m, x, mk(slot, Fresh));
      var data := Load(cfg, mem, src, len);
      Local(id, m, x, mk(slot, Fresh), mk(slot, Loaded(data)));
      Yield(id, m, x, mk(slot, Loaded(data)));
      WriteSlot(Slot(dst, slot), data, id, m, x, mk(slot, Loaded(data)), mk(slot, Stored));
      Yield(id, m, x, mk(slot, Stored));
    }

    /** _handle_host_tx: the message goes on to the sidecar, back to its ring, or (never from a safe state) is lost. */
    method HandleHostTx(x: SwDescriptor, ghost id: nat, ghost m: Msg) returns (lost: bool, d: int)
      requires Sound(plan, cfg)
      requires At(id, m, x, TxTaken) && TxProgram(plan, cfg, m, x) && x.headerLen >= 0
      modifies `bitmap, `mem, `rings, `pipes, `s, `left
      ensures if lost then At(id, m, x, Lost)
              else AtEnd(id, m, SidecarDescriptor(x, d), SidecarTxSq) || AtEnd(id, m, x, TxSq(x.srcPodId))
      ensures HasActed(id)
      ensures old(plan.safe(s)) ==> plan.safe(s) && !lost
    {
      hide Sound;
      d := -1;
      var ok;
      var pool := ResolvePool(cfg, x.srcHeaderPoolType, x.srcHeaderPodId);
      if x.headerBufSlot >= 0 && x.headerLen > 0 && pool.Some? {
        if x.srcHeaderBufSlot < 0 {
          Local(id, m, x, TxTaken, TxRetry);
        } else {
          d := CopyBuffer(SourceHeader(pool.value, x), x.headerLen, DpuTxHeader, id, m, x, TxTaken,
            (d, c) => TxCopy(d, c), TxRetry);
        }
        if d < 0 {
          Yield(id, m, x, TxRetry);
          ok := Put(TxSq(x.srcPodId), x, id, m, x, TxRetry);
          return !ok, d;
        }
        FreeRef(Some(SourceHeader(pool.value, x)), id, m, x, TxCopy(d, Stored), TxForward(d));
      } else {
        Local(id, m, x, TxTaken, TxForward(-1));
      }
      Yield(id, m, x, TxForward(d));
      ok := Put(SidecarTxSq, SidecarDescriptor(x, d), id, m, x, TxForward(d));
      lost := !ok;
    }

    /** The common part of _dma_case2 and _dma_case3: the body. A full pool sends the descriptor back to its ring. */
    method CopyBody(x: SwDescriptor, ghost id: nat, ghost m: Msg) returns (again: bool, lost: bool, b: int)
      requires Sound(plan, cfg)
      requires At(id, m, x, RxTaken) && RxStart(plan, cfg, m, x) && BodyCopying(plan, cfg, m, x) && RxEnd(plan, m, x)
      modifies `bitmap, `mem, `rings, `pipes, `s, `left
      ensures At(id, m, x, if lost then Lost else if again then Queued(SidecarRxSq) else AfterBody(x, b))
      ensures again && !lost ==> IsLast(SidecarRxSq, id)
      ensures HasActed(id)
      ensures old(plan.safe(s)) ==> plan.safe(s) && !lost
    {
      hide Sound;
      again, lost, b := false, false, -1;
      var pool := ResolvePool(cfg, x.srcBodyPoolType, x.srcBodyPodId);
      if pool.Some? && x.srcBodyBufSlot >= 0 && x.bodyLen > 0 {
        b := CopyBuffer(SourceBody(pool.value, x), x.bodyLen, HostRxBody(Service(cfg, x.dstPodId)), id, m, x, RxTaken,
          (b, c) => BodyCopy(b, c), RxRetry);
        if b < 0 {
          Yield(id, m, x, RxRetry);
          var ok := Put(SidecarRxSq, x, id, m, x, RxRetry);
          return true, !ok, b;
        }
        FreeRef(Some(SourceBody(pool.value, x)), id, m, x, BodyCopy(b, Stored), AfterBody(x, b));
      } else {
        Local(id, m, x, RxTaken, AfterBody(x, -1));
      }
    }

    /** _dma_case2 */
    method Case2(x: SwDescriptor, ghost id: nat, ghost m: Msg) returns (lost: bool, b: int)
      requires Sound(plan, cfg)
      requires At(id, m, x, RxTaken) && RxProgram(plan, cfg, m, x) && x.Case() != CASE_LOCAL
      modifies `bitmap, `mem, `rings, `pipes, `s, `left
      ensures if lost then At(id, m, x, Lost)
              else AtEnd(id, m, RxDescriptor(x, b, -1), RxSq(x.dstPodId)) || AtEnd(id, m, x, SidecarRxSq)
      ensures HasActed(id)
      ensures old(plan.safe(s)) ==> plan.safe(s) && !lost
    {
      hide Sound;
      var again;
      again, lost, b := CopyBody(x, id, m);
      if again || lost {
        return;
      }
      Yield(id, m, x, RxForward(b, -1));
      var ok := Put(RxSq(x.dstPodId), RxDescriptor(x, b, -1), id, m, x, RxForward(b, -1));
      lost := !ok;
    }

    /** _dma_case3: the header follows the body; its copy cannot fail in a safe state. */
    method Case3(x: SwDescriptor, ghost id: nat, ghost m: Msg) returns (lost: bool, b: int, h: int)
      requires Sound(plan, cfg)
      requires At(id, m, x, RxTaken) && RxProgram(plan, cfg, m, x) && x.Case() == CASE_LOCAL
      modifies `bitmap, `mem, `rings, `pipes, `s, `left
      ensures if lost then At(id, m, x, Lost)
              else AtEnd(id, m, RxDescriptor(x, b, h), RxSq(x.dstPodId)) || AtEnd(id, m, x, SidecarRxSq)
      ensures HasActed(id)
      ensures old(plan.safe(s)) ==> plan.safe(s) && !lost
    {
      hide Sound;
      var again;
      h := -1;
      again, lost, b := CopyBody(x, id, m);
      if again || lost {
        return;
      }
      assert HeaderStarting(plan, cfg, m, x, b) && HeaderCopying(plan, cfg, m, x, b);
      Yield(id, m, x, HeaderStart(b));
      var pool := ResolvePool(cfg, x.srcHeaderPoolType, x.srcHeaderPodId);
      if pool.Some? && x.srcHeaderBufSlot >= 0 && x.headerLen > 0 {
        h := CopyBuffer(SourceHeader(pool.value, x), x.headerLen, HostRxHeader(Service(cfg, x.dstPodId)), id, m, x,
          HeaderStart(b),
          (h, c) => HeaderCopy(b, h, c), Lost);
        if h < 0 {
          SafeIsNotLost(plan, cfg, s, id);
          return true, b, h;
        }
        FreeRef(Some(SourceHeader(pool.value, x)), id, m, x, HeaderCopy(b, h, Stored), RxForward(b, h));
      } else {
        Local(id, m, x, HeaderStart(b), RxForward(b, -1));
      }
      Yield(id, m, x, RxForward(b, h));
      var ok := Put(RxSq(x.dstPodId), RxDescriptor(x, b, h), id, m, x, RxForward(b, h));
      lost := !ok;
    }

    /** free, if there is a slot to free. */
    method FreeRef(slot: Option<Slot>, ghost id: nat, ghost m: Msg, ghost x: SwDescriptor, ghost stage: Stage,
        ghost stage': Stage)
      requires Sound(plan, cfg)
      requires At(id, m, x, stage) && plan.acts(Flight(m, x, stage))
      requires plan.next(s.mem, Flight(m, x, stage)) == Free(RefSet(slot), stage')
      modifies `bitmap, `s, `left
      ensures At(id, m, x, stage')
      ensures HasActed(id)
      ensures old(plan.safe(s)) ==> plan.safe(s)
    {
      if slot.Some? {
        bitmap := bitmap - {slot.value};
      }
      ghost var before := s;
      s := Perform(cfg, s, id, Upcoming(plan, s, id));
      Note(before, id);
      RingsKept(rings, before, s, id, s.flights[id]);
    }

    /** The same as the last thing done for a message. */
    method FreeLast(slot: Option<Slot>, ghost id: nat, ghost m: Msg, ghost x: SwDescriptor, ghost stage: Stage,
        ghost outcome: Outcome)
      requires Sound(plan, cfg)
      requires At(id, m, x, stage) && plan.acts(Flight(m, x, stage))
      requires plan.next(s.mem, Flight(m, x, stage)) == Leave(RefSet(slot), outcome)
      modifies `bitmap, `s, `left
      ensures Tracks() && id !in s.flights && id in s.outcomes && s.outcomes[id] == outcome
      ensures HasActed(id)
      ensures old(plan.safe(s)) ==> plan.safe(s)
    {
      if slot.Some? {
        bitmap := bitmap - {slot.value};
      }
      ghost var before := s;
      s := Perform(cfg, s, id, Upcoming(plan, s, id));
      Note(before, id);
      RingsAfterLeave(rings, before, s, id);
    }

    /** _cleanup_src_buffers: both source slots are given back and the message is discarded. */
    method CleanupSrcBuffers(x: SwDescriptor, ghost id: nat, ghost m: Msg)
      requires Sound(plan, cfg)
      requires At(id, m, x, DropBody(true)) && DropProgram(plan, cfg, m, x)
      modifies `bitmap, `mem, `rings, `pipes, `s, `left
      ensures Tracks() && id !in s.flights && id in s.outcomes && s.outcomes[id] == Discarded(m)
      ensures HasActed(id)
      ensures old(plan.safe(s)) ==> plan.safe(s)
    {
      hide Sound;
      FreeRef(BodyRef(cfg, x), id, m, x, DropBody(true), DropHeader(true));
      Yield(id, m, x, DropHeader(true));
      FreeLast(HeaderRef(cfg, x), id, m, x, DropHeader(true), Discarded(m));
    }

    /** _handle_sidecar_rx: `found` says whether the destination's resources could be opened. */
    method HandleSidecarRx(x: SwDescriptor, found: bool, ghost id: nat, ghost m: Msg) returns (lost: bool)
      requires Sound(plan, cfg)
      requires KnowsRx(plan, cfg) && At(id, m, x, RxTaken) && x.bodyLen >= 0 && x.headerLen >= 0
      modifies `bitmap, `mem, `rings, `pipes, `s, `left
      ensures Tracks()
      ensures !found ==> id !in s.flights && id in s.outcomes && s.outcomes[id] == Discarded(m)
      ensures found ==> if lost then At(id, m, x, Lost) else PassedOn(id, x)
      ensures HasActed(id)
      ensures old(plan.safe(s)) ==> plan.safe(s) && !lost
    {
      hide Sound;
      lost := false;
      if !found {
        ghost var before := s;
        assert DropProgram(plan, cfg, m, x);
        s := Go(s, id, DropBody(true));
        Note(before, id);
        RingsKept(rings, before, s, id, s.flights[id]);
        CleanupSrcBuffers(x, id, m);
        return;
      }
      assert RxProgram(plan, cfg, m, x);
      var b, h;
      if x.Case() == CASE_LOCAL {
        lost, b, h := Case3(x, id, m);
      } else {
        lost, b := Case2(x, id, m);
      }
    }

    // ----------------------------------------------------------------- the worker

    /** dpumesh_write behind its first allocation: fill both slots and put the descriptor, or give the header back. */
    method FinishWrite(m: Msg, h: int, ghost id: nat) returns (ok: bool)
      requires Sound(plan, cfg)
      requires At(id, m, NoDesc, WriteHeader(h, false)) && WriteProgram(plan, cfg, m)
      modifies `bitmap, `mem, `rings, `pipes, `s, `left
      ensures Tracks()
      ensures ok ==> exists b :: AtEnd(id, m, HostDescriptor(m, h, b), TxSq(m.pod))
      ensures HasActed(id)
      ensures old(plan.safe(s)) ==> plan.safe(s) && (!ok ==> id in s.outcomes && s.outcomes[id] == Refused(m))
    {
      hide Sound;
      WriteSlot(TxHeaderSlot(cfg, m, h), m.header, id, m, NoDesc, WriteHeader(h, false), WriteHeader(h, true));
      Yield(id, m, NoDesc, WriteHeader(h, true));
      var b := AllocSlot(HostTxBody(Service(cfg, m.pod)), id, m, NoDesc, WriteHeader(h, true),
        b => WriteBody(h, b, false), WriteAbort(h));
      if b < 0 {
        Yield(id, m, NoDesc, WriteAbort(h));
        FreeLast(Some(TxHeaderSlot(cfg, m, h)), id, m, NoDesc, WriteAbort(h), Refused(m));
        return false;
      }
      Yield(id, m, NoDesc, WriteBody(h, b, false));
      WriteSlot(TxBodySlot(cfg, m, b), Carried(m.body), id, m, NoDesc, WriteBody(h, b, false), WriteBody(h, b, true));
      Yield(id, m, NoDesc, WriteBody(h, b, true));
      ok := Put(TxSq(m.pod), HostDescriptor(m, h, b), id, m, NoDesc, WriteBody(h, b, true));
    }

    /** dpumesh_poller_fn on one descriptor: a response goes to its pipe, if there is one; a request to the notify
        pipe. */
    method Dispatch(x: SwDescriptor, ghost id: nat, ghost m: Msg) returns (lost: bool)
      requires Sound(plan, cfg)
      requires At(id, m, x, Polled) && PollProgram(plan, m, x)
      modifies `rings, `pipes, `s, `left
      ensures if lost then At(id, m, x, Lost)
              else if !x.IsResponse() then AtEnd(id, m, x, Notify(x.dstPodId))
              else At(id, m, x, if (x.dstPodId, x.reqId % MAX_PENDING) in old(pipes) then Replied else Orphaned)
      ensures HasActed(id)
      ensures old(plan.safe(s)) ==> plan.safe(s) && !lost
    {
      lost := false;
      if x.IsResponse() {
        assert WorkingOn(id);
        pipes := pipes - {(x.dstPodId, x.reqId % MAX_PENDING)};
        ghost var before := s;
        s := Perform(cfg, s, id, Upcoming(plan, s, id));
        Note(before, id);
        RingsKept(rings, before, s, id, s.flights[id]);
      } else {
        var ok := Put(Notify(x.dstPodId), x, id, m, x, Polled);
        lost := !ok;
      }
    }

    /** dpumesh_read and dpumesh_read_response: copy out header and body, then free header before body. */
    method Consume(x: SwDescriptor, ghost id: nat, ghost m: Msg) returns (header: Bytes, body: Bytes)
      requires Sound(plan, cfg)
      requires At(id, m, x, ReadTaken) && ReadProgram(plan, cfg, m, x)
      modifies `bitmap, `mem, `rings, `pipes, `s, `left
      ensures Tracks() && id !in s.flights && id in s.outcomes
      ensures s.outcomes[id] == Delivered(m, x.dstPodId, header, body, x.reqId, x.IsResponse())
      ensures HasActed(id)
      ensures old(plan.safe(s)) ==> plan.safe(s)
    {
      hide Sound;
      header := HeaderText(cfg, mem, x);
      Local(id, m, x, ReadTaken, ReadHeader(header));
      Yield(id, m, x, ReadHeader(header));
      body := BodyText(cfg, mem, x);
      Local(id, m, x, ReadHeader(header), Handling(header, body));
      Yield(id, m, x, Handling(header, body));
      FreeRef(LandedHeader(cfg, x), id, m, x, Handling(header, body), ReadFreeBody(header, body));
      Yield(id, m, x, ReadFreeBody(header, body));
      FreeLast(LandedBody(cfg, x), id, m, x, ReadFreeBody(header, body),
        Delivered(m, x.dstPodId, header, body, x.reqId, x.IsResponse()));
    }

    // ----------------------------------------------------------------- polling

    ghost predicate Valid()
      reads this
    {
      Tracks() && plan.safe(s)
    }

    /** The start of dpumesh_write: a request registers its pipe, and the message gets a header slot or is refused. */
    method BeginMessage(m: Msg) returns (h: int, ghost id: nat)
      requires Sound(plan, cfg)
      requires KnowsWrite(plan, cfg)
      requires Valid() && ValidMsg(cfg, m) && !m.bridge && Idle(s, Writer(m.pod))
      modifies this
      ensures Valid() && id == old(s.next)
      ensures taken == BeginWriteStep(cfg, old(s), m) == s && left == s
      ensures if h < 0 then id in s.outcomes && s.outcomes[id] == Refused(m)
              else At(id, m, NoDesc, WriteHeader(h, false))
    {
      assert CanBegin(plan, cfg, s, m);
      RingsAfterBegin(cfg, rings, s, m);
      if !m.response {
        pipes := pipes + {(m.pod, m.reqId % MAX_PENDING)};
      }
      h := FirstClear(HostTxHeader(Service(cfg, m.pod)));
      id := s.next;
      if h >= 0 {
        bitmap := bitmap + {TxHeaderSlot(cfg, m, h)};
      }
      s := BeginWriteStep(cfg, s, m);
      taken, left := s, s;
    }

    /** dpumesh_write */
    method WriteMessage(m: Msg) returns (ok: bool, ghost id: nat)
      requires Sound(plan, cfg)
      requires KnowsWrite(plan, cfg)
      requires Valid() && ValidMsg(cfg, m) && !m.bridge && Idle(s, Writer(m.pod))
      modifies this
      ensures Valid() && id == old(s.next)
      ensures taken == BeginWriteStep(cfg, old(s), m) && (s == taken || HasActed(id))
      ensures ok ==> exists h, b :: AtEnd(id, m, HostDescriptor(m, h, b), TxSq(m.pod))
      ensures !ok ==> id in s.outcomes && s.outcomes[id] == Refused(m)
    {
      hide Sound;
      var h;
      ok := false;
      h, id := BeginMessage(m);
      if h < 0 {
        return;
      }
      assert WriteProgram(plan, cfg, m);
      ok := FinishWrite(m, h, id);
    }

    /** A poll of one ring: the descriptor at its front becomes the thread's. */
    method Take(q: QueueId) returns (x: SwDescriptor, ghost id: nat, ghost m: Msg)
      requires Sound(plan, cfg)
      requires KnowsTake(plan)
      requires Valid() && Ring(rings, q) != [] && Idle(s, Taker(q))
      modifies this
      ensures Valid() && At(id, m, x, TakenStage(q, x)) && x.valid == 1 && x.bodyLen >= 0 && x.headerLen >= 0
      ensures old(Queue(s, q)) != [] && id == old(Queue(s, q))[0] && id !in old(s.outcomes)
      ensures id in old(s.flights) && taken == TakeStep(old(s), q)
      ensures rings == old(rings)[q := old(Ring(rings, q))[1..]]
      ensures (Ring(rings, q), SharedRing.Got(x)) ==
              SharedRing.QueueCall(old(Ring(rings, q)), Capacity(cfg, q), SharedRing.GetC)
    {
      hide Sound, TakeStep;
      x := Ring(rings, q)[0];
      TakeResult(plan, cfg, rings, s, q);
      id := Queue(s, q)[0];
      m := s.flights[id].msg;
      s := TakeStep(s, q);
      taken, left := s, s;
      rings := rings[q := Ring(rings, q)[1..]];
    }

    /** One round of _poll_host_tx_sqs for one pod: whatever the other threads do, the node stays safe, and a
        message that was taken goes on to the sidecar or back to its ring. */
    method PollHostTx(pod: int) returns (got: bool, ghost id: nat)
      requires Sound(plan, cfg)
      requires KnowsTake(plan) && KnowsTx(plan, cfg)
      requires Valid() && Idle(s, DpaTx)
      modifies this
      ensures Valid()
      ensures got <==> old(Ring(rings, TxSq(pod))) != []
      ensures !got ==> unchanged(this)
      ensures got ==> Handled(old(s), TxSq(pod), id)
      ensures got ==>
        id in s.flights
        && var st := s.flights[id].stage; st.Queued? && (st.q.SidecarTxSq? || st.q.TxSq?) && IsLast(st.q, id)
    {
      hide Sound, TakeStep, KnowsTake, RingsAre, TxProgram;
      got, id := false, 0;
      if Ring(rings, TxSq(pod)) != [] {
        var x;
        ghost var m;
        x, id, m := Take(TxSq(pod));
        if x.valid == 1 {
          assert TxProgram(plan, cfg, m, x);
          var lost, d := HandleHostTx(x, id, m);
          got := true;
        }
      }
    }

    /** One round of _poll_sidecar_rx_sq: a message that was taken is in its destination's ring, back in this one,
        or discarded because its destination is gone. */
    method PollSidecarRx(found: bool) returns (got: bool, ghost id: nat)
      requires Sound(plan, cfg)
      requires KnowsTake(plan) && KnowsRx(plan, cfg)
      requires Valid() && Idle(s, DpaRx)
      modifies this
      ensures Valid()
      ensures got <==> old(Ring(rings, SidecarRxSq)) != []
      ensures !got ==> unchanged(this)
      ensures got ==> Handled(old(s), SidecarRxSq, id)
      ensures got && found ==>
        id in s.flights
        && var st := s.flights[id].stage; st.Queued? && (st.q.SidecarRxSq? || st.q.RxSq?) && IsLast(st.q, id)
      ensures got && !found ==> id in s.outcomes && s.outcomes[id].Discarded?
    {
      hide Sound, TakeStep, KnowsTake, RingsAre, RxProgram, DropProgram;
      got, id := false, 0;
      if Ring(rings, SidecarRxSq) != [] {
        var x;
        ghost var m;
        x, id, m := Take(SidecarRxSq);
        if x.valid == 1 {
          var lost := HandleSidecarRx(x, found, id, m);
          got := true;
        }
      }
    }

    /** One round of dpumesh_poller_fn: a message that was taken is in the notify pipe, with its waiting caller, or
        orphaned. */
    method PollWorker(pod: int) returns (got: bool, ghost id: nat)
      requires Sound(plan, cfg)
      requires KnowsTake(plan) && KnowsPoll(plan)
      requires Valid() && Idle(s, Poller(pod))
      modifies this
      ensures Valid()
      ensures got <==> old(Ring(rings, RxSq(pod))) != []
      ensures !got ==> unchanged(this)
      ensures got ==> Handled(old(s), RxSq(pod), id)
      ensures got ==>
        id in s.flights
        && var st := s.flights[id].stage;
           (st.Queued? && st.q.Notify? && IsLast(st.q, id)) || st.Replied? || st.Orphaned?
    {
      hide Sound, TakeStep, KnowsTake, RingsAre, PollProgram;
      got, id := false, 0;
      if Ring(rings, RxSq(pod)) != [] {
        var x;
        ghost var m;
        x, id, m := Take(RxSq(pod));
        if x.valid == 1 {
          assert PollProgram(plan, m, x);
          var lost := Dispatch(x, id, m);
          got := true;
        }
      }
    }

    /** One round of dpumesh_read: the message at the front of the notify pipe is read, and what the handler is
        given is what its sender wrote. */
    method ReadRequest(pod: int) returns (got: bool, header: Bytes, body: Bytes, ghost id: nat)
      requires Sound(plan, cfg)
      requires KnowsTake(plan) && KnowsRead(plan, cfg)
      requires Valid() && Idle(s, Reader(pod))
      modifies this
      ensures Valid()
      ensures got <==> old(Ring(rings, Notify(pod))) != []
      ensures !got ==> unchanged(this)
      ensures got ==> Handled(old(s), Notify(pod), id) && id !in old(s.outcomes)
      ensures got ==> Received(cfg, s, id, header, body)
    {
      hide Sound, TakeStep, KnowsTake, RingsAre, ReadProgram;
      got, header, body, id := false, [], [], 0;
      if Ring(rings, Notify(pod)) != [] {
        var x;
        ghost var m;
        x, id, m := Take(Notify(pod));
        if x.valid == 1 {
          assert ReadProgram(plan, cfg, m, x);
          got := true;
          header, body := Consume(x, id, m);
          assert Received(cfg, s, id, header, body);
        }
      }
    }
  }

  // ----------------------------------------------------------------- the machine is as the handlers know it

  lemma InitIsSafe(cfg: Config)
    requires ValidConfig(cfg)
    ensures Safe(cfg, Init)
  {
  }

  lemma LosePodIsSafe(cfg: Config, s: State, id: nat)
    requires Safe(cfg, s) && id in s.flights && s.flights[id].stage.RxTaken?
    ensures Safe(cfg, Go(s, id, DropBody(true)))
  {
    StepKeeps(cfg, s, LosePod(id));
  }

  lemma TakeIsSafe(cfg: Config, s: State, q: QueueId)
    requires CanTake(RealPlan(cfg), s, q)
    ensures TakesWell(RealPlan(cfg), s, q)
  {
    QueueIsDistinct(MeshSpec(cfg), s, q);
    QueuedLengths(cfg, s, Queue(s, q)[0]);
    StepKeeps(cfg, s, Take(q));
  }

  lemma OutcomeHolds(spec: Spec, s: State, id: nat)
    requires Inv(spec, s) && id in s.outcomes
    ensures spec.good(s.outcomes[id])
  {
  }

  lemma ReceivedHolds(cfg: Config, s: State, id: nat)
    requires Safe(cfg, s) && id in s.outcomes && s.outcomes[id].Delivered?
    ensures Received(cfg, s, id, s.outcomes[id].header, s.outcomes[id].body)
  {
    OutcomeHolds(MeshSpec(cfg), s, id);
  }

  lemma BeginIsSafe(cfg: Config, s: State, m: Msg)
    requires CanBegin(RealPlan(cfg), cfg, s, m)
    ensures BeginsWell(RealPlan(cfg), cfg, s, m)
  {
    StepKeeps(cfg, s, BeginWrite(m));
    NextIsNew(MeshSpec(cfg), s);
  }

  lemma NextIsNew(spec: Spec, s: State)
    requires Inv(spec, s)
    ensures s.next !in s.flights
  {
  }

  lemma RingsAfterBegin(cfg: Config, rings: map<QueueId, seq<SwDescriptor>>, s: State, m: Msg)
    requires RingsAre(rings, s) && s.next !in s.flights
    ensures RingsAre(rings, BeginWriteStep(cfg, s, m))
  {
    var s' := BeginWriteStep(cfg, s, m);
    forall q ensures RingIs(Ring(rings, q), Queue(s', q), s'.flights, q) {
      assert RingIs(Ring(rings, q), Queue(s, q), s.flights, q);
    }
  }

  lemma QueueIsDistinct(spec: Spec, s: State, q: QueueId)
    requires Inv(spec, s)
    ensures forall i, j | 0 <= i < j < |Queue(s, q)| :: Queue(s, q)[i] != Queue(s, q)[j]
  {
    if q in s.queues { assert Distinct(s.queues[q]); }
  }

  lemma QueuedLengths(cfg: Config, s: State, id: nat)
    requires Safe(cfg, s) && id in s.flights && s.flights[id].stage.Queued?
    ensures s.flights[id].desc.bodyLen >= 0 && s.flights[id].desc.headerLen >= 0
  {
    ShapeHolds(cfg, s, id);
  }

  lemma TxProgramIsReal(cfg: Config, m: Msg, x: SwDescriptor)
    ensures TxProgram(RealPlan(cfg), cfg, m, x)
  {
    TxStartIsReal(cfg, m, x);
    TxCopyingIsReal(cfg, m, x);
    TxEndIsReal(cfg, m, x);
  }

  lemma RxProgramIsReal(cfg: Config, m: Msg, x: SwDescriptor)
    requires x.bodyLen >= 0 && x.headerLen >= 0
    ensures RxProgram(RealPlan(cfg), cfg, m, x)
  {
    RxStartIsReal(cfg, m, x);
    BodyCopyingIsReal(cfg, m, x);
    RxForwardingIsReal(cfg, m, x);
    RxRetryingIsReal(cfg, m, x);
    forall b ensures HeaderStarting(RealPlan(cfg), cfg, m, x, b) && HeaderCopying(RealPlan(cfg), cfg, m, x, b) {
      HeaderStartingIsReal(cfg, m, x, b);
      HeaderCopyingIsReal(cfg, m, x, b);
    }
  }

  lemma WriteProgramIsReal(cfg: Config, m: Msg)
    ensures WriteProgram(RealPlan(cfg), cfg, m)
  {
    WriteHeaderIsReal(cfg, m);
    WriteBodyIsReal(cfg, m);
  }

  /** The machine does what the handlers take it to do. */
  lemma RealPlanIsComplete(cfg: Config)
    ensures Complete(RealPlan(cfg), cfg)
  {
    var plan := RealPlan(cfg);
    RealPlanIsSound(cfg);
    forall m, x ensures TxProgram(plan, cfg, m, x) { TxProgramIsReal(cfg, m, x); }
    forall m, x: SwDescriptor | x.bodyLen >= 0 && x.headerLen >= 0 ensures RxProgram(plan, cfg, m,
      x) { RxProgramIsReal(cfg, m, x); }
    forall m, x ensures DropProgram(plan, cfg, m, x) { DropIsReal(cfg, m, x); }
    forall m, x ensures PollProgram(plan, m, x) { PollIsReal(cfg, m, x); }
    forall m, x ensures ReadProgram(plan, cfg, m, x) { ReadProgramIsReal(cfg, m, x); }
    forall m ensures WriteProgram(plan, cfg, m) { WriteProgramIsReal(cfg, m); }
    forall s, q | CanTake(plan, s, q) ensures TakesWell(plan, s, q) { TakeIsSafe(cfg, s, q); }
    forall s, m | CanBegin(plan, cfg, s, m) ensures BeginsWell(plan, cfg, s, m) { BeginIsSafe(cfg, s, m); }
    forall s: State, id: nat | plan.safe(s) && id in s.flights && s.flights[id].stage.RxTaken?
      ensures plan.safe(Go(s, id, DropBody(true)))
    {
      LosePodIsSafe(cfg, s, id);
    }
    forall s: State, id: nat | plan.safe(s) && id in s.outcomes && s.outcomes[id].Delivered?
      ensures Received(cfg, s, id, s.outcomes[id].header, s.outcomes[id].body)
    {
      ReceivedHolds(cfg, s, id);
    }
  }
}
