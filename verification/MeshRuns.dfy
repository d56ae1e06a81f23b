/** Runs that exist: every message can be carried where it is sent, and what goes wrong on the way can happen. */
module MeshRuns {
  import opened Options
  import opened Descriptor
  import opened Utf8
  import opened Mesh
  import opened Ledger
  import opened MeshInvariant
  import opened MeshSteps
  import opened MeshSafety
  import opened MeshTheorems
  import opened MeshProgress

  // ----------------------------------------------------------------- runs under a policy

  /** A run in which the sidecar's decisions are the policy's. */
  ghost predicate Guided(cfg: Config, policy: Policy, states: seq<State>, steps: seq<Step>) {
    Run(cfg, states, steps) && forall i | 0 <= i < |steps| :: Follows(policy, states[i], steps[i])
  }

  ghost predicate Attained(cfg: Config, policy: Policy, s: State) {
    exists states, steps ::
      Guided(cfg, policy, states, steps) && states[0] == Init && states[|states| - 1] == s
  }

  lemma AttainedIsReachable(cfg: Config, policy: Policy, s: State)
    requires Attained(cfg, policy, s)
    ensures Reachable(cfg, s)
  {
    var states, steps :| Guided(cfg, policy, states, steps) && states[0] == Init && states[|states| - 1] == s;
    assert Run(cfg, states, steps);
  }

  lemma AttainedStep(cfg: Config, policy: Policy, s: State, step: Step)
    requires Attained(cfg, policy, s) && Enabled(cfg, s, step) && Follows(policy, s, step)
    ensures Attained(cfg, policy, Apply(cfg, s, step))
  {
    var states, steps :| Guided(cfg, policy, states, steps) && states[0] == Init && states[|states| - 1] == s;
    var states', steps' := states + [Apply(cfg, s, step)], steps + [step];
    forall i | 0 <= i < |steps'|
      ensures Enabled(cfg, states'[i], steps'[i]) && states'[i + 1] == Apply(cfg, states'[i], steps'[i])
      ensures Follows(policy, states'[i], steps'[i])
    {
      if i < |steps| { assert steps'[i] == steps[i] && states'[i] == states[i] && states'[i + 1] == states[i + 1]; }
    }
    assert Guided(cfg, policy, states', steps');
  }

  lemma InitIsAttained(cfg: Config, policy: Policy)
    ensures Attained(cfg, policy, Init)
  {
    assert Guided(cfg, policy, [Init], []);
  }

  // ----------------------------------------------------------------- on course

  /** Where a message is to go: a pod, or back to the bridge. */
  ghost predicate Sendable(cfg: Config, m: Msg, dest: Option<int>) {
    && ValidMsg(cfg, m)
    && (if dest.None? then m.response && !m.bridge else dest.value in cfg.registry)
    && (m.bridge ==> dest == Some(m.pod) && |m.body| <= cfg.slotSize)
  }

  function Destination(dest: Option<int>): Decision {
    if dest.None? then ToBridge else Forward(dest.value)
  }

  /** The message may go to `dest`, and as the `id`-th it is what the policy sends there. */
  ghost predicate Sent(cfg: Config, policy: Policy, id: nat, m: Msg, dest: Option<int>) {
    Sendable(cfg, m, dest) && (!m.bridge ==> policy(id, m.header, m.response) == Destination(dest))
  }

  /** The message is on its way to `dest`, and nothing has turned it back. */
  predicate OnCourse(f: Flight, dest: Option<int>) {
    var there := dest == Some(f.desc.dstPodId);
    match f.stage
    case WriteHeader(_, _) => true
    case WriteBody(_, _, _) => true
    case Inject(_, _) => true
    case Queued(q) => q.TxSq? || q.SidecarTxSq? || there
    case TxTaken => true
    case TxCopy(_, _) => true
    case TxForward(_) => true
    case RouteTaken => true
    case Routing(_) => true
    case BridgeBody(_) => dest.None?
    case BridgeFreeBody(_, _) => dest.None?
    case BridgeFreeHeader(_, _) => dest.None?
    case RouteForward => there
    case RxTaken => there
    case BodyCopy(_, _) => there
    case HeaderStart(_) => there
    case HeaderCopy(_, _, _) => there
    case RxForward(_, _) => there
    case Polled => there
    case Replied => there
    case ReadTaken => there
    case ReadHeader(_) => there
    case Handling(_, _) => there
    case ReadFreeBody(_, _) => there
    case _ => false
  }

  /** The message's end: read at its pod, or answered to the bridge. */
  predicate Arrival(o: Outcome, m: Msg, dest: Option<int>) {
    match o
    case Delivered(m', pod, _, _, _, _) => m' == m && dest == Some(pod)
    case Answered(m', _, _) => m' == m && dest.None?
    case _ => false
  }

  /** Between polling and reading a response is past its pipe. */
  predicate PastThePipe(st: Stage) {
    st.Replied? || st.ReadTaken? || st.ReadHeader? || st.Handling? || st.ReadFreeBody?
  }

  /** The message stays on course; only polling takes a response past its pipe. */
  predicate Onward(f: Flight, g: Flight, dest: Option<int>) {
    && OnCourse(g, dest)
    && (f.msg.response && !f.stage.Polled? ==> (PastThePipe(f.stage) <==> PastThePipe(g.stage)))
  }

  /** An operation keeps the message on course, and allocates only from pools it owns nothing of. */
  ghost predicate Leads(cfg: Config, op: Op, f: Flight, dest: Option<int>) {
    match op
    case Continue(st) => Onward(f, f.(stage := st), dest)
    case Alloc(pool, granted, _) =>
      && (forall i :: Onward(f, f.(stage := granted(i)), dest))
      && (forall sl | sl in Owned(cfg, f) :: sl.pool != pool)
      && AtDestination(cfg, pool, f, dest)
    case Free(_, st) => Onward(f, f.(stage := st), dest)
    case Write(_, _, st) => Onward(f, f.(stage := st), dest)
    case Enqueue(q, x) => Onward(f, f.(desc := x, stage := Queued(q)), dest)
    case Answer(pod, index) =>
      && dest == Some(pod) && f.stage.Polled? && f.msg.response && index == f.msg.reqId % MAX_PENDING
      && OnCourse(f.(stage := Replied), dest)
    case Leave(_, o) => Arrival(o, f.msg, dest) && (f.msg.response && dest.Some? ==> PastThePipe(f.stage))
  }

  /** A pool that orphans may fill is the destination's. */
  predicate AtDestination(cfg: Config, pool: PoolId, f: Flight, dest: Option<int>) {
    && (pool.HostRxBody? ==> dest.Some? && pool.service == Service(cfg, dest.value))
    && (pool.HostRxHeader? ==> f.stage.HeaderStart? && pool.service == Service(cfg, f.desc.dstPodId))
  }

  lemma WriterLeads(cfg: Config, mem: Memory, f: Flight, dest: Option<int>)
    requires ValidConfig(cfg) && FlightOk(cfg, mem, f) && Sendable(cfg, f.msg, dest) && OnCourse(f, dest)
    requires ThreadOf(f).Writer?
    ensures Leads(cfg, WriterOp(cfg, f), f, dest)
  {
  }

  lemma DpaTxLeads(cfg: Config, mem: Memory, f: Flight, dest: Option<int>)
    requires ValidConfig(cfg) && FlightOk(cfg, mem, f) && Sendable(cfg, f.msg, dest) && OnCourse(f, dest)
    requires ThreadOf(f).DpaTx?
    ensures Leads(cfg, DpaTxOp(cfg, mem, f), f, dest)
  {
    HostRefsResolve(cfg, f.msg, f.desc);
  }

  lemma SidecarLeads(cfg: Config, mem: Memory, f: Flight, dest: Option<int>)
    requires ValidConfig(cfg) && FlightOk(cfg, mem, f) && Sendable(cfg, f.msg, dest) && OnCourse(f, dest)
    requires ThreadOf(f).Sidecar? && !f.stage.Routing?
    ensures Leads(cfg, SidecarOp(cfg, mem, f), f, dest)
  {
  }

  lemma BridgeLeads(cfg: Config, mem: Memory, f: Flight, dest: Option<int>)
    requires ValidConfig(cfg) && FlightOk(cfg, mem, f) && Sendable(cfg, f.msg, dest) && OnCourse(f, dest)
    requires ThreadOf(f).BridgeClient?
    ensures Leads(cfg, BridgeOp(cfg, f), f, dest)
  {
  }

  lemma RxTakenLeads(cfg: Config, mem: Memory, f: Flight, dest: Option<int>)
    requires ValidConfig(cfg) && FlightOk(cfg, mem, f) && Sendable(cfg, f.msg, dest) && OnCourse(f, dest)
    requires f.stage.RxTaken?
    ensures Leads(cfg, DpaRxOp(cfg, mem, f), f, dest)
  {
    if f.msg.bridge { IngressRefsResolve(cfg, f.msg, f.desc); } else { DpuRefsResolve(cfg, f.msg, f.desc); }
  }

  lemma BodyCopyLeads(cfg: Config, mem: Memory, f: Flight, dest: Option<int>)
    requires ValidConfig(cfg) && FlightOk(cfg, mem, f) && Sendable(cfg, f.msg, dest) && OnCourse(f, dest)
    requires f.stage.BodyCopy?
    ensures Leads(cfg, DpaRxOp(cfg, mem, f), f, dest)
  {
  }

  lemma HeaderStartLeads(cfg: Config, mem: Memory, f: Flight, dest: Option<int>)
    requires ValidConfig(cfg) && FlightOk(cfg, mem, f) && Sendable(cfg, f.msg, dest) && OnCourse(f, dest)
    requires f.stage.HeaderStart?
    ensures Leads(cfg, DpaRxOp(cfg, mem, f), f, dest)
  {
    DpuRefsResolve(cfg, f.msg, f.desc);
  }

  lemma HeaderCopyLeads(cfg: Config, mem: Memory, f: Flight, dest: Option<int>)
    requires ValidConfig(cfg) && FlightOk(cfg, mem, f) && Sendable(cfg, f.msg, dest) && OnCourse(f, dest)
    requires f.stage.HeaderCopy? || f.stage.RxForward?
    ensures Leads(cfg, DpaRxOp(cfg, mem, f), f, dest)
  {
  }

  lemma DpaRxLeads(cfg: Config, mem: Memory, f: Flight, dest: Option<int>)
    requires ValidConfig(cfg) && FlightOk(cfg, mem, f) && Sendable(cfg, f.msg, dest) && OnCourse(f, dest)
    requires ThreadOf(f).DpaRx?
    ensures Leads(cfg, DpaRxOp(cfg, mem, f), f, dest)
  {
    var st := f.stage;
    if st.RxTaken? { RxTakenLeads(cfg, mem, f, dest); }
    else if st.BodyCopy? { BodyCopyLeads(cfg, mem, f, dest); }
    else if st.HeaderStart? { HeaderStartLeads(cfg, mem, f, dest); }
    else { HeaderCopyLeads(cfg, mem, f, dest); }
  }

  lemma WorkerLeads(cfg: Config, mem: Memory, f: Flight, dest: Option<int>)
    requires ValidConfig(cfg) && FlightOk(cfg, mem, f) && Sendable(cfg, f.msg, dest) && OnCourse(f, dest)
    requires ThreadOf(f).Poller? || ThreadOf(f).Reader?
    ensures Leads(cfg, WorkerOp(cfg, mem, f), f, dest)
  {
  }

  lemma NextIsThreads(cfg: Config, mem: Memory, f: Flight, op: Op)
    requires op == NextOp(cfg, mem, f) && !f.stage.DropBody? && !f.stage.DropHeader?
    ensures match ThreadOf(f)
      case Writer(_) => op == WriterOp(cfg, f)
      case DpaTx => op == DpaTxOp(cfg, mem, f)
      case Sidecar => op == SidecarOp(cfg, mem, f)
      case BridgeClient => op == BridgeOp(cfg, f)
      case DpaRx => op == DpaRxOp(cfg, mem, f)
      case Poller(_) => op == WorkerOp(cfg, mem, f)
      case Reader(_) => op == WorkerOp(cfg, mem, f)
      case Nobody => true
  {
  }

  // ----------------------------------------------------------------- one message alone

  /** Everything else in flight is an orphan. */
  ghost predicate Solo(s: State, id: nat) {
    id in s.flights && forall j | j in s.flights && j != id :: s.flights[j].stage.Orphaned?
  }

  ghost predicate OnlyOrphans(s: State) {
    forall j | j in s.flights :: s.flights[j].stage.Orphaned?
  }

  /** Orphans leave room at the destination. */
  ghost predicate Open(cfg: Config, s: State, dest: Option<int>) {
    dest.Some? ==> !HeldByOrphans(cfg, s, Service(cfg, dest.value))
  }

  /** With nothing in flight no pool is held. */
  lemma QuietIsOpen(cfg: Config, s: State, dest: Option<int>)
    requires ValidConfig(cfg) && s.flights == map[]
    ensures Open(cfg, s, dest) && OnlyOrphans(s)
  {
    if dest.Some? { assert !OrphanHolds(s, Slot(HostRxBody(Service(cfg, dest.value)), 0)); }
  }

  /** Orphans own nothing but what landed. */
  lemma OrphanPools(cfg: Config, f: Flight, sl: Slot)
    requires f.stage.Orphaned? && sl in Owned(cfg, f)
    ensures sl.pool.HostRxBody? || sl.pool.HostRxHeader?
  {
  }

  /** Outside the RX pools, what is allocated is the message's own. */
  lemma OthersLeaveRoom(cfg: Config, s: State, id: nat, pool: PoolId)
    requires ValidConfig(cfg) && Inv(MeshSpec(cfg), s) && !pool.HostRxBody? && !pool.HostRxHeader?
    requires forall j | j in s.flights && j != id :: s.flights[j].stage.Orphaned?
    requires id in s.flights ==> forall sl | sl in Owned(cfg, s.flights[id]) :: sl.pool != pool
    ensures FirstFree(cfg, s.owner, pool, 0) >= 0
  {
    var sl := Slot(pool, 0);
    if sl in s.owner {
      OwnerOwns(MeshSpec(cfg), s, sl);
      var j := s.owner[sl];
      if j != id { OrphanPools(cfg, s.flights[j], sl); }
    }
  }

  /** In an RX body pool that orphans do not hold whole, some slot is free. */
  lemma OrphansLeaveRoom(cfg: Config, s: State, id: nat, svc: string)
    requires ValidConfig(cfg) && Inv(MeshSpec(cfg), s) && Solo(s, id) && !HeldByOrphans(cfg, s, svc)
    requires forall sl | sl in Owned(cfg, s.flights[id]) :: sl.pool != HostRxBody(svc)
    ensures FirstFree(cfg, s.owner, HostRxBody(svc), 0) >= 0
  {
    var i :| 0 <= i < cfg.numSlots && !OrphanHolds(s, Slot(HostRxBody(svc), i));
    var sl := Slot(HostRxBody(svc), i);
    if sl in s.owner { OwnerOwns(MeshSpec(cfg), s, sl); }
  }

  /** A message alone finds a free slot in any pool on its way that it owns nothing of. */
  lemma SoloFindsRoom(cfg: Config, s: State, id: nat, dest: Option<int>, pool: PoolId)
    requires ValidConfig(cfg) && Inv(MeshSpec(cfg), s) && Solo(s, id) && Open(cfg, s, dest)
    requires AtDestination(cfg, pool, s.flights[id], dest)
    requires forall sl | sl in Owned(cfg, s.flights[id]) :: sl.pool != pool
    ensures FirstFree(cfg, s.owner, pool, 0) >= 0
  {
    if pool.HostRxBody? { OrphansLeaveRoom(cfg, s, id, pool.service); }
    else if pool.HostRxHeader? { HeaderPoolHasRoom(cfg, s, id); }
    else { OthersLeaveRoom(cfg, s, id, pool); }
  }

  /** It is the only one in its queue. */
  lemma SoloQueued(spec: Spec, s: State, id: nat)
    requires Inv(spec, s) && Solo(s, id) && s.flights[id].stage.Queued?
    ensures Queue(s, s.flights[id].stage.q) != [] && Queue(s, s.flights[id].stage.q)[0] == id
  {
    var q := s.flights[id].stage.q;
    assert id in s.queues[q];
    FrontInFlight(spec, s, q);
  }

  /** Its next step. */
  function CourseOf(f: Flight, id: nat, dest: Option<int>): Step {
    match f.stage
    case Queued(q) => Take(q)
    case Routing(_) => Decide(id, Destination(dest))
    case Replied => TakeReply(id)
    case _ => Advance(id)
  }

  /** A polled response for which no pipe waits. */
  ghost predicate Unwanted(s: State, f: Flight, dest: Option<int>) {
    f.msg.response && dest.Some? && (dest.value, f.msg.reqId % MAX_PENDING) !in s.waiting
  }

  /** The other messages stay as they are. */
  predicate OthersStay(s: State, s': State, id: nat) {
    s'.flights - {id} == s.flights - {id}
  }

  /** What one step does to a message alone. */
  ghost predicate Moved(s: State, s': State, id: nat, dest: Option<int>)
    requires id in s.flights
  {
    && OthersStay(s, s', id) && s'.next == s.next
    && if id in s'.flights then Onwards(s, s', id, dest) else Left(s, s', id, dest)
  }

  ghost predicate Onwards(s: State, s': State, id: nat, dest: Option<int>)
    requires id in s.flights && id in s'.flights
  {
    var f, g := s.flights[id], s'.flights[id];
    && g.msg == f.msg && Rank(g.stage) < Rank(f.stage)
    && if f.stage.Polled? && f.msg.response then
         if Unwanted(s, f, dest) then
           g.stage.Orphaned? && dest == Some(g.desc.dstPodId) && s'.waiting == s.waiting
         else g.stage.Replied? && OnCourse(g, dest)
       else Onward(f, g, dest) && s'.waiting == s.waiting
  }

  ghost predicate Left(s: State, s': State, id: nat, dest: Option<int>)
    requires id in s.flights
  {
    var f := s.flights[id];
    && s'.waiting == s.waiting
    && id in s'.outcomes && Arrival(s'.outcomes[id], f.msg, dest)
    && (f.msg.response && dest.Some? ==> PastThePipe(f.stage))
  }

  /** A message alone in the mesh, on course to `dest`. */
  ghost predicate Travelling(cfg: Config, s: State, id: nat, dest: Option<int>) {
    && ValidConfig(cfg) && Inv(MeshSpec(cfg), s) && Solo(s, id) && Open(cfg, s, dest)
    && FlightOk(cfg, s.mem, s.flights[id]) && Sendable(cfg, s.flights[id].msg, dest) && OnCourse(s.flights[id], dest)
  }

  lemma OthersKept(flights: map<nat, Flight>, id: nat, f: Flight)
    ensures flights[id := f] - {id} == flights - {id} && (flights - {id}) - {id} == flights - {id}
  {
  }

  /** The message goes to another stage. */
  lemma StageMoves(s: State, s': State, id: nat, dest: Option<int>, stage: Stage)
    requires Solo(s, id) && !(s.flights[id].stage.Polled? && s.flights[id].msg.response)
    requires Onward(s.flights[id], s.flights[id].(stage := stage), dest) && Rank(stage) < Rank(s.flights[id].stage)
    requires s'.flights == s.flights[id := s.flights[id].(stage := stage)] && s'.next == s.next
    requires s'.waiting == s.waiting
    ensures Moved(s, s', id, dest)
  {
    OthersKept(s.flights, id, s'.flights[id]);
  }

  lemma LeaveMoves(cfg: Config, s: State, id: nat, dest: Option<int>, op: Op)
    requires Solo(s, id) && op.Leave? && Arrival(op.outcome, s.flights[id].msg, dest)
    requires s.flights[id].msg.response && dest.Some? ==> PastThePipe(s.flights[id].stage)
    ensures Moved(s, Perform(cfg, s, id, op), id, dest)
  {
    OthersKept(s.flights, id, s.flights[id]);
  }

  lemma EnqueueMoves(cfg: Config, s: State, id: nat, dest: Option<int>, op: Op)
    requires Solo(s, id) && op.Enqueue? && |Queue(s, op.q)| < Capacity(cfg, op.q)
    requires !(s.flights[id].stage.Polled? && s.flights[id].msg.response)
    requires Onward(s.flights[id], s.flights[id].(desc := op.desc, stage := Queued(op.q)), dest)
    requires Rank(Queued(op.q)) < Rank(s.flights[id].stage)
    ensures Moved(s, Perform(cfg, s, id, op), id, dest)
  {
    OthersKept(s.flights, id, s.flights[id].(desc := op.desc, stage := Queued(op.q)));
  }

  lemma AnswerMoves(cfg: Config, s: State, id: nat, pod: int)
    requires Solo(s, id) && s.flights[id].stage.Polled? && s.flights[id].msg.response
    requires OnCourse(s.flights[id].(stage := Replied), Some(pod))
    ensures Moved(s, Perform(cfg, s, id, Answer(pod, s.flights[id].msg.reqId % MAX_PENDING)), id, Some(pod))
  {
    var f := s.flights[id];
    var index := f.msg.reqId % MAX_PENDING;
    var s' := Perform(cfg, s, id, Answer(pod, index));
    var stage := if (pod, index) in s.waiting then Replied else Orphaned;
    assert s'.flights == s.flights[id := f.(stage := stage)];
    OthersKept(s.flights, id, f.(stage := stage));
  }

  /** An operation that leads on and down moves the message. */
  lemma PerformMoves(cfg: Config, s: State, id: nat, dest: Option<int>, op: Op)
    requires Solo(s, id) && Leads(cfg, op, s.flights[id], dest) && LeadsDown(op, Rank(s.flights[id].stage))
    requires s.flights[id].stage.Polled? && s.flights[id].msg.response ==> op.Answer?
    requires op.Alloc? ==> FirstFree(cfg, s.owner, op.pool, 0) >= 0
    requires op.Continue? ==> !TurnedBack(op.stage)
    requires op.Enqueue? ==> |Queue(s, op.q)| < Capacity(cfg, op.q)
    ensures Moved(s, Perform(cfg, s, id, op), id, dest)
  {
    var s' := Perform(cfg, s, id, op);
    if op.Leave? { LeaveMoves(cfg, s, id, dest, op); }
    else if op.Enqueue? { EnqueueMoves(cfg, s, id, dest, op); }
    else if op.Answer? { AnswerMoves(cfg, s, id, op.pod); }
    else if op.Alloc? { StageMoves(s, s', id, dest, op.granted(FirstFree(cfg, s.owner, op.pool, 0))); }
    else { StageMoves(s, s', id, dest, op.stage); }
  }

  lemma AdvanceMoves(cfg: Config, s: State, id: nat, dest: Option<int>, op: Op)
    requires Travelling(cfg, s, id, dest) && !ThreadOf(s.flights[id]).Nobody? && !s.flights[id].stage.Routing?
    requires op == NextOp(cfg, s.mem, s.flights[id]) && Leads(cfg, op, s.flights[id], dest)
    requires s.flights[id].stage.Polled? && s.flights[id].msg.response ==> op.Answer?
    ensures Moved(s, Apply(cfg, s, Advance(id)), id, dest)
  {
    NextLeadsDown(cfg, s.mem, s.flights[id]);
    if op.Alloc? { SoloFindsRoom(cfg, s, id, dest, op.pool); }
    if op.Enqueue? { EnqueueHasRoom(cfg, s, id); }
    PerformMoves(cfg, s, id, dest, op);
  }

  lemma WriterMoves(cfg: Config, s: State, id: nat, dest: Option<int>)
    requires Travelling(cfg, s, id, dest) && ThreadOf(s.flights[id]).Writer?
    ensures Moved(s, Apply(cfg, s, Advance(id)), id, dest)
  {
    var f, op := s.flights[id], WriterOp(cfg, s.flights[id]);
    NextIsThreads(cfg, s.mem, f, NextOp(cfg, s.mem, f));
    WriterLeads(cfg, s.mem, f, dest);
    AdvanceMoves(cfg, s, id, dest, op);
  }

  lemma DpaTxMoves(cfg: Config, s: State, id: nat, dest: Option<int>)
    requires Travelling(cfg, s, id, dest) && ThreadOf(s.flights[id]).DpaTx?
    ensures Moved(s, Apply(cfg, s, Advance(id)), id, dest)
  {
    var f, op := s.flights[id], DpaTxOp(cfg, s.mem, s.flights[id]);
    NextIsThreads(cfg, s.mem, f, NextOp(cfg, s.mem, f));
    DpaTxLeads(cfg, s.mem, f, dest);
    AdvanceMoves(cfg, s, id, dest, op);
  }

  lemma SidecarMoves(cfg: Config, s: State, id: nat, dest: Option<int>)
    requires Travelling(cfg, s, id, dest) && ThreadOf(s.flights[id]).Sidecar? && !s.flights[id].stage.Routing?
    ensures Moved(s, Apply(cfg, s, Advance(id)), id, dest)
  {
    var f, op := s.flights[id], SidecarOp(cfg, s.mem, s.flights[id]);
    NextIsThreads(cfg, s.mem, f, NextOp(cfg, s.mem, f));
    SidecarLeads(cfg, s.mem, f, dest);
    AdvanceMoves(cfg, s, id, dest, op);
  }

  lemma BridgeMoves(cfg: Config, s: State, id: nat, dest: Option<int>)
    requires Travelling(cfg, s, id, dest) && ThreadOf(s.flights[id]).BridgeClient?
    ensures Moved(s, Apply(cfg, s, Advance(id)), id, dest)
  {
    var f, op := s.flights[id], BridgeOp(cfg, s.flights[id]);
    NextIsThreads(cfg, s.mem, f, NextOp(cfg, s.mem, f));
    BridgeLeads(cfg, s.mem, f, dest);
    AdvanceMoves(cfg, s, id, dest, op);
  }

  lemma DpaRxMoves(cfg: Config, s: State, id: nat, dest: Option<int>)
    requires Travelling(cfg, s, id, dest) && ThreadOf(s.flights[id]).DpaRx?
    ensures Moved(s, Apply(cfg, s, Advance(id)), id, dest)
  {
    var f, op := s.flights[id], DpaRxOp(cfg, s.mem, s.flights[id]);
    NextIsThreads(cfg, s.mem, f, NextOp(cfg, s.mem, f));
    DpaRxLeads(cfg, s.mem, f, dest);
    AdvanceMoves(cfg, s, id, dest, op);
  }

  lemma WorkerMoves(cfg: Config, s: State, id: nat, dest: Option<int>)
    requires Travelling(cfg, s, id, dest) && (ThreadOf(s.flights[id]).Poller? || ThreadOf(s.flights[id]).Reader?)
    ensures Moved(s, Apply(cfg, s, Advance(id)), id, dest)
  {
    var f, op := s.flights[id], WorkerOp(cfg, s.mem, s.flights[id]);
    NextIsThreads(cfg, s.mem, f, NextOp(cfg, s.mem, f));
    WorkerLeads(cfg, s.mem, f, dest);
    AdvanceMoves(cfg, s, id, dest, op);
  }

  /** A queued message, alone, is taken by a thread that has nothing else to do. */
  lemma TakeMoves(cfg: Config, s: State, id: nat, dest: Option<int>)
    requires Travelling(cfg, s, id, dest) && s.flights[id].stage.Queued?
    ensures Enabled(cfg, s, Take(s.flights[id].stage.q))
    ensures Moved(s, Apply(cfg, s, Take(s.flights[id].stage.q)), id, dest)
  {
    var q := s.flights[id].stage.q;
    QueuedShape(cfg, s.mem, s.flights[id]);
    FrontMoves(MeshSpec(cfg), s, id, dest);
    AppliedTake(cfg, s, q);
  }

  lemma AppliedTake(cfg: Config, s: State, q: QueueId)
    requires Queue(s, q) != [] && Queue(s, q)[0] in s.flights && Idle(s, Taker(q))
    ensures Enabled(cfg, s, Take(q)) && Apply(cfg, s, Take(q)) == TakeStep(s, q)
  {
  }

  lemma QueuedShape(cfg: Config, mem: Memory, f: Flight)
    requires FlightOk(cfg, mem, f) && f.stage.Queued?
    ensures f.desc.valid == 1 && (f.stage.q.Notify? ==> !f.msg.response)
  {
  }

  lemma FrontMoves(spec: Spec, s: State, id: nat, dest: Option<int>)
    requires Inv(spec, s) && Solo(s, id) && s.flights[id].stage.Queued? && OnCourse(s.flights[id], dest)
    requires s.flights[id].desc.valid == 1 && (s.flights[id].stage.q.Notify? ==> !s.flights[id].msg.response)
    ensures var q := s.flights[id].stage.q;
      && Queue(s, q) != [] && Queue(s, q)[0] == id && Idle(s, Taker(q)) && Moved(s, TakeStep(s, q), id, dest)
  {
    var q := s.flights[id].stage.q;
    SoloQueued(spec, s, id);
    TakenOnCourse(s.flights[id], q, dest);
    StageMoves(s, TakeStep(s, q), id, dest, TakenStage(q, s.flights[id].desc));
  }

  lemma TakenOnCourse(f: Flight, q: QueueId, dest: Option<int>)
    requires OnCourse(f, dest) && f.stage == Queued(q) && f.desc.valid == 1
    requires q.Notify? ==> !f.msg.response
    ensures Onward(f, f.(stage := TakenStage(q, f.desc)), dest) && Rank(TakenStage(q, f.desc)) < Rank(f.stage)
    ensures !f.stage.Polled?
  {
  }

  lemma ForwardMoves(s: State, id: nat, pod: int)
    requires Solo(s, id) && s.flights[id].stage.Routing?
    ensures Moved(s, DecideStep(s, id, Forward(pod)), id, Some(pod))
  {
    var f := s.flights[id];
    OthersKept(s.flights, id, f.(desc := RoutedDescriptor(f.desc, pod), stage := RouteForward));
  }

  lemma ToBridgeMoves(s: State, id: nat)
    requires Solo(s, id) && s.flights[id].stage.Routing?
    ensures Moved(s, DecideStep(s, id, ToBridge), id, None)
  {
    StageMoves(s, DecideStep(s, id, ToBridge), id, None, BridgeBody(s.flights[id].stage.header));
  }

  lemma AppliedDecision(cfg: Config, s: State, id: nat, d: Decision)
    requires id in s.flights && s.flights[id].stage.Routing? && Allowed(cfg, d, s.flights[id].desc.IsResponse())
    ensures Enabled(cfg, s, Decide(id, d)) && Apply(cfg, s, Decide(id, d)) == DecideStep(s, id, d)
  {
  }

  lemma RoutingShape(cfg: Config, mem: Memory, f: Flight)
    requires FlightOk(cfg, mem, f) && f.stage.Routing?
    ensures f.desc.IsResponse() == f.msg.response
  {
  }

  lemma DecideMoves(cfg: Config, s: State, id: nat, dest: Option<int>)
    requires Travelling(cfg, s, id, dest) && s.flights[id].stage.Routing?
    ensures Enabled(cfg, s, Decide(id, Destination(dest)))
    ensures Moved(s, Apply(cfg, s, Decide(id, Destination(dest))), id, dest)
  {
    RoutingShape(cfg, s.mem, s.flights[id]);
    AppliedDecision(cfg, s, id, Destination(dest));
    if dest.None? { ToBridgeMoves(s, id); } else { ForwardMoves(s, id, dest.value); }
  }

  lemma ReplyMoves(cfg: Config, s: State, id: nat, dest: Option<int>)
    requires Solo(s, id) && s.flights[id].stage.Replied? && OnCourse(s.flights[id], dest)
    ensures Enabled(cfg, s, TakeReply(id)) && Moved(s, Apply(cfg, s, TakeReply(id)), id, dest)
  {
    StageMoves(s, Go(s, id, ReadTaken), id, dest, ReadTaken);
  }

  lemma ThreadMoves(cfg: Config, s: State, id: nat, dest: Option<int>)
    requires Travelling(cfg, s, id, dest) && !ThreadOf(s.flights[id]).Nobody? && !s.flights[id].stage.Routing?
    ensures Moved(s, Apply(cfg, s, Advance(id)), id, dest)
  {
    var t := ThreadOf(s.flights[id]);
    if t.Writer? { WriterMoves(cfg, s, id, dest); }
    else if t.DpaTx? { DpaTxMoves(cfg, s, id, dest); }
    else if t.Sidecar? { SidecarMoves(cfg, s, id, dest); }
    else if t.BridgeClient? { BridgeMoves(cfg, s, id, dest); }
    else if t.DpaRx? { DpaRxMoves(cfg, s, id, dest); }
    else { WorkerMoves(cfg, s, id, dest); }
  }

  /** A message alone always has a step that moves it. */
  lemma CourseMoves(cfg: Config, s: State, id: nat, dest: Option<int>)
    requires Travelling(cfg, s, id, dest)
    ensures Enabled(cfg, s, CourseOf(s.flights[id], id, dest))
    ensures Moved(s, Apply(cfg, s, CourseOf(s.flights[id], id, dest)), id, dest)
  {
    CourseIs(s.flights[id], id, dest);
    if s.flights[id].stage.Queued? { TakeMoves(cfg, s, id, dest); }
    else if s.flights[id].stage.Routing? { DecideMoves(cfg, s, id, dest); }
    else if s.flights[id].stage.Replied? { ReplyMoves(cfg, s, id, dest); }
    else { ThreadMoves(cfg, s, id, dest); }
  }

  lemma CourseIs(f: Flight, id: nat, dest: Option<int>)
    requires OnCourse(f, dest)
    ensures CourseOf(f, id, dest) ==
      if f.stage.Queued? then Take(f.stage.q)
      else if f.stage.Routing? then Decide(id, Destination(dest))
      else if f.stage.Replied? then TakeReply(id)
      else Advance(id)
    ensures ThreadOf(f).Nobody? ==> f.stage.Queued? || f.stage.Replied?
  {
  }

  // ----------------------------------------------------------------- the whole way

  /** The end of the way: the message is where it was sent, or orphaned there. */
  ghost predicate Ended(s: State, s': State, id: nat, dest: Option<int>)
    requires id in s.flights
  {
    var f := s.flights[id];
    && OthersStay(s, s', id) && s'.next == s.next && (!f.msg.response ==> s'.waiting == s.waiting)
    && if Unwanted(s, f, dest) && !PastThePipe(f.stage) then
         s'.waiting == s.waiting && OrphanedAt(s', id, f.msg, dest)
       else id !in s'.flights && id in s'.outcomes && Arrival(s'.outcomes[id], f.msg, dest)
  }

  predicate OrphanedAt(s: State, id: nat, m: Msg, dest: Option<int>) {
    && id in s.flights && s.flights[id].stage.Orphaned? && s.flights[id].msg == m
    && dest == Some(s.flights[id].desc.dstPodId)
  }

  /** What holds of a message alone and of the run so far. */
  ghost predicate Underway(cfg: Config, policy: Policy, s: State, id: nat, dest: Option<int>) {
    && ValidConfig(cfg) && Attained(cfg, policy, s) && Solo(s, id) && Open(cfg, s, dest)
    && Sent(cfg, policy, id, s.flights[id].msg, dest) && OnCourse(s.flights[id], dest)
  }

  lemma TravelHolds(cfg: Config, policy: Policy, s: State, id: nat, dest: Option<int>)
    requires Underway(cfg, policy, s, id, dest)
    ensures Travelling(cfg, s, id, dest) && Follows(policy, s, CourseOf(s.flights[id], id, dest))
  {
    AttainedIsReachable(cfg, policy, s);
    ReachableInv(cfg, s);
    FlightHolds(cfg, s, id);
    if s.flights[id].stage.Routing? {
      RoutedOnTheSendersHeader(cfg, s, id);
      RoutedIsNoBridge(cfg, s.mem, s.flights[id]);
    }
  }

  lemma RoutedIsNoBridge(cfg: Config, mem: Memory, f: Flight)
    requires FlightOk(cfg, mem, f) && f.stage.Routing?
    ensures !f.msg.bridge
  {
  }

  lemma OtherStays(s: State, s': State, id: nat, j: nat)
    requires OthersStay(s, s', id) && j != id
    ensures j in s'.flights <==> j in s.flights
    ensures j in s.flights ==> s'.flights[j] == s.flights[j]
  {
    assert j in s'.flights <==> j in s'.flights - {id};
    assert j in s.flights <==> j in s.flights - {id};
    if j in s.flights { assert s'.flights[j] == (s'.flights - {id})[j]; }
  }

  lemma StaysSolo(s: State, s': State, id: nat)
    requires OthersStay(s, s', id) && Solo(s, id) && id in s'.flights
    ensures Solo(s', id)
  {
    forall j | j in s'.flights && j != id ensures s'.flights[j].stage.Orphaned? { OtherStays(s, s', id, j); }
  }

  /** What orphans hold, they held before the message moved. */
  lemma HeldBefore(cfg: Config, s: State, s': State, id: nat, sl: Slot)
    requires Inv(MeshSpec(cfg), s) && Inv(MeshSpec(cfg), s') && OthersStay(s, s', id) && OrphanHolds(s', sl)
    requires s'.owner[sl] != id
    ensures OrphanHolds(s, sl)
  {
    var j := s'.owner[sl];
    OtherStays(s, s', id, j);
    OwnerOwns(MeshSpec(cfg), s', sl);
    SoleOwner(MeshSpec(cfg), s, j, sl);
  }

  lemma StaysOpen(cfg: Config, s: State, s': State, id: nat, dest: Option<int>)
    requires Inv(MeshSpec(cfg), s) && Inv(MeshSpec(cfg), s') && OthersStay(s, s', id) && Open(cfg, s, dest)
    requires id in s'.flights && !s'.flights[id].stage.Orphaned?
    ensures Open(cfg, s', dest)
  {
    if dest.Some? {
      var svc := Service(cfg, dest.value);
      var i :| 0 <= i < cfg.numSlots && !OrphanHolds(s, Slot(HostRxBody(svc), i));
      if OrphanHolds(s', Slot(HostRxBody(svc), i)) { HeldBefore(cfg, s, s', id, Slot(HostRxBody(svc), i)); }
    }
  }

  /** What has come to its end stays as it is. */
  ghost predicate OutcomesStay(s: State, s': State) {
    forall id | id in s.outcomes :: id in s'.outcomes && s'.outcomes[id] == s.outcomes[id]
  }

  lemma StepKeepsOutcomes(cfg: Config, s: State, step: Step)
    requires ValidConfig(cfg) && Inv(MeshSpec(cfg), s) && Enabled(cfg, s, step)
    ensures OutcomesStay(s, Apply(cfg, s, step))
  {
    forall id | id in s.outcomes
      ensures id in Apply(cfg, s, step).outcomes && Apply(cfg, s, step).outcomes[id] == s.outcomes[id]
    {
      OutcomeStays(MeshSpec(cfg), s, step, id);
    }
  }

  /** One step on the way. */
  lemma StepOnWay(cfg: Config, policy: Policy, s: State, id: nat, dest: Option<int>) returns (s': State)
    requires Underway(cfg, policy, s, id, dest)
    ensures var step := CourseOf(s.flights[id], id, dest);
      Enabled(cfg, s, step) && Follows(policy, s, step) && s' == Apply(cfg, s, step)
    ensures Attained(cfg, policy, s') && Moved(s, s', id, dest) && OutcomesStay(s, s')
    ensures id in s'.flights && !s'.flights[id].stage.Orphaned? ==> Underway(cfg, policy, s', id, dest)
  {
    var step := CourseOf(s.flights[id], id, dest);
    TravelHolds(cfg, policy, s, id, dest);
    CourseMoves(cfg, s, id, dest);
    s' := Apply(cfg, s, step);
    AttainedStep(cfg, policy, s, step);
    StepKeepsOutcomes(cfg, s, step);
    if id in s'.flights && !s'.flights[id].stage.Orphaned? {
      StepKeeps(cfg, s, step);
      StaysSolo(s, s', id);
      StaysOpen(cfg, s, s', id, dest);
    }
  }

  lemma {:induction false} Travels(cfg: Config, policy: Policy, s: State, id: nat, dest: Option<int>)
    returns (s': State)
    requires Underway(cfg, policy, s, id, dest)
    ensures Attained(cfg, policy, s') && Ended(s, s', id, dest) && OutcomesStay(s, s')
    decreases Rank(s.flights[id].stage)
  {
    var s1 := StepOnWay(cfg, policy, s, id, dest);
    if id !in s1.flights || s1.flights[id].stage.Orphaned? {
      s' := s1;
    } else {
      s' := Travels(cfg, policy, s1, id, dest);
      EndsAfter(s, s1, s', id, dest);
    }
  }

  lemma EndsAfter(s: State, s1: State, s': State, id: nat, dest: Option<int>)
    requires id in s.flights && id in s1.flights && Moved(s, s1, id, dest) && Ended(s1, s', id, dest)
    requires !s1.flights[id].stage.Orphaned?
    ensures Ended(s, s', id, dest)
  {
  }

  /** What the pipes table holds once a message has been written. */
  ghost function Registered(s: State, m: Msg): set<(int, int)> {
    if m.bridge || m.response then s.waiting else s.waiting + {(m.pod, m.reqId % MAX_PENDING)}
  }

  lemma NewMessage(spec: Spec, s: State)
    requires Inv(spec, s)
    ensures s.next !in s.flights && s.next !in s.outcomes
  {
  }

  /** The first step of a message. */
  function Departure(m: Msg): Step {
    if m.bridge then BeginInject(m) else BeginWrite(m)
  }

  function Started(cfg: Config, s: State, m: Msg): State {
    if m.bridge then BeginInjectStep(cfg, s, m) else BeginWriteStep(cfg, s, m)
  }

  lemma AppliedDeparture(cfg: Config, policy: Policy, s: State, m: Msg)
    requires ValidMsg(cfg, m) && (!m.bridge ==> Idle(s, Writer(m.pod)))
    ensures Enabled(cfg, s, Departure(m)) && Follows(policy, s, Departure(m))
    ensures Apply(cfg, s, Departure(m)) == Started(cfg, s, m)
  {
  }

  lemma FirstStep(cfg: Config, s: State, m: Msg)
    requires FirstFree(cfg, s.owner, if m.bridge then DpuRxBody else HostTxHeader(Service(cfg, m.pod)), 0) >= 0
    requires m.bridge ==> !m.response
    ensures var s' := Started(cfg, s, m);
      && s'.next == s.next + 1 && s'.waiting == Registered(s, m)
      && s.next in s'.flights && s'.flights == s.flights[s.next := s'.flights[s.next]]
      && s'.flights[s.next].msg == m && (s'.flights[s.next].stage.WriteHeader? || s'.flights[s.next].stage.Inject?)
  {
  }

  lemma OrphansAreIdle(s: State, pod: int)
    requires OnlyOrphans(s)
    ensures Idle(s, Writer(pod))
  {
  }

  lemma AttainedStart(cfg: Config, policy: Policy, s: State, m: Msg)
    requires ValidConfig(cfg) && Attained(cfg, policy, s) && OnlyOrphans(s) && ValidMsg(cfg, m)
    requires Inv(MeshSpec(cfg), s)
    ensures Attained(cfg, policy, Started(cfg, s, m)) && Inv(MeshSpec(cfg), Started(cfg, s, m))
    ensures OutcomesStay(s, Started(cfg, s, m))
  {
    OrphansAreIdle(s, m.pod);
    AppliedDeparture(cfg, policy, s, m);
    AttainedStep(cfg, policy, s, Departure(m));
    StepKeeps(cfg, s, Departure(m));
    StepKeepsOutcomes(cfg, s, Departure(m));
  }

  lemma Departs(cfg: Config, policy: Policy, s: State, m: Msg, dest: Option<int>) returns (s': State)
    requires ValidConfig(cfg) && Attained(cfg, policy, s) && OnlyOrphans(s) && Sent(cfg, policy, s.next, m, dest)
    requires Open(cfg, s, dest)
    ensures Underway(cfg, policy, s', s.next, dest) && s'.next == s.next + 1 && s'.waiting == Registered(s, m)
    ensures s.next !in s.flights && s'.flights - {s.next} == s.flights && s'.flights[s.next].msg == m
    ensures !PastThePipe(s'.flights[s.next].stage) && OutcomesStay(s, s') && s' == Started(cfg, s, m)
  {
    SafeAttained(cfg, policy, s);
    NewMessage(MeshSpec(cfg), s);
    RoomToStart(cfg, s, m);
    s' := Started(cfg, s, m);
    FirstStep(cfg, s, m);
    AttainedStart(cfg, policy, s, m);
    DepartsOpen(cfg, s, s', dest);
    SoloStart(s, s', m, dest);
  }

  lemma SafeAttained(cfg: Config, policy: Policy, s: State)
    requires ValidConfig(cfg) && Attained(cfg, policy, s)
    ensures Inv(MeshSpec(cfg), s)
  {
    AttainedIsReachable(cfg, policy, s);
    ReachableInv(cfg, s);
  }

  lemma RoomToStart(cfg: Config, s: State, m: Msg)
    requires ValidConfig(cfg) && Inv(MeshSpec(cfg), s) && OnlyOrphans(s) && s.next !in s.flights
    ensures FirstFree(cfg, s.owner, if m.bridge then DpuRxBody else HostTxHeader(Service(cfg, m.pod)), 0) >= 0
  {
    OthersLeaveRoom(cfg, s, s.next, if m.bridge then DpuRxBody else HostTxHeader(Service(cfg, m.pod)));
  }

  lemma SoloStart(s: State, s': State, m: Msg, dest: Option<int>)
    requires OnlyOrphans(s) && s.next in s'.flights && s'.flights == s.flights[s.next := s'.flights[s.next]]
    requires s'.flights[s.next].stage.WriteHeader? || s'.flights[s.next].stage.Inject?
    ensures Solo(s', s.next) && OnCourse(s'.flights[s.next], dest) && !PastThePipe(s'.flights[s.next].stage)
  {
  }

  lemma DepartsOpen(cfg: Config, s: State, s': State, dest: Option<int>)
    requires Inv(MeshSpec(cfg), s) && Inv(MeshSpec(cfg), s') && Open(cfg, s, dest)
    requires s.next !in s.flights && s.next in s'.flights && s'.flights == s.flights[s.next := s'.flights[s.next]]
    requires !s'.flights[s.next].stage.Orphaned?
    ensures Open(cfg, s', dest) && s'.flights - {s.next} == s.flights
  {
    assert s'.flights - {s.next} == s.flights == s.flights - {s.next};
    StaysOpen(cfg, s, s', s.next, dest);
  }

  /** For every routing policy and every state attained under it in which only orphans are in flight: every message
      arrives where the policy sends it, unless orphans hold the whole RX body pool there. It is read at its pod, or
      answered to the bridge; a response for which no pipe waits is orphaned at its pod. */
  lemma EveryMessageArrives(cfg: Config, policy: Policy, s: State, m: Msg, dest: Option<int>) returns (s': State)
    requires ValidConfig(cfg) && Attained(cfg, policy, s) && OnlyOrphans(s) && Open(cfg, s, dest)
    requires Sent(cfg, policy, s.next, m, dest)
    ensures Attained(cfg, policy, s') && s'.next == s.next + 1 && s'.flights - {s.next} == s.flights
    ensures OutcomesStay(s, s') && (!m.response ==> s'.waiting == Registered(s, m))
    ensures if m.response && dest.Some? && (dest.value, m.reqId % MAX_PENDING) !in s.waiting then
              s'.waiting == s.waiting && OrphanedAt(s', s.next, m, dest)
            else s.next !in s'.flights && s.next in s'.outcomes && Arrival(s'.outcomes[s.next], m, dest)
  {
    var s1 := Departs(cfg, policy, s, m, dest);
    s' := Travels(cfg, policy, s1, s.next, dest);
  }

  // ----------------------------------------------------------------- where a message goes

  /** Past the sidecar. */
  predicate Routed(st: Stage) {
    match st
    case RouteForward => true
    case Queued(q) => q.SidecarRxSq? || q.RxSq? || q.Notify?
    case RxTaken => true
    case RxRetry => true
    case BodyCopy(_, _) => true
    case HeaderStart(_) => true
    case HeaderCopy(_, _, _) => true
    case RxForward(_, _) => true
    case DropBody(onDpa) => onDpa
    case DropHeader(onDpa) => onDpa
    case Polled => true
    case Replied => true
    case Orphaned => true
    case ReadTaken => true
    case ReadHeader(_) => true
    case Handling(_, _) => true
    case ReadFreeBody(_, _) => true
    case _ => false
  }

  predicate RoutedTo(f: Flight, pod: int) {
    Routed(f.stage) && f.desc.dstPodId == pod
  }

  /** Bound for a pod: on its way there, read there, or discarded. */
  ghost predicate BoundFor(s: State, id: nat, pod: int) {
    if id in s.flights then RoutedTo(s.flights[id], pod)
    else id in s.outcomes && EndsAt(s.outcomes[id], pod)
  }

  predicate EndsAt(o: Outcome, pod: int) {
    o.Discarded? || (o.Delivered? && o.pod == pod)
  }

  /** An operation keeps what is said of the message, until an end of which something is said. */
  ghost predicate Preserves(op: Op, f: Flight, there: Flight -> bool, ends: Outcome -> bool) {
    match op
    case Continue(st) => there(f.(stage := st))
    case Alloc(_, granted, refused) =>
      (forall i :: there(f.(stage := granted(i)))) && (there(f.(stage := refused)) || refused == Lost)
    case Free(_, st) => there(f.(stage := st))
    case Write(_, _, st) => there(f.(stage := st))
    case Enqueue(q, x) => there(f.(desc := x, stage := Queued(q)))
    case Answer(_, _) => there(f.(stage := Replied)) && there(f.(stage := Orphaned))
    case Leave(_, o) => ends(o)
  }

  lemma PerformPreserves(cfg: Config, s: State, id: nat, op: Op, there: Flight -> bool, ends: Outcome -> bool)
    requires id in s.flights && Preserves(op, s.flights[id], there, ends)
    ensures var s' := Perform(cfg, s, id, op);
      if id in s'.flights then there(s'.flights[id]) || s'.flights[id].stage == Lost
      else id in s'.outcomes && ends(s'.outcomes[id])
  {
  }

  /** No operation on a routed message changes where it goes. */
  ghost predicate KeepsRoute(op: Op, f: Flight, pod: int) {
    Preserves(op, f, g => RoutedTo(g, pod), o => EndsAt(o, pod))
  }

  lemma SidecarKeepsRoute(cfg: Config, mem: Memory, f: Flight, pod: int)
    requires RoutedTo(f, pod) && (f.stage.RouteForward? || f.stage.DropBody? || f.stage.DropHeader?)
    ensures KeepsRoute(SidecarOp(cfg, mem, f), f, pod)
  {
  }

  lemma DpaRxKeepsRoute(cfg: Config, mem: Memory, f: Flight, pod: int)
    requires RoutedTo(f, pod) && ThreadOf(f).DpaRx? && !f.stage.DropBody? && !f.stage.DropHeader?
    ensures KeepsRoute(DpaRxOp(cfg, mem, f), f, pod)
  {
  }

  lemma WorkerKeepsRoute(cfg: Config, mem: Memory, f: Flight, pod: int)
    requires RoutedTo(f, pod) && (ThreadOf(f).Poller? || ThreadOf(f).Reader?)
    ensures KeepsRoute(WorkerOp(cfg, mem, f), f, pod)
  {
  }

  lemma NextKeepsRoute(cfg: Config, mem: Memory, f: Flight, pod: int, op: Op)
    requires RoutedTo(f, pod) && !ThreadOf(f).Nobody? && op == NextOp(cfg, mem, f)
    ensures KeepsRoute(op, f, pod)
  {
    if f.stage.RouteForward? || f.stage.DropBody? || f.stage.DropHeader? { SidecarKeepsRoute(cfg, mem, f, pod); }
    else if ThreadOf(f).DpaRx? { DpaRxKeepsRoute(cfg, mem, f, pod); }
    else { WorkerKeepsRoute(cfg, mem, f, pod); }
  }

  lemma AdvanceKeepsRoute(cfg: Config, s: State, id: nat, pod: int)
    requires Enabled(cfg, s, Advance(id)) && RoutedTo(s.flights[id], pod)
    requires id in Apply(cfg, s, Advance(id)).flights ==> Apply(cfg, s, Advance(id)).flights[id].stage != Lost
    ensures BoundFor(Apply(cfg, s, Advance(id)), id, pod)
  {
    var op := NextOp(cfg, s.mem, s.flights[id]);
    NextKeepsRoute(cfg, s.mem, s.flights[id], pod, op);
    PerformPreserves(cfg, s, id, op, g => RoutedTo(g, pod), o => EndsAt(o, pod));
  }

  lemma TakeKeepsRoute(spec: Spec, s: State, q: QueueId, id: nat, pod: int)
    requires Inv(spec, s) && Queue(s, q) != [] && Queue(s, q)[0] in s.flights && id in s.flights
    requires RoutedTo(s.flights[id], pod)
    requires TakeStep(s, q).flights[id].stage != Lost
    ensures BoundFor(TakeStep(s, q), id, pod)
  {
    FrontInFlight(spec, s, q);
  }

  /** Outcomes are never changed. */
  lemma OutcomeStays(spec: Spec, s: State, step: Step, id: nat)
    requires Inv(spec, s) && Enabled(spec.cfg, s, step) && id in s.outcomes
    ensures var s' := Apply(spec.cfg, s,
      step); id !in s'.flights && id in s'.outcomes && s'.outcomes[id] == s.outcomes[id]
  {
    if step.Advance? {
      OutcomeUntouched(spec.cfg, s, step.id, NextOp(spec.cfg, s.mem, s.flights[step.id]), id);
    } else if step.Take? {
      FrontInFlight(spec, s, step.q);
    } else if step.BeginWrite? || step.BeginInject? {
      assert id < s.next;
    }
  }

  lemma OutcomeUntouched(cfg: Config, s: State, j: nat, op: Op, id: nat)
    requires id !in s.flights && j in s.flights && j != id && id in s.outcomes
    ensures var s' := Perform(cfg, s, j,
      op); id !in s'.flights && id in s'.outcomes && s'.outcomes[id] == s.outcomes[id]
  {
  }

  lemma NotLostAfter(cfg: Config, s: State, step: Step, id: nat)
    requires ValidConfig(cfg) && Inv(MeshSpec(cfg), s) && Enabled(cfg, s, step)
    ensures id in Apply(cfg, s, step).flights ==> Apply(cfg, s, step).flights[id].stage != Lost
  {
    var s' := Apply(cfg, s, step);
    StepKeeps(cfg, s, step);
    if id in s'.flights { ShapeHolds(cfg, s', id); }
  }

  lemma AboutKeepsRoute(cfg: Config, s: State, step: Step, id: nat, pod: int)
    requires Enabled(cfg, s, step) && About(step, id) && RoutedTo(s.flights[id], pod)
    requires id in Apply(cfg, s, step).flights ==> Apply(cfg, s, step).flights[id].stage != Lost
    ensures BoundFor(Apply(cfg, s, step), id, pod)
  {
    if step.Advance? { AdvanceKeepsRoute(cfg, s, id, pod); }
  }

  lemma StepKeepsRoute(spec: Spec, s: State, step: Step, id: nat, pod: int)
    requires Inv(spec, s) && Enabled(spec.cfg, s, step) && BoundFor(s, id, pod)
    requires id in Apply(spec.cfg, s, step).flights ==> Apply(spec.cfg, s, step).flights[id].stage != Lost
    ensures BoundFor(Apply(spec.cfg, s, step), id, pod)
  {
    if id !in s.flights { OutcomeStays(spec, s, step, id); }
    else if About(step, id) { AboutKeepsRoute(spec.cfg, s, step, id, pod); }
    else if step.Take? { TakeKeepsRoute(spec, s, step.q, id, pod); }
    else { UnrelatedKeepsRoute(spec, s, step, id); }
  }

  /** A routed message stays bound for its pod, whatever step comes next. */
  lemma BoundStays(cfg: Config, s: State, step: Step, id: nat, pod: int)
    requires ValidConfig(cfg) && Inv(MeshSpec(cfg), s) && Enabled(cfg, s, step) && BoundFor(s, id, pod)
    ensures BoundFor(Apply(cfg, s, step), id, pod)
  {
    NotLostAfter(cfg, s, step, id);
    StepKeepsRoute(MeshSpec(cfg), s, step, id, pod);
  }

  lemma UnrelatedKeepsRoute(spec: Spec, s: State, step: Step, id: nat)
    requires Inv(spec, s) && Enabled(spec.cfg, s, step) && id in s.flights && !About(step, id) && !step.Take?
    ensures id in Apply(spec.cfg, s, step).flights && Apply(spec.cfg, s, step).flights[id] == s.flights[id]
  {
    if step.Advance? {
      OthersUntouched(spec.cfg, s, step.id, NextOp(spec.cfg, s.mem, s.flights[step.id]), id);
    } else if step.BeginWrite? || step.BeginInject? {
      assert id < s.next;
    }
  }

  lemma DecisionBinds(cfg: Config, s: State, id: nat, pod: int)
    requires Enabled(cfg, s, Decide(id, Forward(pod)))
    ensures BoundFor(Apply(cfg, s, Decide(id, Forward(pod))), id, pod)
  {
  }

  /** What every step of a run keeps holds on. */
  lemma {:induction false} Persists(states: seq<State>, bound: State -> bool, i: nat, j: nat)
    requires i <= j < |states| && bound(states[i])
    requires forall k | 0 <= k < |states| - 1 && bound(states[k]) :: bound(states[k + 1])
    ensures bound(states[j])
    decreases j
  {
    if i < j { Persists(states, bound, i, j - 1); }
  }

  lemma RunStepBound(cfg: Config, states: seq<State>, steps: seq<Step>, id: nat, pod: int, k: nat)
    requires ValidConfig(cfg) && Run(cfg, states, steps) && states[0] == Init && k < |states| - 1
    requires BoundFor(states[k], id, pod)
    ensures BoundFor(states[k + 1], id, pod)
  {
    RunKeeps(cfg, states, steps, k);
    BoundStays(cfg, states[k], steps[k], id, pod);
  }

  lemma StaysBound(cfg: Config, states: seq<State>, steps: seq<Step>, id: nat, pod: int, i: nat, j: nat)
    requires ValidConfig(cfg) && Run(cfg, states, steps) && states[0] == Init && i <= j < |states|
    requires BoundFor(states[i], id, pod)
    ensures BoundFor(states[j], id, pod)
  {
    var bound := s => BoundFor(s, id, pod);
    forall k | 0 <= k < |states| - 1 && bound(states[k]) ensures bound(states[k + 1]) {
      RunStepBound(cfg, states, steps, id, pod, k);
    }
    Persists(states, bound, i, j);
  }

  /** Over every run: a message that the sidecar forwarded to a pod is read there or nowhere. */
  lemma DeliveredWhereSent(cfg: Config, states: seq<State>, steps: seq<Step>, id: nat, pod: int, i: nat, j: nat)
    requires ValidConfig(cfg) && Run(cfg, states, steps) && states[0] == Init && i < j < |states|
    requires steps[i] == Decide(id, Forward(pod))
    requires id in states[j].outcomes && states[j].outcomes[id].Delivered?
    ensures states[j].outcomes[id].pod == pod
  {
    DecisionBinds(cfg, states[i], id, pod);
    StaysBound(cfg, states, steps, id, pod, i + 1, j);
    RunKeeps(cfg, states, steps, j);
  }
}
