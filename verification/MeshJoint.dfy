/** The pipeline drives the correlation machine: for every run of the pipeline in which workers number their requests
    and answer what they have read, and answers are routed to where they are addressed, the table runs along. */
module MeshJoint {
  import opened Options
  import opened Descriptor
  import opened Mesh
  import opened Ledger
  import opened MeshInvariant
  import opened MeshSafety
  import opened MeshTheorems
  import opened MeshProgress
  import opened MeshRuns
  import opened MeshCorrelation
  import C = Correlation

  // ----------------------------------------------------------------- the two machines

  /** `requests` and `responses` say which request, and which response, of the table a message in flight is. */
  datatype Joint = Joint(
    ms: State, cs: C.State, requests: map<nat, C.Origin>, responses: map<nat, C.Response>)

  const Start: Joint := Joint(Init, C.Init, map[], map[])

  /** A request that has not been read. */
  predicate Unread(f: Flight) {
    !f.msg.response && !f.stage.Handling? && !f.stage.ReadFreeBody?
  }

  /** A response that has reached neither its pipe nor the bridge. */
  predicate Undelivered(f: Flight) {
    f.msg.response && !PastThePipe(f.stage) && !f.stage.Orphaned?
  }

  predicate Bridging(st: Stage) {
    st.BridgeBody? || st.BridgeFreeBody? || st.BridgeFreeHeader?
  }

  predicate ComesFrom(r: C.Response, pod: int) {
    r.meta.source.Some? && r.meta.source.value == pod
  }

  predicate RequestOk(cs: C.State, f: Flight, o: C.Origin) {
    o in cs.requests && C.MetaOf(o).reqId == f.msg.reqId
  }

  /** Once routed, a response is on its way to where it is addressed. */
  predicate ResponseOk(cs: C.State, f: Flight, r: C.Response) {
    && r in cs.responses && r.meta.reqId == f.msg.reqId
    && (Routed(f.stage) ==> ComesFrom(r, f.desc.dstPodId))
    && (Bridging(f.stage) ==> r.meta.source.None?)
  }

  ghost predicate RequestsOk(j: Joint) {
    && (forall id | id in j.ms.flights && Unread(j.ms.flights[id]) ::
          id in j.requests && RequestOk(j.cs, j.ms.flights[id], j.requests[id]))
    && (forall i, k | i in j.ms.flights && k in j.ms.flights && i != k && i in j.requests && k in j.requests
          && Unread(j.ms.flights[i]) && Unread(j.ms.flights[k]) :: j.requests[i] != j.requests[k])
  }

  ghost predicate ResponsesOk(j: Joint) {
    && (forall id | id in j.ms.flights && Undelivered(j.ms.flights[id]) ::
          id in j.responses && ResponseOk(j.cs, j.ms.flights[id], j.responses[id]))
    && (forall i, k | i in j.ms.flights && k in j.ms.flights && i != k && i in j.responses && k in j.responses
          && Undelivered(j.ms.flights[i]) && Undelivered(j.ms.flights[k]) :: j.responses[i] != j.responses[k])
  }

  ghost predicate Coupled(cfg: Config, j: Joint) {
    && ValidConfig(cfg) && Inv(MeshSpec(cfg), j.ms) && C.AllIssued(j.cs) && C.Once(j.cs) && Agree(j.ms, j.cs)
    && RequestsOk(j) && ResponsesOk(j)
  }

  // ----------------------------------------------------------------- what workers and the sidecar must do

  predicate Addressed(r: C.Response, d: Decision) {
    match d
    case Forward(pod) => ComesFrom(r, pod)
    case ToBridge => r.meta.source.None?
    case NoWorker => true
  }

  /** A worker numbers its requests in order. It answers a request `o` that it holds, under the id its table of inbound
      requests has for it. */
  predicate Writes(j: Joint, m: Msg, o: C.Origin) {
    m.pod >= 0 && m.reqId >= 0 &&
    if !m.response then m.reqId == C.ReqId(C.Next(j.cs, m.pod))
    else
      && (m.pod as nat, o) in j.cs.held && (m.pod as nat, C.IndexOf(o)) in j.cs.inbound
      && m.reqId == j.cs.inbound[(m.pod as nat, C.IndexOf(o))].reqId
  }

  /** ... and the sidecar sends a response where it is addressed, if anywhere. */
  predicate Behaves(j: Joint, step: Step, o: C.Origin) {
    match step
    case BeginWrite(m) => Writes(j, m, o)
    case Decide(id, d) =>
      id in j.ms.flights && j.ms.flights[id].msg.response && id in j.responses ==> Addressed(j.responses[id], d)
    case _ => true
  }

  predicate Granted(cfg: Config, s: State, m: Msg) {
    FirstFree(cfg, s.owner, if m.bridge then DpuRxBody else HostTxHeader(Service(cfg, m.pod)), 0) >= 0
  }

  /** The event that goes with an operation on a message. */
  function EventOfOp(j: Joint, id: nat, op: Op): Option<C.Event>
    requires id in j.ms.flights
  {
    var f := j.ms.flights[id];
    if Undelivered(f) && id in j.responses && (op.Answer? || (op.Leave? && op.outcome.Answered?)) then
      Some(C.Deliver(j.responses[id]))
    else if Undelivered(f) && id in j.responses && op.Leave? then Some(C.LoseResponse(j.responses[id]))
    else if Unread(f) && id in j.requests && op.Leave? then Some(C.LoseRequest(j.requests[id]))
    else if Unread(f) && id in j.requests && f.stage.ReadHeader? && f.desc.dstPodId >= 0 then
      Some(C.Read(f.desc.dstPodId, j.requests[id]))
    else None
  }

  function EventOf(cfg: Config, j: Joint, step: Step, o: C.Origin): Option<C.Event>
  {
    match step
    case BeginWrite(m) =>
      if m.pod < 0 then None
      else if m.response then Some(C.Answer(m.pod, o, Granted(cfg, j.ms, m)))
      else Some(C.Issue(m.pod, Granted(cfg, j.ms, m)))
    case BeginInject(m) => if Granted(cfg, j.ms, m) then Some(C.Inject) else None
    case Advance(id) =>
      if id in j.ms.flights then EventOfOp(j, id, NextOp(cfg, j.ms.mem, j.ms.flights[id])) else None
    case _ => None
  }

  /** The message that a step brings, if it brings one. */
  function NewRequests(j: Joint, step: Step): map<nat, C.Origin> {
    match step
    case BeginWrite(m) =>
      if m.response || m.pod < 0 then j.requests
      else j.requests[j.ms.next := C.Worker(m.pod, C.Next(j.cs, m.pod))]
    case BeginInject(m) => j.requests[j.ms.next := C.Bridge(j.cs.bridged)]
    case _ => j.requests
  }

  function NewResponses(j: Joint, step: Step, o: C.Origin): map<nat, C.Response> {
    match step
    case BeginWrite(m) =>
      if m.response && m.pod >= 0 && (m.pod as nat, C.IndexOf(o)) in j.cs.inbound then
        j.responses[j.ms.next := C.Response(j.cs.inbound[(m.pod as nat, C.IndexOf(o))], o)]
      else j.responses
    case _ => j.responses
  }

  ghost predicate CanDrive(cfg: Config, j: Joint, step: Step, o: C.Origin) {
    Enabled(cfg, j.ms, step) && Behaves(j, step, o)
  }

  /** Both machines go on; an event that is not enabled would be left out. */
  ghost function Drive(cfg: Config, j: Joint, step: Step, o: C.Origin): Joint
    requires Enabled(cfg, j.ms, step)
  {
    var e := EventOf(cfg, j, step, o);
    Joint(Apply(cfg, j.ms, step), if e.Some? && !C.Enabled(j.cs, e.value) then j.cs else Follow(j.cs, e),
      NewRequests(j, step), NewResponses(j, step, o))
  }

  // ----------------------------------------------------------------- what a step does to a message

  /** The message is no further back than it was: still unread only if it was, and so on. */
  predicate Descends(f: Flight, g: Flight) {
    && g.msg == f.msg && (Unread(g) ==> Unread(f))
    && (Undelivered(g) ==>
          && Undelivered(f)
          && (Routed(g.stage) ==> Routed(f.stage) && g.desc.dstPodId == f.desc.dstPodId)
          && (Bridging(g.stage) ==> Bridging(f.stage)))
  }

  ghost predicate OpDescends(op: Op, f: Flight) {
    Preserves(op, f, g => Descends(f, g), o => true)
  }

  lemma WriterDescends(cfg: Config, f: Flight)
    requires ThreadOf(f).Writer?
    ensures OpDescends(WriterOp(cfg, f), f)
  {
  }

  lemma DpaTxDescends(cfg: Config, mem: Memory, f: Flight)
    requires ThreadOf(f).DpaTx?
    ensures OpDescends(DpaTxOp(cfg, mem, f), f)
  {
  }

  lemma SidecarDescends(cfg: Config, mem: Memory, f: Flight)
    requires (ThreadOf(f).Sidecar? && !f.stage.Routing?) || f.stage.DropBody? || f.stage.DropHeader?
    ensures OpDescends(SidecarOp(cfg, mem, f), f)
  {
  }

  lemma BridgeDescends(cfg: Config, f: Flight)
    requires ThreadOf(f).BridgeClient? && !f.msg.response
    ensures OpDescends(BridgeOp(cfg, f), f)
  {
  }

  lemma DpaRxDescends(cfg: Config, mem: Memory, f: Flight)
    requires ThreadOf(f).DpaRx? && !f.stage.DropBody? && !f.stage.DropHeader?
    ensures OpDescends(DpaRxOp(cfg, mem, f), f)
  {
  }

  lemma WorkerDescends(cfg: Config, mem: Memory, f: Flight)
    requires ThreadOf(f).Poller? || ThreadOf(f).Reader?
    ensures OpDescends(WorkerOp(cfg, mem, f), f)
  {
  }

  lemma NextDescends(cfg: Config, mem: Memory, f: Flight, op: Op)
    requires FlightOk(cfg, mem, f) && op == NextOp(cfg, mem, f) && !ThreadOf(f).Nobody? && !f.stage.Routing?
    ensures OpDescends(op, f)
  {
    var t := ThreadOf(f);
    if f.stage.DropBody? || f.stage.DropHeader? { SidecarDescends(cfg, mem, f); }
    else if t.Writer? { WriterDescends(cfg, f); }
    else if t.DpaTx? { DpaTxDescends(cfg, mem, f); }
    else if t.Sidecar? { SidecarDescends(cfg, mem, f); }
    else if t.BridgeClient? { InjectedIsRequest(cfg, mem, f); BridgeDescends(cfg, f); }
    else if t.DpaRx? { DpaRxDescends(cfg, mem, f); }
    else { WorkerDescends(cfg, mem, f); }
  }

  lemma InjectedIsRequest(cfg: Config, mem: Memory, f: Flight)
    requires FlightOk(cfg, mem, f) && ThreadOf(f).BridgeClient?
    ensures !f.msg.response
  {
  }

  /** A step other than a new message or a decision only brings messages on. */
  lemma StepDescends(cfg: Config, s: State, step: Step, id: nat)
    requires ValidConfig(cfg) && Inv(MeshSpec(cfg), s) && Enabled(cfg, s, step)
    requires !step.BeginWrite? && !step.BeginInject? && !step.Decide? && id in Apply(cfg, s, step).flights
    ensures id in s.flights && Descends(s.flights[id], Apply(cfg, s, step).flights[id])
  {
    NotLostAfter(cfg, s, step, id);
    if step.Advance? { AdvanceDescends(cfg, s, step.id, id); }
    else if step.Take? { TakeDescends(MeshSpec(cfg), s, step.q, id); }
    else if step.TakeReply? { GoDescends(s, step.id, ReadTaken, id); }
    else { GoDescends(s, step.id, DropBody(true), id); }
  }

  lemma GoDescends(s: State, k: nat, stage: Stage, id: nat)
    requires k in s.flights && id in Go(s, k, stage).flights
    requires (s.flights[k].stage.Replied? && stage == ReadTaken)
      || (s.flights[k].stage.RxTaken? && stage == DropBody(true))
    ensures id in s.flights && Descends(s.flights[id], Go(s, k, stage).flights[id])
  {
  }

  lemma AdvanceDescends(cfg: Config, s: State, k: nat, id: nat)
    requires Inv(MeshSpec(cfg), s) && Enabled(cfg, s, Advance(k)) && id in Apply(cfg, s, Advance(k)).flights
    requires Apply(cfg, s, Advance(k)).flights[id].stage != Lost
    ensures id in s.flights && Descends(s.flights[id], Apply(cfg, s, Advance(k)).flights[id])
  {
    var f := s.flights[k];
    var op := NextOp(cfg, s.mem, f);
    FlightHolds(cfg, s, k);
    NextDescends(cfg, s.mem, f, op);
    PerformPreserves(cfg, s, k, op, g => Descends(f, g), o => true);
    PerformFlights(cfg, s, k, op, id);
  }

  /** An operation on a message leaves the others alone and brings none. */
  lemma PerformFlights(cfg: Config, s: State, k: nat, op: Op, id: nat)
    requires k in s.flights && id in Perform(cfg, s, k, op).flights
    ensures id in s.flights && (id != k ==> Perform(cfg, s, k, op).flights[id] == s.flights[id])
  {
  }

  lemma TakeDescends(spec: Spec, s: State, q: QueueId, id: nat)
    requires Inv(spec, s) && Queue(s, q) != [] && Queue(s, q)[0] in s.flights && id in TakeStep(s, q).flights
    requires TakeStep(s, q).flights[id].stage != Lost
    ensures id in s.flights && Descends(s.flights[id], TakeStep(s, q).flights[id])
  {
    var k := Queue(s, q)[0];
    FrontInFlight(spec, s, q);
    if id == k { TakenDescends(s.flights[k], q); }
  }

  lemma TakenDescends(f: Flight, q: QueueId)
    requires f.stage == Queued(q) && TakenStage(q, f.desc) != Lost
    ensures Descends(f, f.(stage := TakenStage(q, f.desc)))
  {
  }

  // ----------------------------------------------------------------- what stays coupled

  /** Every message left has come on from where it was. */
  ghost predicate AllDescend(s: State, s': State) {
    forall id | id in s'.flights :: id in s.flights && Descends(s.flights[id], s'.flights[id])
  }

  lemma RequestsCarry(j: Joint, j': Joint, gone: set<C.Origin>)
    requires RequestsOk(j) && j'.requests == j.requests && AllDescend(j.ms, j'.ms)
    requires forall id | id in j'.ms.flights && Unread(j'.ms.flights[id]) && id in j.requests :: j.requests[id] !in gone
    requires j.cs.requests - gone <= j'.cs.requests
    ensures RequestsOk(j')
  {
  }

  lemma ResponsesCarry(j: Joint, j': Joint, gone: set<C.Response>)
    requires ResponsesOk(j) && j'.responses == j.responses && AllDescend(j.ms, j'.ms)
    requires forall id | id in j'.ms.flights && Undelivered(j'.ms.flights[id]) && id in j.responses ::
      j.responses[id] !in gone
    requires j.cs.responses - gone <= j'.cs.responses
    ensures ResponsesOk(j')
  {
  }

  /** What an event takes from the table's requests and responses. */
  function GoneRequests(e: Option<C.Event>): set<C.Origin> {
    match e
    case Some(Read(_, o)) => {o}
    case Some(LoseRequest(o)) => {o}
    case _ => {}
  }

  function GoneResponses(e: Option<C.Event>): set<C.Response> {
    match e
    case Some(Deliver(r)) => {r}
    case Some(LoseResponse(r)) => {r}
    case _ => {}
  }

  lemma FollowKeeps(cs: C.State, e: Option<C.Event>)
    requires e.Some? ==> C.Enabled(cs, e.value)
    requires C.AllIssued(cs) && C.Once(cs)
    ensures var cs' := Follow(cs, e);
      && C.AllIssued(cs') && C.Once(cs')
      && cs.requests - GoneRequests(e) <= cs'.requests && cs.responses - GoneResponses(e) <= cs'.responses
  {
    if e.Some? {
      C.IssuedKept(cs, e.value);
      C.OnceKept(cs, e.value);
    }
  }

  // ----------------------------------------------------------------- an operation on a message

  /** What the event of an operation is, and what it takes. */
  lemma OpEvent(j: Joint, id: nat, op: Op)
    requires RequestsOk(j) && ResponsesOk(j) && id in j.ms.flights
    ensures var e := EventOfOp(j, id, op);
      && (e.Some? ==> C.Enabled(j.cs, e.value) && !e.value.Issue?)
      && (e.Some? && e.value.Deliver? ==> id in j.responses && e.value.r == j.responses[id])
      && (forall o | o in GoneRequests(e) :: Unread(j.ms.flights[id]) && id in j.requests && o == j.requests[id])
      && (forall r | r in GoneResponses(e) ::
            Undelivered(j.ms.flights[id]) && id in j.responses && r == j.responses[id])
  {
  }

  /** A message whose request or response the event takes has been read, delivered or dropped. */
  lemma OpConsumes(cfg: Config, j: Joint, id: nat, op: Op)
    requires id in j.ms.flights && (j.ms.flights[id].stage.ReadHeader? ==> op.Continue? && op.stage.Handling?)
    ensures var ms' := Perform(cfg, j.ms, id, op);
      && (GoneRequests(EventOfOp(j, id, op)) != {} ==> id !in ms'.flights || !Unread(ms'.flights[id]))
      && (GoneResponses(EventOfOp(j, id, op)) != {} ==> id !in ms'.flights || !Undelivered(ms'.flights[id]))
  {
  }

  lemma ReadingReads(cfg: Config, mem: Memory, f: Flight)
    requires f.stage.ReadHeader?
    ensures NextOp(cfg, mem, f).Continue? && NextOp(cfg, mem, f).stage.Handling?
  {
  }

  lemma PolledCounterpart(cfg: Config, j: Joint, id: nat)
    requires Coupled(cfg, j) && id in j.ms.flights && IsPolledResponse(j.ms.flights[id])
    ensures id in j.responses && j.responses[id] in j.cs.responses && Counterpart(j.ms.flights[id], j.responses[id])
    ensures EventOfOp(j, id, NextOp(cfg, j.ms.mem, j.ms.flights[id])) == Some(C.Deliver(j.responses[id]))
  {
    FlightHolds(cfg, j.ms, id);
    PolledShape(cfg, j.ms.mem, j.ms.flights[id]);
    OnlyPollingAnswers(cfg, j.ms.mem, j.ms.flights[id]);
    PolledDelivers(j, id, NextOp(cfg, j.ms.mem, j.ms.flights[id]));
  }

  lemma PolledDelivers(j: Joint, id: nat, op: Op)
    requires ResponsesOk(j) && id in j.ms.flights && IsPolledResponse(j.ms.flights[id]) && op.Answer?
    requires var f := j.ms.flights[id];
      f.msg.response && f.desc.reqId == f.msg.reqId >= 0 && f.desc.dstPodId >= 0
    ensures id in j.responses && j.responses[id] in j.cs.responses && Counterpart(j.ms.flights[id], j.responses[id])
    ensures EventOfOp(j, id, op) == Some(C.Deliver(j.responses[id]))
  {
  }

  lemma PolledShape(cfg: Config, mem: Memory, f: Flight)
    requires ValidConfig(cfg) && FlightOk(cfg, mem, f) && IsPolledResponse(f)
    ensures f.msg.response && f.desc.reqId == f.msg.reqId >= 0 && f.desc.dstPodId >= 0
  {
  }

  /** Only the bridge answers, and it answers what is addressed to it. */
  lemma BridgeCounterpart(j: Joint, id: nat, op: Op)
    requires ResponsesOk(j) && id in j.ms.flights && !op.Answer?
    requires op.Leave? && op.outcome.Answered? ==> Bridging(j.ms.flights[id].stage)
    ensures var e := EventOfOp(j, id, op); e.Some? && e.value.Deliver? ==> e.value.r.meta.source.None?
  {
  }

  lemma OnlyBridgeAnswers(cfg: Config, mem: Memory, f: Flight)
    requires NextOp(cfg, mem, f).Leave? && NextOp(cfg, mem, f).outcome.Answered?
    ensures Bridging(f.stage)
  {
  }

  lemma OpTogether(cfg: Config, j: Joint, id: nat)
    requires Coupled(cfg, j) && Enabled(cfg, j.ms, Advance(id))
    ensures var e := EventOfOp(j, id, NextOp(cfg, j.ms.mem, j.ms.flights[id]));
      Goes(cfg, j.ms, j.cs, Advance(id), e)
  {
    var f := j.ms.flights[id];
    var op := NextOp(cfg, j.ms.mem, f);
    OpEvent(j, id, op);
    OnlyPollingAnswers(cfg, j.ms.mem, f);
    if IsPolledResponse(f) {
      PolledCounterpart(cfg, j, id);
    } else {
      if op.Leave? && op.outcome.Answered? { OnlyBridgeAnswers(cfg, j.ms.mem, f); }
      BridgeCounterpart(j, id, op);
    }
  }

  lemma OpCarries(cfg: Config, j: Joint, j': Joint, id: nat, op: Op)
    requires RequestsOk(j) && ResponsesOk(j) && id in j.ms.flights && AllDescend(j.ms, j'.ms)
    requires C.AllIssued(j.cs) && C.Once(j.cs)
    requires j.ms.flights[id].stage.ReadHeader? ==> op.Continue? && op.stage.Handling?
    requires j'.ms == Perform(cfg, j.ms, id, op) && j'.requests == j.requests && j'.responses == j.responses
    requires var e := EventOfOp(j, id, op); (e.Some? ==> C.Enabled(j.cs, e.value)) && j'.cs == Follow(j.cs, e)
    ensures RequestsOk(j') && ResponsesOk(j') && C.AllIssued(j'.cs) && C.Once(j'.cs)
  {
    var e := EventOfOp(j, id, op);
    OpEvent(j, id, op);
    OpConsumes(cfg, j, id, op);
    FollowKeeps(j.cs, e);
    RequestsLeft(j, j', id, GoneRequests(e));
    ResponsesLeft(j, j', id, GoneResponses(e));
    RequestsCarry(j, j', GoneRequests(e));
    ResponsesCarry(j, j', GoneResponses(e));
  }

  /** What is taken is no other message's. */
  lemma RequestsLeft(j: Joint, j': Joint, id: nat, gone: set<C.Origin>)
    requires RequestsOk(j) && id in j.ms.flights && AllDescend(j.ms, j'.ms)
    requires forall o | o in gone :: Unread(j.ms.flights[id]) && id in j.requests && o == j.requests[id]
    requires gone != {} ==> id !in j'.ms.flights || !Unread(j'.ms.flights[id])
    ensures forall k | k in j'.ms.flights && Unread(j'.ms.flights[k]) && k in j.requests :: j.requests[k] !in gone
  {
  }

  lemma ResponsesLeft(j: Joint, j': Joint, id: nat, gone: set<C.Response>)
    requires ResponsesOk(j) && id in j.ms.flights && AllDescend(j.ms, j'.ms)
    requires forall r | r in gone :: Undelivered(j.ms.flights[id]) && id in j.responses && r == j.responses[id]
    requires gone != {} ==> id !in j'.ms.flights || !Undelivered(j'.ms.flights[id])
    ensures forall k | k in j'.ms.flights && Undelivered(j'.ms.flights[k]) && k in j.responses ::
      j.responses[k] !in gone
  {
  }

  /** Driving is possible, and keeps the machines coupled. */
  ghost predicate DrivesWell(cfg: Config, j: Joint, step: Step, o: C.Origin)
    requires Enabled(cfg, j.ms, step)
  {
    && Goes(cfg, j.ms, j.cs, step, EventOf(cfg, j, step, o))
    && Coupled(cfg, Drive(cfg, j, step, o))
  }

  lemma AllComeOn(cfg: Config, s: State, step: Step)
    requires ValidConfig(cfg) && Inv(MeshSpec(cfg), s) && Enabled(cfg, s, step)
    requires !step.BeginWrite? && !step.BeginInject? && !step.Decide?
    ensures AllDescend(s, Apply(cfg, s, step))
  {
    forall id | id in Apply(cfg, s, step).flights
      ensures id in s.flights && Descends(s.flights[id], Apply(cfg, s, step).flights[id])
    {
      StepDescends(cfg, s, step, id);
    }
  }

  lemma AppliedAdvance(cfg: Config, s: State, id: nat)
    requires Enabled(cfg, s, Advance(id))
    ensures id in s.flights && Apply(cfg, s, Advance(id)) == Perform(cfg, s, id, NextOp(cfg, s.mem, s.flights[id]))
  {
  }

  /** What driving by an operation comes to. */
  lemma DrivenByOp(cfg: Config, j: Joint, id: nat, o: C.Origin, e: Option<C.Event>)
    requires Enabled(cfg, j.ms, Advance(id)) && e == EventOfOp(j, id, NextOp(cfg, j.ms.mem, j.ms.flights[id]))
    requires e.Some? ==> C.Enabled(j.cs, e.value)
    ensures EventOf(cfg, j, Advance(id), o) == e
    ensures Drive(cfg, j, Advance(id), o)
         == Joint(Apply(cfg, j.ms, Advance(id)), Follow(j.cs, e), j.requests, j.responses)
  {
  }

  lemma AdvanceCoupled(cfg: Config, j: Joint, id: nat, o: C.Origin)
    requires Coupled(cfg, j) && Enabled(cfg, j.ms, Advance(id))
    ensures DrivesWell(cfg, j, Advance(id), o)
  {
    var op := NextOp(cfg, j.ms.mem, j.ms.flights[id]);
    var e := EventOfOp(j, id, op);
    OpTogether(cfg, j, id);
    DrivenByOp(cfg, j, id, o, e);
    StepKeeps(cfg, j.ms, Advance(id));
    StepAgrees(cfg, j.ms, j.cs, Advance(id), e);
    AdvanceCarries(cfg, j, Drive(cfg, j, Advance(id), o), id);
  }

  lemma AdvanceCarries(cfg: Config, j: Joint, j': Joint, id: nat)
    requires Coupled(cfg, j) && Enabled(cfg, j.ms, Advance(id)) && j'.ms == Apply(cfg, j.ms, Advance(id))
    requires j'.requests == j.requests && j'.responses == j.responses
    requires var e := EventOfOp(j, id, NextOp(cfg, j.ms.mem, j.ms.flights[id]));
      (e.Some? ==> C.Enabled(j.cs, e.value)) && j'.cs == Follow(j.cs, e)
    ensures RequestsOk(j') && ResponsesOk(j') && C.AllIssued(j'.cs) && C.Once(j'.cs)
  {
    AppliedAdvance(cfg, j.ms, id);
    AllComeOn(cfg, j.ms, Advance(id));
    if j.ms.flights[id].stage.ReadHeader? { ReadingReads(cfg, j.ms.mem, j.ms.flights[id]); }
    OpCarries(cfg, j, j', id, NextOp(cfg, j.ms.mem, j.ms.flights[id]));
  }

  /** A step without an event. */
  lemma QuietCoupled(cfg: Config, j: Joint, step: Step, o: C.Origin)
    requires Coupled(cfg, j) && Enabled(cfg, j.ms, step) && (step.Take? || step.TakeReply? || step.LosePod?)
    ensures DrivesWell(cfg, j, step, o)
  {
    StepKeeps(cfg, j.ms, step);
    StepAgrees(cfg, j.ms, j.cs, step, None);
    AllComeOn(cfg, j.ms, step);
    QuietCarries(j, Drive(cfg, j, step, o));
  }

  lemma QuietCarries(j: Joint, j': Joint)
    requires RequestsOk(j) && ResponsesOk(j) && AllDescend(j.ms, j'.ms)
    requires j'.cs == j.cs && j'.requests == j.requests && j'.responses == j.responses
    ensures RequestsOk(j') && ResponsesOk(j')
  {
    RequestsCarry(j, j', {});
    ResponsesCarry(j, j', {});
  }

  /** Routing a response where it is addressed. */
  lemma DecideCoupled(cfg: Config, j: Joint, id: nat, d: Decision, o: C.Origin)
    requires Coupled(cfg, j) && Enabled(cfg, j.ms, Decide(id, d)) && Behaves(j, Decide(id, d), o)
    ensures DrivesWell(cfg, j, Decide(id, d), o)
  {
    StepKeeps(cfg, j.ms, Decide(id, d));
    StepAgrees(cfg, j.ms, j.cs, Decide(id, d), None);
    AppliedChoice(cfg, j.ms, id, d);
    DecideCarries(j, Drive(cfg, j, Decide(id, d), o), id, d);
  }

  lemma AppliedChoice(cfg: Config, s: State, id: nat, d: Decision)
    requires Enabled(cfg, s, Decide(id, d))
    ensures id in s.flights && s.flights[id].stage.Routing? && Apply(cfg, s, Decide(id, d)) == DecideStep(s, id, d)
  {
  }

  lemma DecideCarries(j: Joint, j': Joint, id: nat, d: Decision)
    requires RequestsOk(j) && ResponsesOk(j) && id in j.ms.flights && j.ms.flights[id].stage.Routing?
    requires j.ms.flights[id].msg.response && id in j.responses ==> Addressed(j.responses[id], d)
    requires j'.ms == DecideStep(j.ms, id, d)
    requires j'.cs == j.cs && j'.requests == j.requests && j'.responses == j.responses
    ensures RequestsOk(j') && ResponsesOk(j')
  {
    var g := j'.ms.flights[id];
    DecidedFlight(j.ms, id, d);
    RequestChanged(j, j', id, g);
    ResponseChanged(j, j', id, g);
  }

  /** A decision changes the message's stage and destination. */
  lemma DecidedFlight(s: State, id: nat, d: Decision)
    requires id in s.flights && s.flights[id].stage.Routing?
    ensures var s', f := DecideStep(s, id, d), s.flights[id];
      && id in s'.flights && s'.flights == s.flights[id := s'.flights[id]]
      && var g := s'.flights[id];
         && g.msg == f.msg && !g.stage.Handling? && !g.stage.ReadFreeBody? && !PastThePipe(g.stage)
         && !g.stage.Orphaned?
         && (Routed(g.stage) ==> d == Forward(g.desc.dstPodId)) && (Bridging(g.stage) ==> d == ToBridge)
  {
  }

  lemma RequestChanged(j: Joint, j': Joint, id: nat, g: Flight)
    requires RequestsOk(j) && id in j.ms.flights && j.ms.flights[id].stage.Routing? && g.msg == j.ms.flights[id].msg
    requires j'.ms.flights == j.ms.flights[id := g] && j'.cs == j.cs && j'.requests == j.requests
    ensures RequestsOk(j')
  {
  }

  lemma ResponseChanged(j: Joint, j': Joint, id: nat, g: Flight)
    requires ResponsesOk(j) && id in j.ms.flights && j.ms.flights[id].stage.Routing? && g.msg == j.ms.flights[id].msg
    requires j'.ms.flights == j.ms.flights[id := g] && j'.cs == j.cs && j'.responses == j.responses
    requires g.msg.response && id in j.responses ==>
      && (Routed(g.stage) ==> ComesFrom(j.responses[id], g.desc.dstPodId))
      && (Bridging(g.stage) ==> j.responses[id].meta.source.None?)
    ensures ResponsesOk(j')
  {
  }

  // ----------------------------------------------------------------- a new message

  /** A new message, in its first stage. */
  ghost predicate Added(j: Joint, j': Joint, m: Msg) {
    var id := j.ms.next;
    && id !in j.ms.flights && id in j'.ms.flights && j'.ms.flights == j.ms.flights[id := j'.ms.flights[id]]
    && j'.ms.flights[id].msg == m && (j'.ms.flights[id].stage.WriteHeader? || j'.ms.flights[id].stage.Inject?)
  }

  lemma RequestAdded(j: Joint, j': Joint, m: Msg, o: C.Origin)
    requires RequestsOk(j) && ResponsesOk(j) && Added(j, j', m) && !m.response && o !in j.cs.requests
    requires C.MetaOf(o).reqId == m.reqId && j'.cs.requests == j.cs.requests + {o}
    requires j'.cs.responses == j.cs.responses && j'.requests == j.requests[j.ms.next := o]
    requires j'.responses == j.responses
    ensures RequestsOk(j') && ResponsesOk(j')
  {
  }

  lemma ResponseAdded(j: Joint, j': Joint, m: Msg, r: C.Response)
    requires RequestsOk(j) && ResponsesOk(j) && Added(j, j', m) && m.response && r !in j.cs.responses
    requires r.meta.reqId == m.reqId && j'.cs.responses == j.cs.responses + {r}
    requires j'.cs.requests == j.cs.requests && j'.responses == j.responses[j.ms.next := r]
    requires j'.requests == j.requests
    ensures RequestsOk(j') && ResponsesOk(j')
  {
  }

  /** A message refused at once brings nothing. */
  lemma NothingAdded(j: Joint, j': Joint)
    requires RequestsOk(j) && ResponsesOk(j) && j.ms.next !in j.ms.flights && j'.ms.flights == j.ms.flights
    requires j.cs.requests <= j'.cs.requests && j.cs.responses <= j'.cs.responses
    requires forall id | id != j.ms.next ::
      && (id in j.requests ==> id in j'.requests && j'.requests[id] == j.requests[id])
      && (id in j'.requests ==> id in j.requests)
      && (id in j.responses ==> id in j'.responses && j'.responses[id] == j.responses[id])
      && (id in j'.responses ==> id in j.responses)
    ensures RequestsOk(j') && ResponsesOk(j')
  {
  }

  lemma NewIsAbsent(cs: C.State, o: C.Origin)
    requires C.AllIssued(cs) && !C.Issued(cs, o)
    ensures o !in cs.requests
  {
  }

  lemma AnswerIsAbsent(cs: C.State, v: nat, o: C.Origin, meta: C.Meta)
    requires C.Once(cs) && (v, o) in cs.held
    ensures C.Response(meta, o) !in cs.responses
  {
    var h, r := (v, o), C.Response(meta, o);
    assert h.1 == r.answers;
  }

  lemma StartedIs(cfg: Config, s: State, m: Msg)
    requires m.bridge ==> !m.response
    ensures var s' := Started(cfg, s, m);
      if Granted(cfg, s, m) then
        && s.next in s'.flights && s'.flights == s.flights[s.next := s'.flights[s.next]]
        && s'.flights[s.next].msg == m && (s'.flights[s.next].stage.WriteHeader? || s'.flights[s.next].stage.Inject?)
      else s'.flights == s.flights
  {
  }

  lemma IssueCarries(cfg: Config, j: Joint, j': Joint, m: Msg)
    requires RequestsOk(j) && ResponsesOk(j) && C.AllIssued(j.cs) && j.ms.next !in j.ms.flights
    requires !m.bridge && !m.response && m.pod >= 0 && m.reqId == C.ReqId(C.Next(j.cs, m.pod))
    requires j'.ms == Started(cfg, j.ms, m) && j'.cs == C.Apply(j.cs, C.Issue(m.pod, Granted(cfg, j.ms, m)))
    requires j'.requests == j.requests[j.ms.next := C.Worker(m.pod, C.Next(j.cs, m.pod))]
    requires j'.responses == j.responses
    ensures RequestsOk(j') && ResponsesOk(j')
  {
    var o := C.Worker(m.pod, C.Next(j.cs, m.pod));
    StartedIs(cfg, j.ms, m);
    NewIsAbsent(j.cs, o);
    if Granted(cfg, j.ms, m) { RequestAdded(j, j', m, o); } else { NothingAdded(j, j'); }
  }

  lemma AnswerCarries(cfg: Config, j: Joint, j': Joint, m: Msg, o: C.Origin)
    requires RequestsOk(j) && ResponsesOk(j) && C.Once(j.cs) && j.ms.next !in j.ms.flights
    requires !m.bridge && m.response && Writes(j, m, o)
    requires j'.ms == Started(cfg, j.ms, m) && j'.cs == C.Apply(j.cs, C.Answer(m.pod, o, Granted(cfg, j.ms, m)))
    requires j'.requests == j.requests
    requires j'.responses ==
      j.responses[j.ms.next := C.Response(j.cs.inbound[(m.pod as nat, C.IndexOf(o))], o)]
    ensures RequestsOk(j') && ResponsesOk(j')
  {
    var meta := j.cs.inbound[(m.pod as nat, C.IndexOf(o))];
    StartedIs(cfg, j.ms, m);
    AnswerIsAbsent(j.cs, m.pod, o, meta);
    if Granted(cfg, j.ms, m) { ResponseAdded(j, j', m, C.Response(meta, o)); } else { NothingAdded(j, j'); }
  }

  lemma InjectCarries(cfg: Config, j: Joint, j': Joint, m: Msg)
    requires RequestsOk(j) && ResponsesOk(j) && C.AllIssued(j.cs) && j.ms.next !in j.ms.flights
    requires m.bridge && !m.response && m.reqId == 0 && j'.ms == Started(cfg, j.ms, m)
    requires j'.cs == if Granted(cfg, j.ms, m) then C.Apply(j.cs, C.Inject) else j.cs
    requires j'.requests == j.requests[j.ms.next := C.Bridge(j.cs.bridged)] && j'.responses == j.responses
    ensures RequestsOk(j') && ResponsesOk(j')
  {
    StartedIs(cfg, j.ms, m);
    NewIsAbsent(j.cs, C.Bridge(j.cs.bridged));
    if Granted(cfg, j.ms, m) { RequestAdded(j, j', m, C.Bridge(j.cs.bridged)); } else { NothingAdded(j, j'); }
  }

  lemma AppliedWrite(cfg: Config, s: State, m: Msg)
    requires Enabled(cfg, s, BeginWrite(m))
    ensures !m.bridge && ValidMsg(cfg, m) && Apply(cfg, s, BeginWrite(m)) == Started(cfg, s, m)
  {
  }

  lemma AppliedInject(cfg: Config, s: State, m: Msg)
    requires Enabled(cfg, s, BeginInject(m))
    ensures m.bridge && ValidMsg(cfg, m) && Apply(cfg, s, BeginInject(m)) == Started(cfg, s, m)
  {
  }

  lemma FreshIdentity(cfg: Config, j: Joint)
    requires Coupled(cfg, j)
    ensures j.ms.next !in j.ms.flights
  {
    NewMessage(MeshSpec(cfg), j.ms);
  }

  lemma WriteCoupled(cfg: Config, j: Joint, m: Msg, o: C.Origin)
    requires Coupled(cfg, j) && Enabled(cfg, j.ms, BeginWrite(m)) && Writes(j, m, o)
    ensures DrivesWell(cfg, j, BeginWrite(m), o)
  {
    var e := EventOf(cfg, j, BeginWrite(m), o);
    AppliedWrite(cfg, j.ms, m);
    FreshIdentity(cfg, j);
    StepKeeps(cfg, j.ms, BeginWrite(m));
    StepAgrees(cfg, j.ms, j.cs, BeginWrite(m), e);
    FollowKeeps(j.cs, e);
    if m.response { AnswerCarries(cfg, j, Drive(cfg, j, BeginWrite(m), o), m, o); }
    else { IssueCarries(cfg, j, Drive(cfg, j, BeginWrite(m), o), m); }
  }

  lemma InjectCoupled(cfg: Config, j: Joint, m: Msg, o: C.Origin)
    requires Coupled(cfg, j) && Enabled(cfg, j.ms, BeginInject(m))
    ensures DrivesWell(cfg, j, BeginInject(m), o)
  {
    var e := EventOf(cfg, j, BeginInject(m), o);
    AppliedInject(cfg, j.ms, m);
    FreshIdentity(cfg, j);
    StepKeeps(cfg, j.ms, BeginInject(m));
    StepAgrees(cfg, j.ms, j.cs, BeginInject(m), e);
    FollowKeeps(j.cs, e);
    InjectCarries(cfg, j, Drive(cfg, j, BeginInject(m), o), m);
  }

  // ----------------------------------------------------------------- the theorems

  /** Every step of the pipeline drives the table: the event that goes with it is enabled, and the machines stay
      coupled. */
  lemma StepDrives(cfg: Config, j: Joint, step: Step, o: C.Origin)
    requires Coupled(cfg, j) && CanDrive(cfg, j, step, o)
    ensures DrivesWell(cfg, j, step, o)
  {
    match step
    case BeginWrite(m) => WriteCoupled(cfg, j, m, o);
    case BeginInject(m) => InjectCoupled(cfg, j, m, o);
    case Decide(id, d) => DecideCoupled(cfg, j, id, d, o);
    case Advance(id) => AdvanceCoupled(cfg, j, id, o);
    case _ => QuietCoupled(cfg, j, step, o);
  }

  lemma StartIsCoupled(cfg: Config)
    requires ValidConfig(cfg)
    ensures Coupled(cfg, Start)
  {
    InitOk(MeshSpec(cfg));
  }

  /** A run of the pipeline with the table driven by it. */
  ghost predicate Driven(cfg: Config, js: seq<Joint>, steps: seq<Step>, os: seq<C.Origin>) {
    && |js| == |steps| + 1 == |os| + 1 && js[0] == Start
    && forall i | 0 <= i < |steps| ::
         CanDrive(cfg, js[i], steps[i], os[i]) && js[i + 1] == Drive(cfg, js[i], steps[i], os[i])
  }

  lemma {:induction false} DrivenIsCoupled(cfg: Config, js: seq<Joint>, steps: seq<Step>, os: seq<C.Origin>, i: nat)
    requires ValidConfig(cfg) && Driven(cfg, js, steps, os) && i < |js|
    ensures Coupled(cfg, js[i])
    decreases i
  {
    if i == 0 {
      StartIsCoupled(cfg);
    } else {
      DrivenIsCoupled(cfg, js, steps, os, i - 1);
      StepDrives(cfg, js[i - 1], steps[i - 1], os[i - 1]);
    }
  }

  ghost function Pipeline(js: seq<Joint>): seq<State> {
    seq(|js|, i requires 0 <= i < |js| => js[i].ms)
  }

  ghost function Table(js: seq<Joint>): seq<C.State> {
    seq(|js|, i requires 0 <= i < |js| => js[i].cs)
  }

  ghost function Events(cfg: Config, js: seq<Joint>, steps: seq<Step>, os: seq<C.Origin>): seq<Option<C.Event>>
    requires |js| == |steps| + 1 == |os| + 1
  {
    seq(|steps|, i requires 0 <= i < |steps| => EventOf(cfg, js[i], steps[i], os[i]))
  }

  /** Every run of the pipeline, with workers that number requests and answer what they hold and a sidecar that routes
      answers where they are addressed, has a run of the table beside it. */
  lemma PipelineDrivesTable(cfg: Config, js: seq<Joint>, steps: seq<Step>, os: seq<C.Origin>)
    requires ValidConfig(cfg) && Driven(cfg, js, steps, os)
    ensures JointRun(cfg, Pipeline(js), Table(js), steps, Events(cfg, js, steps, os))
  {
    forall i | 0 <= i < |steps|
      ensures Goes(cfg, js[i].ms, js[i].cs, steps[i], EventOf(cfg, js[i], steps[i], os[i]))
      ensures js[i + 1].ms == Apply(cfg, js[i].ms, steps[i])
      ensures js[i + 1].cs == Follow(js[i].cs, EventOf(cfg, js[i], steps[i], os[i]))
    {
      DrivenIsCoupled(cfg, js, steps, os, i);
      StepDrives(cfg, js[i], steps[i], os[i]);
    }
  }

  /** The events of the run so far meet the table's two conditions. */
  ghost predicate CalmSoFar(cfg: Config, js: seq<Joint>, steps: seq<Step>, os: seq<C.Origin>, i: nat)
    requires |js| == |steps| + 1 == |os| + 1 && i <= |steps|
  {
    forall k | 0 <= k < i ::
      var e := EventOf(cfg, js[k], steps[k], os[k]); e.Some? ==> C.Calm(js[k].cs, e.value)
  }

  lemma {:induction false} CalmIsReached(cfg: Config, js: seq<Joint>, steps: seq<Step>, os: seq<C.Origin>, i: nat)
    requires ValidConfig(cfg) && Driven(cfg, js, steps, os) && i < |js| && CalmSoFar(cfg, js, steps, os, i)
    ensures C.Reached(js[i].cs)
    decreases i
  {
    if i == 0 {
      assert C.CalmRun(C.Init, []) && C.After(C.Init, []) == C.Init;
    } else {
      CalmIsReached(cfg, js, steps, os, i - 1);
      DrivenIsCoupled(cfg, js, steps, os, i - 1);
      StepDrives(cfg, js[i - 1], steps[i - 1], os[i - 1]);
      var e := EventOf(cfg, js[i - 1], steps[i - 1], os[i - 1]);
      if e.Some? { C.ReachedStep(js[i - 1].cs, e.value); }
    }
  }

  /** In the pipeline itself, after a calm run: every polled response answers a request of the pod it was polled at, and
      is handed to that request's own pipe if and only if the pod has not issued 256 more. */
  lemma PolledAnswersLand(cfg: Config, js: seq<Joint>, steps: seq<Step>, os: seq<C.Origin>, i: nat, id: nat)
    requires ValidConfig(cfg) && Driven(cfg, js, steps, os) && i < |js| && CalmSoFar(cfg, js, steps, os, i)
    requires id in js[i].ms.flights && IsPolledResponse(js[i].ms.flights[id])
    ensures id in js[i].responses
    ensures var f, r, cs := js[i].ms.flights[id], js[i].responses[id], js[i].cs;
      var ms' := Perform(cfg, js[i].ms, id, Answer(f.desc.dstPodId, f.desc.reqId % MAX_PENDING));
      && r in cs.responses && r.answers.Worker? && r.answers.worker == f.desc.dstPodId && r.meta.reqId == f.msg.reqId
      && (ms'.flights[id].stage.Replied?
          && C.Apply(cs, C.Deliver(r)).arrivals
               == cs.arrivals + [C.OnPipe(r.answers.worker, r.answers.serial, r.answers)]
          <==> C.Next(cs, r.answers.worker) <= r.answers.serial + MAX_PENDING)
  {
    var j := js[i];
    DrivenIsCoupled(cfg, js, steps, os, i);
    CalmIsReached(cfg, js, steps, os, i);
    PolledCounterpart(cfg, j, id);
    C.ReachedInv(j.cs);
    var r := j.responses[id];
    assert r.meta == C.MetaOf(r.answers);
    AnswerAgrees(cfg, j.ms, j.cs, id, r);
    C.LandsIff(j.cs, r);
    PolledIsResponse(cfg, j, id);
  }

  lemma PolledIsResponse(cfg: Config, j: Joint, id: nat)
    requires Coupled(cfg, j) && id in j.ms.flights && IsPolledResponse(j.ms.flights[id])
    ensures j.ms.flights[id].desc.reqId == j.ms.flights[id].msg.reqId
  {
    FlightHolds(cfg, j.ms, id);
    PolledShape(cfg, j.ms.mem, j.ms.flights[id]);
  }
}
