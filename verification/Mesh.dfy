/** The descriptor/buffer pipeline as a transition system.  One step is one operation of one
    thread on shared memory: an allocation, a release, a slot read or write, a ring put or get.
    Everything between two such operations is local to the thread and folded into the next one. */
module Mesh {
  import opened Options
  import opened Descriptor
  import opened Utf8

  // ----------------------------------------------------------------- configuration

  /** `registry` maps a registered pod to the name of its service. */
  datatype Config = Config(
    numSlots: nat,
    maxDescriptors: nat,
    slotSize: nat,
    pipeCapacity: nat,
    registry: map<int, string>)

  const MAX_HEADER: nat := 4096

  ghost predicate ValidConfig(cfg: Config) {
    && 1 <= cfg.numSlots
    && 2 * cfg.numSlots <= cfg.maxDescriptors
    && cfg.numSlots <= cfg.pipeCapacity
    && MAX_HEADER <= cfg.slotSize
    && cfg.numSlots < WORD / 2
    && forall p | p in cfg.registry :: 0 <= p < WORD / 2 && cfg.registry[p] != ""
  }

  datatype PoolId =
    | HostTxHeader(service: string)
    | HostTxBody(service: string)
    | HostRxHeader(service: string)
    | HostRxBody(service: string)
    | DpuTxHeader
    | DpuTxBody
    | DpuRxBody

  /** Pool type and pod to pool; an unregistered pod has no host pools. */
  function ResolvePool(cfg: Config, poolType: int, pod: int): Option<PoolId> {
    if poolType == POOL_NONE then None
    else if poolType == POOL_DPU_TX_HEADER then Some(DpuTxHeader)
    else if poolType == POOL_DPU_TX_BODY then Some(DpuTxBody)
    else if poolType == POOL_DPU_RX_BODY then Some(DpuRxBody)
    else if pod !in cfg.registry || cfg.registry[pod] == "" then None
    else if poolType == POOL_HOST_TX_HEADER then Some(HostTxHeader(cfg.registry[pod]))
    else if poolType == POOL_HOST_TX_BODY then Some(HostTxBody(cfg.registry[pod]))
    else if poolType == POOL_HOST_RX_HEADER then Some(HostRxHeader(cfg.registry[pod]))
    else if poolType == POOL_HOST_RX_BODY then Some(HostRxBody(cfg.registry[pod]))
    else None
  }

  /** The service whose pools a worker has mapped; the model assumes every pod is registered. */
  function Service(cfg: Config, pod: int): string {
    if pod in cfg.registry then cfg.registry[pod] else ""
  }

  datatype Slot = Slot(pool: PoolId, index: int)

  // ----------------------------------------------------------------- messages

  /** What a sender hands to the mesh: a worker's write, or (`bridge`) an injected client request.
      `toBridge` says that a response carries the ingress case flag. */
  datatype Msg = Msg(
    bridge: bool,
    pod: int,
    response: bool,
    toBridge: bool,
    reqId: int,
    header: Bytes,
    body: Bytes)

  /** The body as carried: the writer sends an empty body as a single NUL. */
  function Carried(body: Bytes): (r: Bytes)
    ensures |r| >= 1
  {
    if body == [] then [0] else body
  }

  ghost predicate ValidMsg(cfg: Config, m: Msg) {
    && m.pod in cfg.registry
    && |m.body| < WORD / 2
    && 0 <= m.reqId < WORD
    && if m.bridge then m.header == [] && m.body != [] && !m.response && m.reqId == 0
       else 1 <= |m.header| < MAX_HEADER
  }

  // ----------------------------------------------------------------- state

  datatype QueueId = TxSq(pod: int) | SidecarTxSq | SidecarRxSq | RxSq(pod: int) | Notify(pod: int)

  /** Progress of one `copy_buffer`: slot allocated, source read, destination written. */
  datatype Copy = Fresh | Loaded(data: Bytes) | Stored

  /** Where a message is and which local variables the thread working on it has set. */
  datatype Stage =
    // dpumesh_write
    | WriteHeader(h: int, written: bool)
    | WriteBody(h: int, b: int, written: bool)
    | WriteAbort(h: int)
    // a ring or the notify pipe
    | Queued(q: QueueId)
    // DPA, host TX
    | TxTaken
    | TxCopy(d: int, copy: Copy)
    | TxForward(d: int)
    | TxRetry
    // sidecar
    | RouteTaken
    | Routing(header: Bytes)
    | RouteForward
    | BridgeBody(header: Bytes)
    | BridgeFreeBody(header: Bytes, body: Bytes)
    | BridgeFreeHeader(header: Bytes, body: Bytes)
    // cleanup of a message that cannot be routed (sidecar) or landed (DPA)
    | DropBody(onDpa: bool)
    | DropHeader(onDpa: bool)
    // bridge client
    | Inject(b: int, written: bool)
    | InjectAbort(b: int)
    // DPA, sidecar RX
    | RxTaken
    | RxRetry
    | BodyCopy(b: int, copy: Copy)
    | HeaderStart(b: int)
    | HeaderCopy(b: int, h: int, copy: Copy)
    | RxForward(b: int, h: int)
    // worker: poller, response pipe, reader
    | Polled
    | Replied
    | Orphaned
    | ReadTaken
    | ReadHeader(header: Bytes)
    | Handling(header: Bytes, body: Bytes)
    | ReadFreeBody(header: Bytes, body: Bytes)
    // a branch that loses the message: a full ring or header pool, an invalid descriptor
    | Lost

  datatype Flight = Flight(msg: Msg, desc: SwDescriptor, stage: Stage)

  /** How a message left the mesh. */
  datatype Outcome =
    | Refused(msg: Msg)
    | Discarded(msg: Msg)
    | Delivered(msg: Msg, pod: int, header: Bytes, body: Bytes, reqId: int, response: bool)
    | Answered(msg: Msg, header: Bytes, body: Bytes)

  /** `owner` is the bitmap of every pool: a slot is allocated when it is a key.  The value, the
      identity of the message it was allocated for, is history and no step looks at it.  A ring
      holds descriptors by the identity of the message each one describes. */
  datatype State = State(
    owner: map<Slot, nat>,
    mem: map<Slot, Bytes>,
    queues: map<QueueId, seq<nat>>,
    flights: map<nat, Flight>,
    waiting: set<(int, int)>,
    next: nat,
    outcomes: map<nat, Outcome>)

  const Init: State := State(map[], map[], map[], map[], {}, 0, map[])

  // ----------------------------------------------------------------- pools

  /** First-fit allocation: the lowest clear bit from `i` on, or -1. */
  function FirstFree(cfg: Config, owner: map<Slot, nat>, pool: PoolId, i: nat): (r: int)
    ensures r == -1 || i <= r < cfg.numSlots
    ensures r >= 0 ==> Slot(pool, r) !in owner
    ensures r >= 0 ==> forall k | i <= k < r :: Slot(pool, k) in owner
    ensures r == -1 ==> forall k | i <= k < cfg.numSlots :: Slot(pool, k) in owner
    decreases cfg.numSlots - i
  {
    if i >= cfg.numSlots then -1
    else if Slot(pool, i) !in owner then i
    else FirstFree(cfg, owner, pool, i + 1)
  }

  /** The bytes of a slot; a slot nobody has written is all zeros. */
  function Contents(cfg: Config, mem: map<Slot, Bytes>, sl: Slot): Bytes {
    if sl in mem then mem[sl] else Zeros(cfg.slotSize)
  }

  function Min(a: int, b: int): int {
    if a < b then a else b
  }

  /** Reads at most a slot's worth of bytes from its start. */
  function Load(cfg: Config, mem: map<Slot, Bytes>, sl: Slot, len: int): Bytes {
    var c := Contents(cfg, mem, sl);
    var n := Min(Min(len, cfg.slotSize), |c|);
    if n <= 0 then [] else c[..n]
  }

  function LoadRef(cfg: Config, mem: map<Slot, Bytes>, r: Option<Slot>, len: int): Bytes {
    if r.Some? then Load(cfg, mem, r.value, len) else []
  }

  /** Overwrites the start of a slot; data larger than a slot is rejected. */
  function Store(cfg: Config, mem: map<Slot, Bytes>, sl: Slot, data: Bytes): map<Slot, Bytes> {
    var c := Contents(cfg, mem, sl);
    if |data| > cfg.slotSize || |data| > |c| then mem
    else mem[sl := data + c[|data|..]]
  }

  // ----------------------------------------------------------------- descriptors

  const NoDesc := SwDescriptor(-1, 0, -1, 0, 0, 0, 0, 0, 0, 0, 0, 0, 0, 0, -1, -1)

  function WriteFlags(m: Msg): int {
    if !m.response then OP_REQUEST + CASE_LOCAL
    else OP_RESPONSE + (if m.toBridge then CASE_INGRESS else CASE_LOCAL)
  }

  /** Built by the writer. */
  function HostDescriptor(m: Msg, h: int, b: int): SwDescriptor {
    SwDescriptor(
      headerBufSlot := h, headerLen := |m.header|,
      bodyBufSlot := b, bodyLen := |Carried(m.body)|,
      reqId := m.reqId, stepId := 0, dstPodId := 0, srcPodId := m.pod,
      flags := WriteFlags(m), valid := 1,
      srcBodyPoolType := POOL_HOST_TX_BODY, srcHeaderPoolType := POOL_HOST_TX_HEADER,
      srcBodyPodId := m.pod, srcHeaderPodId := m.pod,
      srcBodyBufSlot := b, srcHeaderBufSlot := h)
  }

  /** Built by the DPA after the header has moved to DPU slot `d`. */
  function SidecarDescriptor(x: SwDescriptor, d: int): SwDescriptor {
    x.(headerBufSlot := d, valid := 1,
       srcHeaderPoolType := POOL_DPU_TX_HEADER, srcHeaderPodId := 0, srcHeaderBufSlot := d)
  }

  /** Updated by the sidecar when it forwards to `pod`. */
  function RoutedDescriptor(x: SwDescriptor, pod: int): SwDescriptor {
    x.(dstPodId := pod, valid := 1,
       flags := (if x.IsResponse() then OP_RESPONSE else OP_REQUEST) + CASE_LOCAL)
  }

  /** Built by a bridge client. */
  function IngressDescriptor(m: Msg, b: int): SwDescriptor {
    NoDesc.(bodyBufSlot := b, bodyLen := |m.body|, dstPodId := m.pod,
            flags := OP_REQUEST + CASE_INGRESS, valid := 1,
            srcBodyPoolType := POOL_DPU_RX_BODY, srcBodyBufSlot := b)
  }

  /** Built by the DPA for the destination's RX ring; case 2 carries no header. */
  function RxDescriptor(x: SwDescriptor, b: int, h: int): SwDescriptor {
    NoDesc.(headerBufSlot := h, headerLen := if x.Case() == CASE_LOCAL then x.headerLen else 0,
            bodyBufSlot := b, bodyLen := x.bodyLen, reqId := x.reqId, stepId := x.stepId,
            dstPodId := x.dstPodId, srcPodId := x.srcPodId, flags := x.flags, valid := 1)
  }

  /** The slot a descriptor's source fields name, if they name one. */
  function HeaderRef(cfg: Config, x: SwDescriptor): Option<Slot> {
    var pool := ResolvePool(cfg, x.srcHeaderPoolType, x.srcHeaderPodId);
    if pool.None? || x.srcHeaderBufSlot < 0 then None else Some(Slot(pool.value, x.srcHeaderBufSlot))
  }

  function BodyRef(cfg: Config, x: SwDescriptor): Option<Slot> {
    var pool := ResolvePool(cfg, x.srcBodyPoolType, x.srcBodyPodId);
    if pool.None? || x.srcBodyBufSlot < 0 then None else Some(Slot(pool.value, x.srcBodyBufSlot))
  }

  function RefSet(r: Option<Slot>): set<Slot> {
    if r.Some? then {r.value} else {}
  }

  // ----------------------------------------------------------------- operations on shared memory

  /** One operation of the thread that is working on a message.  Reading a slot changes nothing
      shared, so a read and what the thread does with it is a `Continue`. */
  datatype Op =
    | Continue(stage: Stage)
    | Alloc(pool: PoolId, granted: int -> Stage, refused: Stage)
    | Free(slots: set<Slot>, stage: Stage)
    | Write(slot: Slot, data: Bytes, stage: Stage)
    | Enqueue(q: QueueId, desc: SwDescriptor)
    | Answer(pod: int, index: int)
    | Leave(slots: set<Slot>, outcome: Outcome)

  function Queue(s: State, q: QueueId): seq<nat> {
    if q in s.queues then s.queues[q] else []
  }

  function Capacity(cfg: Config, q: QueueId): nat {
    if q.Notify? then cfg.pipeCapacity else cfg.maxDescriptors
  }

  function Go(s: State, id: nat, stage: Stage): State
    requires id in s.flights
  {
    s.(flights := s.flights[id := s.flights[id].(stage := stage)])
  }

  /** The state after message `id` has undergone an operation. */
  function Perform(cfg: Config, s: State, id: nat, op: Op): State
    requires id in s.flights
  {
    match op
    case Continue(stage) => Go(s, id, stage)
    case Alloc(pool, granted, refused) =>
      var i := FirstFree(cfg, s.owner, pool, 0);
      if i < 0 then Go(s, id, refused)
      else Go(s.(owner := s.owner[Slot(pool, i) := id]), id, granted(i))
    case Free(slots, stage) => Go(s.(owner := s.owner - slots), id, stage)
    case Write(slot, data, stage) => Go(s.(mem := Store(cfg, s.mem, slot, data)), id, stage)
    case Enqueue(q, x) =>
      // a full ring loses the message
      if |Queue(s, q)| >= Capacity(cfg, q) then Go(s, id, Lost)
      else s.(queues := s.queues[q := Queue(s, q) + [id]],
              flights := s.flights[id := s.flights[id].(desc := x, stage := Queued(q))])
    case Answer(pod, index) =>
      // the response pipe registered under this index, if there is one
      if (pod, index) in s.waiting then Go(s.(waiting := s.waiting - {(pod, index)}), id, Replied)
      else Go(s, id, Orphaned)
    case Leave(slots, o) =>
      s.(owner := s.owner - slots, flights := s.flights - {id}, outcomes := s.outcomes[id := o])
  }

  // ----------------------------------------------------------------- threads

  datatype Thread =
    | DpaTx | DpaRx | Sidecar | BridgeClient | Nobody
    | Poller(pod: int) | Reader(pod: int) | Writer(pod: int)

  /** The thread that is working on a message. */
  function ThreadOf(f: Flight): Thread {
    match f.stage
    case WriteHeader(_, _) => Writer(f.msg.pod)
    case WriteBody(_, _, _) => Writer(f.msg.pod)
    case WriteAbort(_) => Writer(f.msg.pod)
    case TxTaken => DpaTx
    case TxCopy(_, _) => DpaTx
    case TxForward(_) => DpaTx
    case TxRetry => DpaTx
    case RouteTaken => Sidecar
    case Routing(_) => Sidecar
    case RouteForward => Sidecar
    case BridgeBody(_) => Sidecar
    case BridgeFreeBody(_, _) => Sidecar
    case BridgeFreeHeader(_, _) => Sidecar
    case DropBody(onDpa) => if onDpa then DpaRx else Sidecar
    case DropHeader(onDpa) => if onDpa then DpaRx else Sidecar
    case RxTaken => DpaRx
    case RxRetry => DpaRx
    case BodyCopy(_, _) => DpaRx
    case HeaderStart(_) => DpaRx
    case HeaderCopy(_, _, _) => DpaRx
    case RxForward(_, _) => DpaRx
    case Polled => Poller(f.desc.dstPodId)
    case ReadTaken => Reader(f.desc.dstPodId)
    case ReadHeader(_) => Reader(f.desc.dstPodId)
    case Handling(_, _) => Reader(f.desc.dstPodId)
    case ReadFreeBody(_, _) => Reader(f.desc.dstPodId)
    case Inject(_, _) => BridgeClient
    case InjectAbort(_) => BridgeClient
    case Queued(_) => Nobody
    case Replied => Nobody
    case Orphaned => Nobody
    case Lost => Nobody
  }

  ghost predicate Idle(s: State, t: Thread) {
    forall id | id in s.flights :: ThreadOf(s.flights[id]) != t
  }

  /** Who takes from a queue, and into which stage. */
  function Taker(q: QueueId): Thread {
    match q
    case TxSq(_) => DpaTx
    case SidecarTxSq => Sidecar
    case SidecarRxSq => DpaRx
    case RxSq(pod) => Poller(pod)
    case Notify(pod) => Reader(pod)
  }

  function TakenStage(q: QueueId, x: SwDescriptor): Stage {
    if x.valid != 1 then Lost else
    match q
    case TxSq(_) => TxTaken
    case SidecarTxSq => RouteTaken
    case SidecarRxSq => RxTaken
    case RxSq(_) => Polled
    case Notify(_) => ReadTaken
  }

  // ----------------------------------------------------------------- what each thread does next

  /** dpumesh_write */
  function WriterOp(cfg: Config, f: Flight): Op {
    var header := HostTxHeader(Service(cfg, f.msg.pod));
    var body := HostTxBody(Service(cfg, f.msg.pod));
    match f.stage
    case WriteHeader(h, false) => Write(Slot(header, h), f.msg.header, WriteHeader(h, true))
    case WriteHeader(h, true) => Alloc(body, b => WriteBody(h, b, false), WriteAbort(h))
    case WriteAbort(h) => Leave({Slot(header, h)}, Refused(f.msg))
    case WriteBody(h, b, false) => Write(Slot(body, b), Carried(f.msg.body), WriteBody(h, b, true))
    case WriteBody(h, b, true) => Enqueue(TxSq(f.msg.pod), HostDescriptor(f.msg, h, b))
    case _ => Continue(f.stage)
  }

  /** _handle_host_tx */
  function DpaTxOp(cfg: Config, mem: map<Slot, Bytes>, f: Flight): Op {
    var x := f.desc;
    match f.stage
    case TxTaken =>
      if x.headerBufSlot < 0 || x.headerLen == 0 then Continue(TxForward(-1))
      else if ResolvePool(cfg, x.srcHeaderPoolType, x.srcHeaderPodId).None? then Continue(TxForward(-1))
      else if HeaderRef(cfg, x).None? then Continue(TxRetry)
      else Alloc(DpuTxHeader, d => TxCopy(d, Fresh), TxRetry)
    case TxCopy(d, Fresh) => Continue(TxCopy(d, Loaded(LoadRef(cfg, mem, HeaderRef(cfg, x), x.headerLen))))
    case TxCopy(d, Loaded(data)) => Write(Slot(DpuTxHeader, d), data, TxCopy(d, Stored))
    case TxCopy(d, Stored) => Free(RefSet(HeaderRef(cfg, x)), TxForward(d))
    case TxForward(d) => Enqueue(SidecarTxSq, SidecarDescriptor(x, d))
    case TxRetry => Enqueue(TxSq(x.srcPodId), x)
    case _ => Continue(f.stage)
  }

  /** _route_descriptor after the routing decision, _deliver_bridge_response and the two cleanups */
  function SidecarOp(cfg: Config, mem: map<Slot, Bytes>, f: Flight): Op {
    var x := f.desc;
    match f.stage
    case RouteTaken =>
      Continue(Routing(if x.headerBufSlot >= 0 && x.headerLen > 0
                       then Load(cfg, mem, Slot(DpuTxHeader, x.headerBufSlot), x.headerLen) else []))
    case RouteForward => Enqueue(SidecarRxSq, x)
    case BridgeBody(header) =>
      if BodyRef(cfg, x).None? || x.bodyLen == 0 then Continue(BridgeFreeHeader(header, []))
      else Continue(BridgeFreeBody(header, LoadRef(cfg, mem, BodyRef(cfg, x), x.bodyLen)))
    case BridgeFreeBody(header, body) => Free(RefSet(BodyRef(cfg, x)), BridgeFreeHeader(header, body))
    case BridgeFreeHeader(header, body) => Leave(RefSet(HeaderRef(cfg, x)), Answered(f.msg, header, DropInvalid(body)))
    case DropBody(onDpa) => Free(RefSet(BodyRef(cfg, x)), DropHeader(onDpa))
    case DropHeader(_) => Leave(RefSet(HeaderRef(cfg, x)), Discarded(f.msg))
    case _ => Continue(f.stage)
  }

  /** _handle_bridge_client */
  function BridgeOp(cfg: Config, f: Flight): Op {
    match f.stage
    case Inject(b, false) =>
      if |f.msg.body| > cfg.slotSize then Continue(InjectAbort(b))
      else Write(Slot(DpuRxBody, b), f.msg.body, Inject(b, true))
    case InjectAbort(b) => Leave({Slot(DpuRxBody, b)}, Refused(f.msg))
    case Inject(b, true) => Enqueue(SidecarRxSq, IngressDescriptor(f.msg, b))
    case _ => Continue(f.stage)
  }

  /** _dma_case2 and _dma_case3 */
  function DpaRxOp(cfg: Config, mem: map<Slot, Bytes>, f: Flight): Op {
    var x := f.desc;
    var header := HostRxHeader(Service(cfg, x.dstPodId));
    var body := HostRxBody(Service(cfg, x.dstPodId));
    match f.stage
    case RxTaken =>
      if BodyRef(cfg, x).None? || x.bodyLen == 0 then
        Continue(if x.Case() == CASE_LOCAL then HeaderStart(-1) else RxForward(-1, -1))
      else Alloc(body, b => BodyCopy(b, Fresh), RxRetry)
    case RxRetry => Enqueue(SidecarRxSq, x)
    case BodyCopy(b, Fresh) => Continue(BodyCopy(b, Loaded(LoadRef(cfg, mem, BodyRef(cfg, x), x.bodyLen))))
    case BodyCopy(b, Loaded(data)) => Write(Slot(body, b), data, BodyCopy(b, Stored))
    case BodyCopy(b, Stored) =>
      Free(RefSet(BodyRef(cfg, x)), if x.Case() == CASE_LOCAL then HeaderStart(b) else RxForward(b, -1))
    case HeaderStart(b) =>
      if HeaderRef(cfg, x).None? || x.headerLen == 0 then Continue(RxForward(b, -1))
      else Alloc(header, h => HeaderCopy(b, h, Fresh), Lost)
    case HeaderCopy(b, h, Fresh) =>
      Continue(HeaderCopy(b, h, Loaded(LoadRef(cfg, mem, HeaderRef(cfg, x), x.headerLen))))
    case HeaderCopy(b, h, Loaded(data)) => Write(Slot(header, h), data, HeaderCopy(b, h, Stored))
    case HeaderCopy(b, h, Stored) => Free(RefSet(HeaderRef(cfg, x)), RxForward(b, h))
    case RxForward(b, h) => Enqueue(RxSq(x.dstPodId), RxDescriptor(x, b, h))
    case _ => Continue(f.stage)
  }

  /** A read into a caller's buffer of `cap` bytes keeps the last byte for the terminator. */
  function ReadLen(len: int, cap: int): int {
    if len < cap then len else cap - 1
  }

  /** dpumesh_poller_fn, dpumesh_read and dpumesh_read_response */
  function WorkerOp(cfg: Config, mem: map<Slot, Bytes>, f: Flight): Op {
    var x := f.desc;
    var header := HostRxHeader(Service(cfg, x.dstPodId));
    var body := HostRxBody(Service(cfg, x.dstPodId));
    match f.stage
    case Polled =>
      if x.IsResponse() then Answer(x.dstPodId, x.reqId % MAX_PENDING) else Enqueue(Notify(x.dstPodId), x)
    case ReadTaken =>
      Continue(ReadHeader(
        if x.headerBufSlot >= 0 && x.headerLen > 0 && (x.IsResponse() || x.Case() != CASE_INGRESS)
        then Load(cfg, mem, Slot(header, x.headerBufSlot), ReadLen(x.headerLen, MAX_HEADER)) else []))
    case ReadHeader(text) =>
      Continue(Handling(text,
        if x.bodyBufSlot >= 0 && x.bodyLen > 0
        then Load(cfg, mem, Slot(body, x.bodyBufSlot), ReadLen(x.bodyLen, cfg.slotSize)) else []))
    case Handling(text, data) =>
      Free(if x.headerBufSlot >= 0 then {Slot(header, x.headerBufSlot)} else {}, ReadFreeBody(text, data))
    case ReadFreeBody(text, data) =>
      Leave(if x.bodyBufSlot >= 0 then {Slot(body, x.bodyBufSlot)} else {},
            Delivered(f.msg, x.dstPodId, text, data, x.reqId, x.IsResponse()))
    case _ => Continue(f.stage)
  }

  /** The next operation on a message, by the thread that holds it. */
  function NextOp(cfg: Config, mem: map<Slot, Bytes>, f: Flight): Op {
    match ThreadOf(f)
    case Writer(_) => WriterOp(cfg, f)
    case DpaTx => DpaTxOp(cfg, mem, f)
    case DpaRx => if f.stage.DropBody? || f.stage.DropHeader? then SidecarOp(cfg, mem, f) else DpaRxOp(cfg, mem, f)
    case Sidecar => SidecarOp(cfg, mem, f)
    case Poller(_) => WorkerOp(cfg, mem, f)
    case Reader(_) => WorkerOp(cfg, mem, f)
    case BridgeClient => BridgeOp(cfg, f)
    case Nobody => Continue(f.stage)
  }

  // ----------------------------------------------------------------- steps

  datatype Decision = Forward(pod: int) | ToBridge | NoWorker

  datatype Step =
    | BeginWrite(msg: Msg)
    | BeginInject(msg: Msg)
    | Take(q: QueueId)
    | TakeReply(id: nat)
    | Decide(id: nat, decision: Decision)
    | LosePod(id: nat)
    | Advance(id: nat)

  ghost predicate Enabled(cfg: Config, s: State, step: Step) {
    match step
    case BeginWrite(m) => ValidMsg(cfg, m) && !m.bridge && Idle(s, Writer(m.pod))
    case BeginInject(m) => ValidMsg(cfg, m) && m.bridge
    case Take(q) => Queue(s, q) != [] && Queue(s, q)[0] in s.flights && Idle(s, Taker(q))
    case TakeReply(id) =>
      id in s.flights && s.flights[id].stage.Replied? && Idle(s, Reader(s.flights[id].desc.dstPodId))
    case Decide(id, d) =>
      && id in s.flights && s.flights[id].stage.Routing?
      && (d.ToBridge? ==> s.flights[id].desc.IsResponse())
      && (d.Forward? ==> d.pod in cfg.registry)
    case LosePod(id) => id in s.flights && s.flights[id].stage.RxTaken?
    case Advance(id) =>
      id in s.flights && !ThreadOf(s.flights[id]).Nobody? && !s.flights[id].stage.Routing?
  }

  /** The writer's first operation.  A request registers its response pipe before it allocates, and
      stays registered when the allocation is refused. */
  function BeginWriteStep(cfg: Config, s: State, m: Msg): State {
    var waiting := if m.response then s.waiting else s.waiting + {(m.pod, m.reqId % MAX_PENDING)};
    var h := FirstFree(cfg, s.owner, HostTxHeader(Service(cfg, m.pod)), 0);
    if h < 0 then
      s.(waiting := waiting, next := s.next + 1, outcomes := s.outcomes[s.next := Refused(m)])
    else
      s.(waiting := waiting, next := s.next + 1,
         owner := s.owner[Slot(HostTxHeader(Service(cfg, m.pod)), h) := s.next],
         flights := s.flights[s.next := Flight(m, NoDesc, WriteHeader(h, false))])
  }

  function BeginInjectStep(cfg: Config, s: State, m: Msg): State {
    var b := FirstFree(cfg, s.owner, DpuRxBody, 0);
    if b < 0 then
      s.(next := s.next + 1, outcomes := s.outcomes[s.next := Refused(m)])
    else
      s.(next := s.next + 1, owner := s.owner[Slot(DpuRxBody, b) := s.next],
         flights := s.flights[s.next := Flight(m, NoDesc, Inject(b, false))])
  }

  function TakeStep(s: State, q: QueueId): State
    requires Queue(s, q) != [] && Queue(s, q)[0] in s.flights
  {
    Go(s.(queues := s.queues[q := Queue(s, q)[1..]]), Queue(s, q)[0],
       TakenStage(q, s.flights[Queue(s, q)[0]].desc))
  }

  function DecideStep(s: State, id: nat, d: Decision): State
    requires id in s.flights && s.flights[id].stage.Routing?
  {
    var f := s.flights[id];
    match d
    case Forward(pod) =>
      s.(flights := s.flights[id := f.(desc := RoutedDescriptor(f.desc, pod), stage := RouteForward)])
    case ToBridge => Go(s, id, BridgeBody(f.stage.header))
    case NoWorker => Go(s, id, DropBody(false))
  }

  ghost function Apply(cfg: Config, s: State, step: Step): State
    requires Enabled(cfg, s, step)
  {
    match step
    case BeginWrite(m) => BeginWriteStep(cfg, s, m)
    case BeginInject(m) => BeginInjectStep(cfg, s, m)
    case Take(q) => TakeStep(s, q)
    case TakeReply(id) => Go(s, id, ReadTaken)
    case Decide(id, d) => DecideStep(s, id, d)
    case LosePod(id) => Go(s, id, DropBody(true))
    case Advance(id) => Perform(cfg, s, id, NextOp(cfg, s.mem, s.flights[id]))
  }

  /** A run: every state but the first follows from the one before by an enabled step. */
  ghost predicate Run(cfg: Config, states: seq<State>, steps: seq<Step>) {
    && |states| == |steps| + 1
    && forall i | 0 <= i < |steps| ::
         Enabled(cfg, states[i], steps[i]) && states[i + 1] == Apply(cfg, states[i], steps[i])
  }
}
