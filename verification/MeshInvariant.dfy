/** What is true of every message in flight, stage by stage. */
module MeshInvariant {
  import opened Descriptor
  import opened Mesh
  import opened Utf8
  import opened Ledger

  // ----------------------------------------------------------------- who owns what

  function TxHeaderSlot(cfg: Config, m: Msg, h: int): Slot { Slot(HostTxHeader(Service(cfg, m.pod)), h) }
  function TxBodySlot(cfg: Config, m: Msg, b: int): Slot { Slot(HostTxBody(Service(cfg, m.pod)), b) }
  function RxHeaderSlot(cfg: Config, f: Flight, h: int): Slot { Slot(HostRxHeader(Service(cfg, f.desc.dstPodId)), h) }
  function RxBodySlot(cfg: Config, f: Flight, b: int): Slot { Slot(HostRxBody(Service(cfg, f.desc.dstPodId)), b) }

  function SourceSlots(cfg: Config, f: Flight): set<Slot> {
    RefSet(HeaderRef(cfg, f.desc)) + RefSet(BodyRef(cfg, f.desc))
  }

  /** The landed slots of a descriptor on its way to, or in, the destination worker. */
  function LandedSlots(cfg: Config, f: Flight): set<Slot> {
    {RxBodySlot(cfg, f, f.desc.bodyBufSlot)} +
    (if f.desc.headerBufSlot >= 0 then {RxHeaderSlot(cfg, f, f.desc.headerBufSlot)} else {})
  }

  /** The slots a message owns, read off its descriptor and its thread's local variables. */
  function Owned(cfg: Config, f: Flight): set<Slot> {
    match f.stage
    case WriteHeader(h, _) => {TxHeaderSlot(cfg, f.msg, h)}
    case WriteAbort(h) => {TxHeaderSlot(cfg, f.msg, h)}
    case WriteBody(h, b, _) => {TxHeaderSlot(cfg, f.msg, h), TxBodySlot(cfg, f.msg, b)}
    case Queued(q) => if q.RxSq? || q.Notify? then LandedSlots(cfg, f) else SourceSlots(cfg, f)
    case TxTaken => SourceSlots(cfg, f)
    case TxRetry => SourceSlots(cfg, f)
    case TxCopy(d, _) => SourceSlots(cfg, f) + {Slot(DpuTxHeader, d)}
    case TxForward(d) => RefSet(BodyRef(cfg, f.desc)) + {Slot(DpuTxHeader, d)}
    case RouteTaken => SourceSlots(cfg, f)
    case Routing(_) => SourceSlots(cfg, f)
    case RouteForward => SourceSlots(cfg, f)
    case BridgeBody(_) => SourceSlots(cfg, f)
    case BridgeFreeBody(_, _) => SourceSlots(cfg, f)
    case BridgeFreeHeader(_, _) => RefSet(HeaderRef(cfg, f.desc))
    case DropBody(_) => SourceSlots(cfg, f)
    case DropHeader(_) => RefSet(HeaderRef(cfg, f.desc))
    case Inject(b, _) => {Slot(DpuRxBody, b)}
    case InjectAbort(b) => {Slot(DpuRxBody, b)}
    case RxTaken => SourceSlots(cfg, f)
    case RxRetry => SourceSlots(cfg, f)
    case BodyCopy(b, _) => SourceSlots(cfg, f) + {RxBodySlot(cfg, f, b)}
    case HeaderStart(b) => RefSet(HeaderRef(cfg, f.desc)) + {RxBodySlot(cfg, f, b)}
    case HeaderCopy(b, h, _) =>
      RefSet(HeaderRef(cfg, f.desc)) + {RxBodySlot(cfg, f, b), RxHeaderSlot(cfg, f, h)}
    case RxForward(b, h) =>
      {RxBodySlot(cfg, f, b)} + (if h >= 0 then {RxHeaderSlot(cfg, f, h)} else {})
    case Polled => LandedSlots(cfg, f)
    case Replied => LandedSlots(cfg, f)
    case Orphaned => LandedSlots(cfg, f)
    case ReadTaken => LandedSlots(cfg, f)
    case ReadHeader(_) => LandedSlots(cfg, f)
    case Handling(_, _) => LandedSlots(cfg, f)
    case ReadFreeBody(_, _) => {RxBodySlot(cfg, f, f.desc.bodyBufSlot)}
    case Lost => {}
  }

  /** The owned slots that already hold the whole header. */
  function HeaderHolders(cfg: Config, f: Flight): set<Slot> {
    match f.stage
    case WriteHeader(h, written) => if written then {TxHeaderSlot(cfg, f.msg, h)} else {}
    case WriteBody(h, _, _) => {TxHeaderSlot(cfg, f.msg, h)}
    case WriteAbort(_) => {}
    case TxCopy(d, c) => RefSet(HeaderRef(cfg, f.desc)) + (if c.Stored? then {Slot(DpuTxHeader, d)} else {})
    case TxForward(d) => {Slot(DpuTxHeader, d)}
    case HeaderCopy(_, h, c) =>
      RefSet(HeaderRef(cfg, f.desc)) + (if c.Stored? then {RxHeaderSlot(cfg, f, h)} else {})
    case RxForward(_, h) => if h >= 0 then {RxHeaderSlot(cfg, f, h)} else {}
    case Inject(_, _) => {}
    case InjectAbort(_) => {}
    case ReadFreeBody(_, _) => {}
    case Lost => {}
    case _ =>
      if Landed(f.stage) then
        if f.desc.headerBufSlot >= 0 then {RxHeaderSlot(cfg, f, f.desc.headerBufSlot)} else {}
      else RefSet(HeaderRef(cfg, f.desc))
  }

  /** The owned slots that already hold the whole body. */
  function BodyHolders(cfg: Config, f: Flight): set<Slot> {
    match f.stage
    case WriteHeader(_, _) => {}
    case WriteAbort(_) => {}
    case WriteBody(_, b, written) => if written then {TxBodySlot(cfg, f.msg, b)} else {}
    case Inject(b, written) => if written then {Slot(DpuRxBody, b)} else {}
    case InjectAbort(_) => {}
    case BodyCopy(b, c) => RefSet(BodyRef(cfg, f.desc)) + (if c.Stored? then {RxBodySlot(cfg, f, b)} else {})
    case HeaderStart(b) => {RxBodySlot(cfg, f, b)}
    case HeaderCopy(b, _, _) => {RxBodySlot(cfg, f, b)}
    case RxForward(b, _) => {RxBodySlot(cfg, f, b)}
    case BridgeFreeHeader(_, _) => {}
    case DropHeader(_) => {}
    case Lost => {}
    case _ =>
      if Landed(f.stage) then {RxBodySlot(cfg, f, f.desc.bodyBufSlot)}
      else RefSet(BodyRef(cfg, f.desc))
  }

  /** The message sits in the destination worker's ring, a pipe, or with its poller or reader. */
  predicate Landed(st: Stage) {
    match st
    case Queued(q) => q.RxSq? || q.Notify?
    case Polled => true
    case Replied => true
    case Orphaned => true
    case ReadTaken => true
    case ReadHeader(_) => true
    case Handling(_, _) => true
    case ReadFreeBody(_, _) => true
    case _ => false
  }

  // ----------------------------------------------------------------- shape of a message in flight

  predicate InPool(cfg: Config, i: int) {
    0 <= i < cfg.numSlots
  }

  predicate CarriesMsg(m: Msg, x: SwDescriptor) {
    && x.reqId == m.reqId
    && x.IsResponse() == m.response
    && x.headerLen == |m.header|
    && x.bodyLen == |Carried(m.body)|
    && x.valid == 1
    && x.stepId == 0
    && 0 <= x.flags < 128
  }

  /** The descriptor still names the writer's own slots. */
  predicate HostRefs(cfg: Config, m: Msg, x: SwDescriptor) {
    && !m.bridge
    && CarriesMsg(m, x)
    && x.srcHeaderPoolType == POOL_HOST_TX_HEADER && x.srcHeaderPodId == m.pod
    && x.srcBodyPoolType == POOL_HOST_TX_BODY && x.srcBodyPodId == m.pod
    && InPool(cfg, x.srcHeaderBufSlot) && InPool(cfg, x.srcBodyBufSlot)
    && x.headerBufSlot == x.srcHeaderBufSlot && x.bodyBufSlot == x.srcBodyBufSlot
    && x.srcPodId == m.pod && x.dstPodId == 0
  }

  /** The header has moved to the DPU, the body is still with the writer. */
  predicate DpuRefs(cfg: Config, m: Msg, x: SwDescriptor) {
    && !m.bridge
    && CarriesMsg(m, x)
    && x.srcHeaderPoolType == POOL_DPU_TX_HEADER && x.srcHeaderPodId == 0
    && x.srcBodyPoolType == POOL_HOST_TX_BODY && x.srcBodyPodId == m.pod
    && InPool(cfg, x.srcHeaderBufSlot) && InPool(cfg, x.srcBodyBufSlot)
    && x.headerBufSlot == x.srcHeaderBufSlot && x.bodyBufSlot == x.srcBodyBufSlot
    && x.srcPodId == m.pod
  }

  /** A bridge request: no header slot, the body in the DPU's RX pool. */
  predicate IngressRefs(cfg: Config, m: Msg, x: SwDescriptor) {
    && m.bridge
    && CarriesMsg(m, x)
    && x.srcHeaderPoolType == POOL_NONE && x.srcHeaderPodId == 0
    && x.srcBodyPoolType == POOL_DPU_RX_BODY && x.srcBodyPodId == 0
    && x.srcHeaderBufSlot == -1 && InPool(cfg, x.srcBodyBufSlot)
    && x.headerBufSlot == -1 && x.bodyBufSlot == x.srcBodyBufSlot
    && x.srcPodId == 0
    && x.Case() == CASE_INGRESS
    && x.dstPodId == m.pod
    && |m.body| <= cfg.slotSize
  }

  /** On its way from the sidecar to a registered destination. */
  predicate RoutedRefs(cfg: Config, m: Msg, x: SwDescriptor) {
    && x.dstPodId in cfg.registry
    && if m.bridge then IngressRefs(cfg, m, x)
       else DpuRefs(cfg, m, x) && x.Case() == CASE_LOCAL
  }

  predicate LandedRefs(cfg: Config, m: Msg, x: SwDescriptor) {
    && CarriesMsg(m, x)
    && x.dstPodId in cfg.registry
    && InPool(cfg, x.bodyBufSlot)
    && (if m.bridge then x.headerBufSlot == -1 else InPool(cfg, x.headerBufSlot))
    && (if m.bridge then x.srcPodId == 0 && x.dstPodId == m.pod && |m.body| <= cfg.slotSize else x.srcPodId == m.pod)
    && x.Case() == (if m.bridge then CASE_INGRESS else CASE_LOCAL)
    && x.srcHeaderPoolType == POOL_NONE && x.srcHeaderPodId == 0 && x.srcHeaderBufSlot == -1
    && x.srcBodyPoolType == POOL_NONE && x.srcBodyPodId == 0 && x.srcBodyBufSlot == -1
  }

  /** A body copied out of slots: whatever it is it fits a slot, and it is the carried body whenever
      that fits one. */
  predicate BodyData(cfg: Config, m: Msg, data: Bytes) {
    && |data| == Min(|Carried(m.body)|, cfg.slotSize)
    && (|Carried(m.body)| <= cfg.slotSize ==> data == Carried(m.body))
  }

  /** A body as the bridge answers with it: what of it is UTF-8. */
  predicate BodyAnswered(cfg: Config, m: Msg, text: Bytes) {
    && |text| <= cfg.slotSize
    && (|Carried(m.body)| <= cfg.slotSize ==> text == DropInvalid(Carried(m.body)))
  }

  /** A body as a worker reads it, cut to one byte less than a slot. */
  predicate BodyRead(cfg: Config, m: Msg, data: Bytes) {
    var n := |Carried(m.body)|;
    && |data| == ReadLen(n, cfg.slotSize)
    && (n <= cfg.slotSize ==> data == Carried(m.body)[..ReadLen(n, cfg.slotSize)])
  }

  /** Descriptor and local variables agree with the message and the stage. */
  predicate Shape(cfg: Config, f: Flight) {
    var m := f.msg;
    var x := f.desc;
    match f.stage
    case WriteHeader(h, _) => !m.bridge && InPool(cfg, h)
    case WriteAbort(h) => !m.bridge && InPool(cfg, h)
    case WriteBody(h, b, _) => !m.bridge && InPool(cfg, h) && InPool(cfg, b)
    case Queued(q) =>
      (match q
       case TxSq(pod) => HostRefs(cfg, m, x) && pod == m.pod
       case SidecarTxSq => DpuRefs(cfg, m, x) && x.dstPodId == 0
       case SidecarRxSq => RoutedRefs(cfg, m, x)
       case RxSq(pod) => LandedRefs(cfg, m, x) && pod == x.dstPodId
       case Notify(pod) => LandedRefs(cfg, m, x) && pod == x.dstPodId && !m.response)
    case TxTaken => HostRefs(cfg, m, x)
    case TxRetry => HostRefs(cfg, m, x)
    case TxCopy(d, c) => HostRefs(cfg, m, x) && InPool(cfg, d) && (c.Loaded? ==> c.data == m.header)
    case TxForward(d) => HostRefs(cfg, m, x) && InPool(cfg, d)
    case RouteTaken => DpuRefs(cfg, m, x) && x.dstPodId == 0
    case Routing(header) => DpuRefs(cfg, m, x) && x.dstPodId == 0 && header == m.header
    case RouteForward => RoutedRefs(cfg, m, x)
    case BridgeBody(header) => DpuRefs(cfg, m, x) && m.response && header == m.header
    case BridgeFreeBody(header, body) =>
      DpuRefs(cfg, m, x) && m.response && header == m.header && BodyData(cfg, m, body)
    case BridgeFreeHeader(header, body) =>
      DpuRefs(cfg, m, x) && m.response && header == m.header && BodyData(cfg, m, body)
    case DropBody(onDpa) => if onDpa then RoutedRefs(cfg, m, x) else DpuRefs(cfg, m, x)
    case DropHeader(onDpa) => if onDpa then RoutedRefs(cfg, m, x) else DpuRefs(cfg, m, x)
    case Inject(b, written) => m.bridge && InPool(cfg, b) && (written ==> |m.body| <= cfg.slotSize)
    case InjectAbort(b) => m.bridge && InPool(cfg, b)
    case RxTaken => RoutedRefs(cfg, m, x)
    case RxRetry => RoutedRefs(cfg, m, x)
    case BodyCopy(b, c) =>
      RoutedRefs(cfg, m, x) && InPool(cfg, b) && (c.Loaded? ==> BodyData(cfg, m, c.data))
    case HeaderStart(b) => RoutedRefs(cfg, m, x) && !m.bridge && InPool(cfg, b)
    case HeaderCopy(b, h, c) =>
      && RoutedRefs(cfg, m, x) && !m.bridge && InPool(cfg, b) && InPool(cfg, h)
      && (c.Loaded? ==> c.data == m.header)
    case RxForward(b, h) =>
      RoutedRefs(cfg, m, x) && InPool(cfg, b) && (if m.bridge then h == -1 else InPool(cfg, h))
    case Polled => LandedRefs(cfg, m, x)
    case Replied => LandedRefs(cfg, m, x) && m.response
    case Orphaned => LandedRefs(cfg, m, x) && m.response
    case ReadTaken => LandedRefs(cfg, m, x)
    case ReadHeader(header) => LandedRefs(cfg, m, x) && header == m.header
    case Handling(header, body) => LandedRefs(cfg, m, x) && header == m.header && BodyRead(cfg, m, body)
    case ReadFreeBody(header, body) =>
      LandedRefs(cfg, m, x) && header == m.header && BodyRead(cfg, m, body)
    case Lost => false
  }

  ghost predicate FlightOk(cfg: Config, mem: map<Slot, Bytes>, f: Flight) {
    && ValidMsg(cfg, f.msg)
    && Shape(cfg, f)
    && (forall sl | sl in HeaderHolders(cfg, f) :: Holds(cfg, mem, sl, f.msg.header))
    && (|Carried(f.msg.body)| <= cfg.slotSize ==>
          forall sl | sl in BodyHolders(cfg, f) :: Holds(cfg, mem, sl, Carried(f.msg.body)))
  }

  /** A message that has left matches what its sender wrote. */
  predicate OutcomeOk(cfg: Config, o: Outcome) {
    match o
    case Delivered(m, pod, header, body, reqId, response) =>
      && pod in cfg.registry && (m.bridge ==> pod == m.pod)
      && header == m.header && reqId == m.reqId && response == m.response && BodyRead(cfg, m, body)
    case Answered(m, header, body) => m.response && header == m.header && BodyAnswered(cfg, m, body)
    case _ => true
  }

  /** What the invariant says of single messages. */
  ghost function MeshSpec(cfg: Config): Spec {
    Spec(cfg, f => Owned(cfg, f), (mem, f) => FlightOk(cfg, mem, f), o => OutcomeOk(cfg, o))
  }
}
