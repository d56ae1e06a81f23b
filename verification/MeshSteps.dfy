/** Every step of every thread keeps the invariant. */
module MeshSteps {
  import opened Options
  import opened Descriptor
  import opened Mesh
  import opened Ledger
  import opened MeshInvariant

  /** The slots whose bytes matter to a message are among those it owns. */
  lemma HoldersOwned(cfg: Config, f: Flight)
    requires Shape(cfg, f)
    ensures HeaderHolders(cfg, f) <= Owned(cfg, f)
    ensures BodyHolders(cfg, f) <= Owned(cfg, f)
  {
  }

  lemma SpecFramed(cfg: Config)
    ensures Framed(MeshSpec(cfg))
  {
    var spec := MeshSpec(cfg);
    forall mem: Memory, mem': Memory, f: Flight |
      && spec.ok(mem, f)
      && (forall sl | sl in spec.own(f) :: Contents(spec.cfg, mem', sl) == Contents(spec.cfg, mem, sl))
      ensures spec.ok(mem', f)
    {
      HoldersOwned(cfg, f);
    }
  }

  // ----------------------------------------------------------------- room in every queue

  /** The slot that justifies a message's place in queue `q`. */
  function Anchor(cfg: Config, f: Flight, q: QueueId): Slot {
    if q.RxSq? || q.Notify? then RxBodySlot(cfg, f, f.desc.bodyBufSlot)
    else if f.msg.bridge then Slot(DpuRxBody, f.desc.srcBodyBufSlot)
    else if q.TxSq? then TxHeaderSlot(cfg, f.msg, f.desc.srcHeaderBufSlot)
    else Slot(DpuTxHeader, f.desc.srcHeaderBufSlot)
  }

  /** The slots that can justify a place in queue `q`: one pool, or two for the sidecar's RX ring. */
  function AnchorSlots(cfg: Config, q: QueueId): (r: set<Slot>)
    ensures |r| <= (if q.SidecarRxSq? then 2 * cfg.numSlots else cfg.numSlots)
  {
    match q
    case TxSq(pod) => PoolSlots(cfg, HostTxHeader(Service(cfg, pod)))
    case SidecarTxSq => PoolSlots(cfg, DpuTxHeader)
    case SidecarRxSq => PoolSlots(cfg, DpuTxHeader) + PoolSlots(cfg, DpuRxBody)
    case RxSq(pod) => PoolSlots(cfg, HostRxBody(Service(cfg, pod)))
    case Notify(pod) => PoolSlots(cfg, HostRxBody(Service(cfg, pod)))
  }

  /** A host writer's slots are where its descriptor says. */
  lemma HostRefsResolve(cfg: Config, m: Msg, x: SwDescriptor)
    requires ValidConfig(cfg) && ValidMsg(cfg, m) && HostRefs(cfg, m, x)
    ensures HeaderRef(cfg, x) == Some(Slot(HostTxHeader(Service(cfg, m.pod)), x.srcHeaderBufSlot))
    ensures BodyRef(cfg, x) == Some(Slot(HostTxBody(Service(cfg, m.pod)), x.srcBodyBufSlot))
  {
  }

  lemma DpuRefsResolve(cfg: Config, m: Msg, x: SwDescriptor)
    requires ValidConfig(cfg) && ValidMsg(cfg, m) && DpuRefs(cfg, m, x)
    ensures HeaderRef(cfg, x) == Some(Slot(DpuTxHeader, x.srcHeaderBufSlot))
    ensures BodyRef(cfg, x) == Some(Slot(HostTxBody(Service(cfg, m.pod)), x.srcBodyBufSlot))
  {
  }

  lemma IngressRefsResolve(cfg: Config, m: Msg, x: SwDescriptor)
    requires IngressRefs(cfg, m, x)
    ensures HeaderRef(cfg, x) == None
    ensures BodyRef(cfg, x) == Some(Slot(DpuRxBody, x.srcBodyBufSlot))
  {
  }

  lemma AnchorOwned(cfg: Config, f: Flight, q: QueueId)
    requires ValidConfig(cfg) && ValidMsg(cfg, f.msg) && Shape(cfg, f) && f.stage == Queued(q)
    ensures Anchor(cfg, f, q) in Owned(cfg, f)
    ensures Anchor(cfg, f, q) in AnchorSlots(cfg, q)
  {
    match q
    case TxSq(_) => HostRefsResolve(cfg, f.msg, f.desc);
    case SidecarTxSq => DpuRefsResolve(cfg, f.msg, f.desc);
    case SidecarRxSq =>
      if f.msg.bridge { IngressRefsResolve(cfg, f.msg, f.desc); } else { DpuRefsResolve(cfg, f.msg, f.desc); }
    case RxSq(_) =>
    case Notify(_) =>
  }

  lemma QueueAnchored(cfg: Config, mem: Memory, q: QueueId)
    requires ValidConfig(cfg)
    ensures AnchoredIn(MeshSpec(cfg), mem, q, g => Anchor(cfg, g, q), AnchorSlots(cfg, q))
  {
    var spec := MeshSpec(cfg);
    forall g: Flight | g.stage == Queued(q) && spec.ok(mem, g)
      ensures Anchor(cfg, g, q) in spec.own(g) && Anchor(cfg, g, q) in AnchorSlots(cfg, q)
    {
      AnchorOwned(cfg, g, q);
    }
  }

  /** A message that could be in queue `q` but is not leaves room for itself. */
  lemma Room(cfg: Config, s: State, q: QueueId, id: nat, f: Flight)
    requires ValidConfig(cfg) && Inv(MeshSpec(cfg), s)
    requires id in s.flights && !s.flights[id].stage.Queued?
    requires f.stage == Queued(q) && FlightOk(cfg, s.mem, f)
    requires Owned(cfg, f) == Owned(cfg, s.flights[id])
    ensures |Queue(s, q)| < Capacity(cfg, q)
  {
    QueueAnchored(cfg, s.mem, q);
    RoomLeft(MeshSpec(cfg), s, q, id, f, g => Anchor(cfg, g, q), AnchorSlots(cfg, q));
  }

  // ----------------------------------------------------------------- each operation is legal

  /** A message whose next operation is `Advance`d, seen on its own. */
  ghost predicate Alone(cfg: Config, mem: Memory, f: Flight) {
    ValidConfig(cfg) && MemOk(cfg, mem) && FlightOk(cfg, mem, f)
  }

  /** Filling one more slot with the header or the body. */
  lemma StoredOk(cfg: Config, mem: Memory, f: Flight, g: Flight, sl: Slot, data: Bytes)
    requires Alone(cfg, mem, f) && g.msg == f.msg && Shape(cfg, g)
    requires HeaderHolders(cfg, g) <= HeaderHolders(cfg, f) + {sl}
    requires BodyHolders(cfg, g) <= BodyHolders(cfg, f) + {sl}
    requires sl in HeaderHolders(cfg, g) ==> data == f.msg.header && |data| <= cfg.slotSize
    requires sl in BodyHolders(cfg, g) && |Carried(f.msg.body)| <= cfg.slotSize ==> data == Carried(f.msg.body)
    ensures FlightOk(cfg, Store(cfg, mem, sl, data), g)
  {
    StoreEffect(cfg, mem, sl, data);
    var mem' := Store(cfg, mem, sl, data);
    forall t | t in HeaderHolders(cfg, g) ensures Holds(cfg, mem', t, g.msg.header) {
      if t != sl { assert Holds(cfg, mem, t, f.msg.header); }
    }
    if |Carried(g.msg.body)| <= cfg.slotSize {
      forall t | t in BodyHolders(cfg, g) ensures Holds(cfg, mem', t, Carried(g.msg.body)) {
        if t != sl { assert Holds(cfg, mem, t, Carried(f.msg.body)); }
      }
    }
  }

  lemma WriteHeaderLegal(cfg: Config, owner: map<Slot, nat>, mem: Memory, f: Flight)
    requires Alone(cfg, mem, f) && (f.stage.WriteHeader? || f.stage.WriteAbort?)
    ensures Legal(MeshSpec(cfg), owner, mem, f, WriterOp(cfg, f))
  {
    if f.stage.WriteHeader? && !f.stage.written {
      StoredOk(cfg, mem, f, f.(stage := WriteHeader(f.stage.h, true)), TxHeaderSlot(cfg, f.msg, f.stage.h),
        f.msg.header);
    }
  }

  lemma WriteBodyLegal(cfg: Config, owner: map<Slot, nat>, mem: Memory, f: Flight)
    requires Alone(cfg, mem, f) && f.stage.WriteBody? && !f.stage.written
    ensures Legal(MeshSpec(cfg), owner, mem, f, WriterOp(cfg, f))
  {
    StoredOk(cfg, mem, f, f.(stage := WriteBody(f.stage.h, f.stage.b, true)), TxBodySlot(cfg, f.msg, f.stage.b),
      Carried(f.msg.body));
  }

  lemma WrittenLegal(cfg: Config, owner: map<Slot, nat>, mem: Memory, f: Flight)
    requires Alone(cfg, mem, f) && f.stage.WriteBody? && f.stage.written
    ensures Legal(MeshSpec(cfg), owner, mem, f, WriterOp(cfg, f))
  {
    HostRefsResolve(cfg, f.msg, HostDescriptor(f.msg, f.stage.h, f.stage.b));
  }

  lemma TxTakenLegal(cfg: Config, owner: map<Slot, nat>, mem: Memory, f: Flight)
    requires Alone(cfg, mem, f)
    requires var st := f.stage; st.TxTaken? || st.TxRetry?
    ensures Legal(MeshSpec(cfg), owner, mem, f, DpaTxOp(cfg, mem, f))
  {
    HostRefsResolve(cfg, f.msg, f.desc);
  }

  lemma TxLoadLegal(cfg: Config, owner: map<Slot, nat>, mem: Memory, f: Flight)
    requires Alone(cfg, mem, f) && f.stage.TxCopy? && f.stage.copy.Fresh?
    ensures Legal(MeshSpec(cfg), owner, mem, f, DpaTxOp(cfg, mem, f))
  {
    HostRefsResolve(cfg, f.msg, f.desc);
    LoadEffect(cfg, mem, HeaderRef(cfg, f.desc).value, f.desc.headerLen, f.msg.header);
  }

  lemma TxStoreLegal(cfg: Config, owner: map<Slot, nat>, mem: Memory, f: Flight)
    requires Alone(cfg, mem, f) && f.stage.TxCopy? && f.stage.copy.Loaded?
    ensures Legal(MeshSpec(cfg), owner, mem, f, DpaTxOp(cfg, mem, f))
  {
    StoredOk(cfg, mem, f, f.(stage := TxCopy(f.stage.d, Stored)), Slot(DpuTxHeader, f.stage.d), f.stage.copy.data);
  }

  lemma TxFreeLegal(cfg: Config, owner: map<Slot, nat>, mem: Memory, f: Flight)
    requires Alone(cfg, mem, f) && f.stage.TxCopy? && f.stage.copy.Stored?
    ensures Legal(MeshSpec(cfg), owner, mem, f, DpaTxOp(cfg, mem, f))
  {
    HostRefsResolve(cfg, f.msg, f.desc);
  }

  lemma TxForwardLegal(cfg: Config, owner: map<Slot, nat>, mem: Memory, f: Flight)
    requires Alone(cfg, mem, f)
    requires var st := f.stage; st.TxForward?
    ensures Legal(MeshSpec(cfg), owner, mem, f, DpaTxOp(cfg, mem, f))
  {
    HostRefsResolve(cfg, f.msg, f.desc);
    DpuRefsResolve(cfg, f.msg, SidecarDescriptor(f.desc, f.stage.d));
  }

  lemma RouteLegal(cfg: Config, owner: map<Slot, nat>, mem: Memory, f: Flight)
    requires Alone(cfg, mem, f)
    requires var st := f.stage; st.RouteTaken? || st.RouteForward?
    ensures Legal(MeshSpec(cfg), owner, mem, f, SidecarOp(cfg, mem, f))
  {
    if f.stage.RouteTaken? {
      DpuRefsResolve(cfg, f.msg, f.desc);
      LoadEffect(cfg, mem, Slot(DpuTxHeader, f.desc.headerBufSlot), f.desc.headerLen, f.msg.header);
    }
  }

  lemma BridgeReadLegal(cfg: Config, owner: map<Slot, nat>, mem: Memory, f: Flight)
    requires Alone(cfg, mem, f) && f.stage.BridgeBody?
    ensures Legal(MeshSpec(cfg), owner, mem, f, SidecarOp(cfg, mem, f))
  {
    DpuRefsResolve(cfg, f.msg, f.desc);
    LoadEffect(cfg, mem, BodyRef(cfg, f.desc).value, f.desc.bodyLen, Carried(f.msg.body));
  }

  lemma BridgeFreeLegal(cfg: Config, owner: map<Slot, nat>, mem: Memory, f: Flight)
    requires Alone(cfg, mem, f) && f.stage.BridgeFreeBody?
    ensures Legal(MeshSpec(cfg), owner, mem, f, SidecarOp(cfg, mem, f))
  {
    DpuRefsResolve(cfg, f.msg, f.desc);
  }

  lemma BridgeAnswerLegal(cfg: Config, owner: map<Slot, nat>, mem: Memory, f: Flight)
    requires Alone(cfg, mem, f) && f.stage.BridgeFreeHeader?
    ensures Legal(MeshSpec(cfg), owner, mem, f, SidecarOp(cfg, mem, f))
  {
    DpuRefsResolve(cfg, f.msg, f.desc);
  }

  lemma DropLegal(cfg: Config, owner: map<Slot, nat>, mem: Memory, f: Flight)
    requires Alone(cfg, mem, f)
    requires var st := f.stage; st.DropBody? || st.DropHeader?
    ensures Legal(MeshSpec(cfg), owner, mem, f, SidecarOp(cfg, mem, f))
  {
    if f.msg.bridge { IngressRefsResolve(cfg, f.msg, f.desc); } else { DpuRefsResolve(cfg, f.msg, f.desc); }
  }

  lemma InjectWriteLegal(cfg: Config, owner: map<Slot, nat>, mem: Memory, f: Flight)
    requires Alone(cfg, mem, f) && f.stage.Inject? && !f.stage.written
    ensures Legal(MeshSpec(cfg), owner, mem, f, BridgeOp(cfg, f))
  {
    if |f.msg.body| <= cfg.slotSize {
      StoredOk(cfg, mem, f, f.(stage := Inject(f.stage.b, true)), Slot(DpuRxBody, f.stage.b), f.msg.body);
    }
  }

  lemma InjectedLegal(cfg: Config, owner: map<Slot, nat>, mem: Memory, f: Flight)
    requires Alone(cfg, mem, f) && f.stage.Inject? && f.stage.written
    ensures Legal(MeshSpec(cfg), owner, mem, f, BridgeOp(cfg, f))
  {
    IngressRefsResolve(cfg, f.msg, IngressDescriptor(f.msg, f.stage.b));
  }

  lemma InjectAbortLegal(cfg: Config, owner: map<Slot, nat>, mem: Memory, f: Flight)
    requires Alone(cfg, mem, f) && f.stage.InjectAbort?
    ensures Legal(MeshSpec(cfg), owner, mem, f, BridgeOp(cfg, f))
  {
  }

  /** The message keeps its slots, and gains slot `b` if it is granted one. */
  lemma BodySlotJoins(cfg: Config, mem: Memory, f: Flight, b: int)
    requires Alone(cfg, mem, f) && f.stage.RxTaken? && InPool(cfg, b)
    ensures Fits(MeshSpec(cfg), mem, f.(stage := BodyCopy(b, Fresh)), Owned(cfg, f) + {RxBodySlot(cfg, f, b)})
  {
  }

  lemma RxRefusedFits(cfg: Config, mem: Memory, f: Flight)
    requires Alone(cfg, mem, f) && f.stage.RxTaken?
    ensures Fits(MeshSpec(cfg), mem, f.(stage := RxRetry), Owned(cfg, f))
  {
  }

  lemma RxTakenAllocates(cfg: Config, mem: Memory, f: Flight)
    requires Alone(cfg, mem, f) && f.stage.RxTaken?
    ensures var op := DpaRxOp(cfg, mem, f);
      && op.Alloc? && op.pool == HostRxBody(Service(cfg, f.desc.dstPodId)) && op.refused == RxRetry
      && forall b :: op.granted(b) == BodyCopy(b, Fresh)
  {
    if f.msg.bridge { IngressRefsResolve(cfg, f.msg, f.desc); } else { DpuRefsResolve(cfg, f.msg, f.desc); }
  }

  /** An allocation is legal when both its results fit. */
  lemma AllocIsLegal(spec: Spec, owner: map<Slot, nat>, mem: Memory, f: Flight, op: Op)
    requires op.Alloc?
    requires var i := FirstFree(spec.cfg, owner, op.pool, 0);
      if i < 0 then Fits(spec, mem, f.(stage := op.refused), spec.own(f))
      else Fits(spec, mem, f.(stage := op.granted(i)), spec.own(f) + {Slot(op.pool, i)})
    ensures Legal(spec, owner, mem, f, op)
  {
  }

  lemma RxTakenLegal(cfg: Config, owner: map<Slot, nat>, mem: Memory, f: Flight)
    requires Alone(cfg, mem, f) && f.stage.RxTaken?
    ensures Legal(MeshSpec(cfg), owner, mem, f, DpaRxOp(cfg, mem, f))
  {
    var op := DpaRxOp(cfg, mem, f);
    RxTakenAllocates(cfg, mem, f);
    var i := FirstFree(cfg, owner, op.pool, 0);
    if i < 0 { RxRefusedFits(cfg, mem, f); } else { BodySlotJoins(cfg, mem, f, i); }
    AllocIsLegal(MeshSpec(cfg), owner, mem, f, op);
  }

  lemma RxRetryLegal(cfg: Config, owner: map<Slot, nat>, mem: Memory, f: Flight)
    requires Alone(cfg, mem, f) && f.stage.RxRetry?
    ensures Legal(MeshSpec(cfg), owner, mem, f, DpaRxOp(cfg, mem, f))
  {
  }

  lemma BodyLoadLegal(cfg: Config, owner: map<Slot, nat>, mem: Memory, f: Flight)
    requires Alone(cfg, mem, f) && f.stage.BodyCopy? && f.stage.copy.Fresh?
    ensures Legal(MeshSpec(cfg), owner, mem, f, DpaRxOp(cfg, mem, f))
  {
    if f.msg.bridge { IngressRefsResolve(cfg, f.msg, f.desc); } else { DpuRefsResolve(cfg, f.msg, f.desc); }
    LoadEffect(cfg, mem, BodyRef(cfg, f.desc).value, f.desc.bodyLen, Carried(f.msg.body));
  }

  lemma BodyStoreLegal(cfg: Config, owner: map<Slot, nat>, mem: Memory, f: Flight)
    requires Alone(cfg, mem, f) && f.stage.BodyCopy? && f.stage.copy.Loaded?
    ensures Legal(MeshSpec(cfg), owner, mem, f, DpaRxOp(cfg, mem, f))
  {
    StoredOk(cfg, mem, f, f.(stage := BodyCopy(f.stage.b, Stored)), RxBodySlot(cfg, f, f.stage.b), f.stage.copy.data);
  }

  lemma BodyFreeLegal(cfg: Config, owner: map<Slot, nat>, mem: Memory, f: Flight)
    requires Alone(cfg, mem, f) && f.stage.BodyCopy? && f.stage.copy.Stored?
    ensures Legal(MeshSpec(cfg), owner, mem, f, DpaRxOp(cfg, mem, f))
  {
    if f.msg.bridge { IngressRefsResolve(cfg, f.msg, f.desc); } else { DpuRefsResolve(cfg, f.msg, f.desc); }
  }

  lemma HeaderLoadLegal(cfg: Config, owner: map<Slot, nat>, mem: Memory, f: Flight)
    requires Alone(cfg, mem, f) && f.stage.HeaderCopy? && f.stage.copy.Fresh?
    ensures Legal(MeshSpec(cfg), owner, mem, f, DpaRxOp(cfg, mem, f))
  {
    DpuRefsResolve(cfg, f.msg, f.desc);
    LoadEffect(cfg, mem, HeaderRef(cfg, f.desc).value, f.desc.headerLen, f.msg.header);
  }

  lemma HeaderStoreLegal(cfg: Config, owner: map<Slot, nat>, mem: Memory, f: Flight)
    requires Alone(cfg, mem, f) && f.stage.HeaderCopy? && f.stage.copy.Loaded?
    ensures Legal(MeshSpec(cfg), owner, mem, f, DpaRxOp(cfg, mem, f))
  {
    StoredOk(cfg, mem, f, f.(stage := HeaderCopy(f.stage.b, f.stage.h, Stored)), RxHeaderSlot(cfg, f, f.stage.h),
      f.stage.copy.data);
  }

  lemma HeaderFreeLegal(cfg: Config, owner: map<Slot, nat>, mem: Memory, f: Flight)
    requires Alone(cfg, mem, f) && f.stage.HeaderCopy? && f.stage.copy.Stored?
    ensures Legal(MeshSpec(cfg), owner, mem, f, DpaRxOp(cfg, mem, f))
  {
    DpuRefsResolve(cfg, f.msg, f.desc);
  }

  lemma RxForwardLegal(cfg: Config, owner: map<Slot, nat>, mem: Memory, f: Flight)
    requires Alone(cfg, mem, f)
    requires var st := f.stage; st.RxForward?
    ensures Legal(MeshSpec(cfg), owner, mem, f, DpaRxOp(cfg, mem, f))
  {
  }

  lemma PollLegal(cfg: Config, owner: map<Slot, nat>, mem: Memory, f: Flight)
    requires Alone(cfg, mem, f) && f.stage.Polled? && !f.desc.IsResponse()
    ensures Legal(MeshSpec(cfg), owner, mem, f, WorkerOp(cfg, mem, f))
  {
  }

  lemma RepliedFits(cfg: Config, mem: Memory, f: Flight)
    requires Alone(cfg, mem, f) && f.stage.Polled? && f.desc.IsResponse()
    ensures Fits(MeshSpec(cfg), mem, f.(stage := Replied), Owned(cfg, f))
  {
  }

  lemma OrphanedFits(cfg: Config, mem: Memory, f: Flight)
    requires Alone(cfg, mem, f) && f.stage.Polled? && f.desc.IsResponse()
    ensures Fits(MeshSpec(cfg), mem, f.(stage := Orphaned), Owned(cfg, f))
  {
  }

  lemma PollResponseLegal(cfg: Config, owner: map<Slot, nat>, mem: Memory, f: Flight)
    requires Alone(cfg, mem, f) && f.stage.Polled? && f.desc.IsResponse()
    ensures Legal(MeshSpec(cfg), owner, mem, f, WorkerOp(cfg, mem, f))
  {
    RepliedFits(cfg, mem, f);
    OrphanedFits(cfg, mem, f);
    assert WorkerOp(cfg, mem, f) == Answer(f.desc.dstPodId, f.desc.reqId % MAX_PENDING);
  }

  lemma ReadHeaderLegal(cfg: Config, owner: map<Slot, nat>, mem: Memory, f: Flight)
    requires Alone(cfg, mem, f) && f.stage.ReadTaken?
    ensures Legal(MeshSpec(cfg), owner, mem, f, WorkerOp(cfg, mem, f))
  {
    LoadEffect(cfg, mem, RxHeaderSlot(cfg, f, f.desc.headerBufSlot), f.desc.headerLen, f.msg.header);
  }

  lemma ReadBodyLegal(cfg: Config, owner: map<Slot, nat>, mem: Memory, f: Flight)
    requires Alone(cfg, mem, f) && f.stage.ReadHeader?
    ensures Legal(MeshSpec(cfg), owner, mem, f, WorkerOp(cfg, mem, f))
  {
    LoadEffect(cfg, mem, RxBodySlot(cfg, f, f.desc.bodyBufSlot), ReadLen(f.desc.bodyLen, cfg.slotSize),
      Carried(f.msg.body));
  }

  lemma HandledLegal(cfg: Config, owner: map<Slot, nat>, mem: Memory, f: Flight)
    requires Alone(cfg, mem, f) && f.stage.Handling?
    ensures Legal(MeshSpec(cfg), owner, mem, f, WorkerOp(cfg, mem, f))
  {
  }

  lemma ReadFreeLegal(cfg: Config, owner: map<Slot, nat>, mem: Memory, f: Flight)
    requires Alone(cfg, mem, f) && f.stage.ReadFreeBody?
    ensures Legal(MeshSpec(cfg), owner, mem, f, WorkerOp(cfg, mem, f))
  {
  }

  /** The header copy of case 3, given a clear bit in the destination's header pool. */
  lemma HeaderSlotJoins(cfg: Config, mem: Memory, f: Flight, h: int)
    requires Alone(cfg, mem, f) && f.stage.HeaderStart? && InPool(cfg, h)
    ensures Fits(MeshSpec(cfg), mem, f.(stage := HeaderCopy(f.stage.b, h, Fresh)),
      Owned(cfg, f) + {RxHeaderSlot(cfg, f, h)})
  {
  }

  /** With its source header in place, a case-3 message asks for an RX header slot. */
  lemma HeaderStartAllocates(cfg: Config, mem: Memory, f: Flight)
    requires ValidConfig(cfg) && ValidMsg(cfg, f.msg) && Shape(cfg, f) && f.stage.HeaderStart?
    ensures var op := DpaRxOp(cfg, mem, f);
      && op.Alloc? && op.pool == HostRxHeader(Service(cfg, f.desc.dstPodId))
      && forall h :: op.granted(h) == HeaderCopy(f.stage.b, h, Fresh)
  {
    DpuRefsResolve(cfg, f.msg, f.desc);
  }

  lemma HeaderStartLegal(cfg: Config, owner: map<Slot, nat>, mem: Memory, f: Flight)
    requires Alone(cfg, mem, f) && f.stage.HeaderStart?
    requires FirstFree(cfg, owner, HostRxHeader(Service(cfg, f.desc.dstPodId)), 0) >= 0
    ensures Legal(MeshSpec(cfg), owner, mem, f, DpaRxOp(cfg, mem, f))
  {
    var op := DpaRxOp(cfg, mem, f);
    HeaderStartAllocates(cfg, mem, f);
    HeaderSlotJoins(cfg, mem, f, FirstFree(cfg, owner, op.pool, 0));
    AllocIsLegal(MeshSpec(cfg), owner, mem, f, op);
  }
}
