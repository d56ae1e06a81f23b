/** What holds in every reachable state of the pipeline, under any interleaving of its threads. */
module MeshTheorems {
  import opened Descriptor
  import opened Mesh
  import opened Ledger
  import opened MeshInvariant
  import opened MeshSteps
  import opened MeshSafety
  import opened Utf8
  import Wire

  ghost predicate Reachable(cfg: Config, s: State) {
    exists states, steps :: Run(cfg, states, steps) && states[0] == Init && states[|states| - 1] == s
  }

  lemma ReachableInv(cfg: Config, s: State)
    requires ValidConfig(cfg) && Reachable(cfg, s)
    ensures Inv(MeshSpec(cfg), s)
  {
    var states, steps :| Run(cfg, states, steps) && states[0] == Init && states[|states| - 1] == s;
    RunKeeps(cfg, states, steps, |states| - 1);
  }

  /** No message is ever in a branch that loses it: a full ring, pipe or RX header pool, or an invalid
      descriptor. */
  lemma NothingIsLost(cfg: Config, s: State, id: nat)
    requires ValidConfig(cfg) && Reachable(cfg, s) && id in s.flights
    ensures s.flights[id].stage != Lost
  {
    ReachableInv(cfg, s);
    ShapeHolds(cfg, s, id);
  }

  /** A ring or pipe never holds more descriptors than the pools behind it have slots. */
  lemma RingsAreBounded(cfg: Config, s: State, q: QueueId)
    requires ValidConfig(cfg) && Reachable(cfg, s)
    ensures |Queue(s, q)| <= (if q.SidecarRxSq? then 2 * cfg.numSlots else cfg.numSlots)
  {
    ReachableInv(cfg, s);
    QueueAnchored(cfg, s.mem, q);
    QueueBounded(MeshSpec(cfg), s, q, g => Anchor(cfg, g, q), AnchorSlots(cfg, q));
  }

  /** Whenever a thread is about to put a descriptor, re-enqueues included, there is room for it. */
  lemma EveryPutHasRoom(cfg: Config, s: State, id: nat)
    requires ValidConfig(cfg) && Reachable(cfg, s) && Enabled(cfg, s, Advance(id))
    requires NextOp(cfg, s.mem, s.flights[id]).Enqueue?
    ensures var q := NextOp(cfg, s.mem, s.flights[id]).q; |Queue(s, q)| < Capacity(cfg, q)
  {
    ReachableInv(cfg, s);
    EnqueueHasRoom(cfg, s, id);
  }

  /** At every moment, no more RX headers of a service are in use than RX bodies. */
  lemma HeadersBehindBodies(cfg: Config, s: State, svc: string)
    requires ValidConfig(cfg) && Reachable(cfg, s)
    ensures |Used(s.owner, HostRxHeader(svc))| <= |Used(s.owner, HostRxBody(svc))|
  {
    ReachableInv(cfg, s);
    HeadersPaired(cfg, s.mem, svc);
    PairedCounts(MeshSpec(cfg), s, HostRxHeader(svc), HostRxBody(svc), f => BodyMate(cfg, f), {});
  }

  lemma ShapeHolds(cfg: Config, s: State, id: nat)
    requires Inv(MeshSpec(cfg), s) && id in s.flights
    ensures ValidMsg(cfg, s.flights[id].msg) && Shape(cfg, s.flights[id])
  {
    FlightIsOk(MeshSpec(cfg), s, id);
  }

  /** Once case 3 has its body copied, the header allocation is granted. */
  lemma HeaderCopyCannotFail(cfg: Config, s: State, id: nat)
    requires ValidConfig(cfg) && Reachable(cfg, s) && id in s.flights && s.flights[id].stage.HeaderStart?
    ensures Perform(cfg, s, id, NextOp(cfg, s.mem, s.flights[id])).flights[id].stage.HeaderCopy?
  {
    ReachableInv(cfg, s);
    HeaderPoolHasRoom(cfg, s, id);
    ShapeHolds(cfg, s, id);
    HeaderStartAllocates(cfg, s.mem, s.flights[id]);
  }

  lemma SoleOwner(spec: Spec, s: State, id: nat, sl: Slot)
    requires Inv(spec, s) && id in s.flights && sl in spec.own(s.flights[id])
    ensures sl in s.owner && s.owner[sl] == id
  {
  }

  /** No two messages own the same slot, and every owned slot is marked allocated. */
  lemma OwnershipIsExclusive(cfg: Config, s: State, id: nat, sl: Slot)
    requires ValidConfig(cfg) && Reachable(cfg, s) && id in s.flights && sl in Owned(cfg, s.flights[id])
    ensures sl in s.owner
    ensures forall j | j in s.flights && sl in Owned(cfg, s.flights[j]) :: j == id
  {
    ReachableInv(cfg, s);
    SoleOwner(MeshSpec(cfg), s, id, sl);
    forall j | j in s.flights && sl in Owned(cfg, s.flights[j]) ensures j == id {
      SoleOwner(MeshSpec(cfg), s, j, sl);
    }
  }

  /** An allocated slot is owned by some message in flight: none leaks. */
  lemma AllocatedIsOwned(cfg: Config, s: State, sl: Slot) returns (id: nat)
    requires ValidConfig(cfg) && Reachable(cfg, s) && sl in s.owner
    ensures id in s.flights && sl in Owned(cfg, s.flights[id])
  {
    ReachableInv(cfg, s);
    id := s.owner[sl];
    assert sl in MeshSpec(cfg).own(s.flights[id]);
  }

  lemma FrontInFlight(spec: Spec, s: State, q: QueueId)
    requires Inv(spec, s)
    ensures Queue(s, q) != [] ==> Queue(s, q)[0] in s.flights && s.flights[Queue(s, q)[0]].stage == Queued(q)
  {
    if Queue(s, q) != [] { assert Queue(s, q)[0] in s.queues[q]; }
  }

  lemma NothingInFlight(spec: Spec, s: State)
    requires Inv(spec, s) && s.flights == map[]
    ensures s.owner == map[]
    ensures forall q :: Queue(s, q) == []
  {
    assert forall sl :: sl !in s.owner;
    forall q ensures Queue(s, q) == [] {
      FrontInFlight(spec, s, q);
    }
  }

  /** With nothing in flight every bitmap is clear. */
  lemma QuiescentIsEmpty(cfg: Config, s: State)
    requires ValidConfig(cfg) && Reachable(cfg, s) && s.flights == map[]
    ensures s.owner == map[]
    ensures forall q :: Queue(s, q) == []
  {
    ReachableInv(cfg, s);
    NothingInFlight(MeshSpec(cfg), s);
  }

  /** The slots an operation gives back. */
  function Freed(op: Op): set<Slot> {
    if op.Free? || op.Leave? then op.slots else {}
  }

  /** Every release is of slots the releasing message owns: allocated, and nobody else's. */
  lemma FreesAreOwned(cfg: Config, s: State, id: nat, sl: Slot)
    requires ValidConfig(cfg) && Reachable(cfg, s) && Enabled(cfg, s, Advance(id))
    requires sl in Freed(NextOp(cfg, s.mem, s.flights[id]))
    ensures sl in s.owner && sl in Owned(cfg, s.flights[id])
    ensures forall j | j in s.flights && sl in Owned(cfg, s.flights[j]) :: j == id
  {
    ReachableInv(cfg, s);
    AdvanceLegal(cfg, s, id);
    var op := NextOp(cfg, s.mem, s.flights[id]);
    LegalFrees(MeshSpec(cfg), s.owner, s.mem, s.flights[id], op, sl);
    assert sl in MeshSpec(cfg).own(s.flights[id]);
    OwnershipIsExclusive(cfg, s, id, sl);
  }

  lemma LegalFrees(spec: Spec, owner: map<Slot, nat>, mem: Memory, f: Flight, op: Op, sl: Slot)
    requires Legal(spec, owner, mem, f, op) && sl in Freed(op)
    ensures sl in spec.own(f)
  {
  }

  /** A response whose pipe entry is empty is dropped, and orphans exactly its RX header and body; with
      an entry it is handed over, and the entry is empty afterwards.  Nothing else changes hands. */
  lemma DroppedResponseOrphans(cfg: Config, s: State, id: nat)
    requires ValidConfig(cfg) && Reachable(cfg, s) && id in s.flights
    requires s.flights[id].stage.Polled? && s.flights[id].desc.IsResponse()
    ensures var f, x := s.flights[id], s.flights[id].desc;
      var s' := Apply(cfg, s, Advance(id));
      && s'.owner == s.owner
      && Owned(cfg, s'.flights[id]) == {RxBodySlot(cfg, f, x.bodyBufSlot), RxHeaderSlot(cfg, f, x.headerBufSlot)}
      && (s'.flights[id].stage.Orphaned? <==> (x.dstPodId, x.reqId % MAX_PENDING) !in s.waiting)
      && (s'.flights[id].stage.Replied? <==> (x.dstPodId, x.reqId % MAX_PENDING) in s.waiting)
      && s'.waiting == s.waiting - {(x.dstPodId, x.reqId % MAX_PENDING)}
  {
    ReachableInv(cfg, s);
    ShapeHolds(cfg, s, id);
    PolledResponse(cfg, s.mem, s.flights[id]);
    AnswerStep(cfg, s, id, s.flights[id].desc.dstPodId, s.flights[id].desc.reqId % MAX_PENDING);
  }

  lemma AnswerStep(cfg: Config, s: State, id: nat, pod: int, index: int)
    requires id in s.flights
    ensures var s' := Perform(cfg, s, id, Answer(pod, index));
      && s'.owner == s.owner
      && s'.flights[id] == s.flights[id].(stage := if (pod, index) in s.waiting then Replied else Orphaned)
      && s'.waiting == s.waiting - {(pod, index)}
  {
  }

  lemma FlightIsOk(spec: Spec, s: State, id: nat)
    requires Inv(spec, s) && id in s.flights
    ensures spec.ok(s.mem, s.flights[id])
    ensures forall sl | sl in spec.own(s.flights[id]) :: sl in s.owner
  {
  }

  lemma FlightIsOld(spec: Spec, s: State, id: nat)
    requires Inv(spec, s) && id in s.flights
    ensures id < s.next
  {
  }

  lemma PolledResponse(cfg: Config, mem: Memory, f: Flight)
    requires f.stage.Polled? && f.desc.IsResponse() && ValidMsg(cfg, f.msg) && Shape(cfg, f)
    ensures NextOp(cfg, mem, f) == Answer(f.desc.dstPodId, f.desc.reqId % MAX_PENDING)
    ensures Owned(cfg, f.(stage := Orphaned)) == {RxBodySlot(cfg, f, f.desc.bodyBufSlot),
      RxHeaderSlot(cfg, f, f.desc.headerBufSlot)}
    ensures Owned(cfg, f.(stage := Replied)) == Owned(cfg, f.(stage := Orphaned))
  {
  }

  /** An orphan stays: no later step changes it or takes its slots back. */
  lemma OrphansStay(cfg: Config, s: State, step: Step, id: nat)
    requires ValidConfig(cfg) && Reachable(cfg, s) && Enabled(cfg, s, step)
    requires id in s.flights && s.flights[id].stage.Orphaned?
    ensures var s' := Apply(cfg, s, step);
      && id in s'.flights && s'.flights[id] == s.flights[id]
      && forall sl | sl in Owned(cfg, s.flights[id]) :: sl in s'.owner
  {
    ReachableInv(cfg, s);
    StepKeeps(cfg, s, step);
    OrphanIsLeftAlone(cfg, s, step, id);
    OtherFlightsStay(MeshSpec(cfg), s, step, id);
    OwnedIsAllocated(cfg, Apply(cfg, s, step), id);
  }

  lemma OrphanIsLeftAlone(cfg: Config, s: State, step: Step, id: nat)
    requires Enabled(cfg, s, step) && id in s.flights && s.flights[id].stage.Orphaned?
    ensures !About(step, id)
  {
  }

  lemma OwnedIsAllocated(cfg: Config, s: State, id: nat)
    requires Inv(MeshSpec(cfg), s) && id in s.flights
    ensures forall sl | sl in Owned(cfg, s.flights[id]) :: sl in s.owner
  {
    FlightIsOk(MeshSpec(cfg), s, id);
  }

  /** The message a step is about, if it names one. */
  predicate About(step: Step, id: nat) {
    (step.Advance? || step.Decide? || step.LosePod? || step.TakeReply?) && step.id == id
  }

  /** A step about another message leaves one alone that is not waiting in a queue. */
  lemma OtherFlightsStay(spec: Spec, s: State, step: Step, id: nat)
    requires Inv(spec, s) && Enabled(spec.cfg, s, step) && id in s.flights && !s.flights[id].stage.Queued?
    requires !About(step, id)
    ensures id in Apply(spec.cfg, s, step).flights && Apply(spec.cfg, s, step).flights[id] == s.flights[id]
  {
    if step.Advance? {
      OthersUntouched(spec.cfg, s, step.id, NextOp(spec.cfg, s.mem, s.flights[step.id]), id);
    } else if step.Take? {
      assert Queue(s, step.q)[0] in s.queues[step.q];
    } else if step.BeginWrite? || step.BeginInject? {
      assert id < s.next;
    }
  }

  lemma OthersUntouched(cfg: Config, s: State, j: nat, op: Op, id: nat)
    requires id in s.flights && j in s.flights && j != id
    ensures id in Perform(cfg, s, j, op).flights && Perform(cfg, s, j, op).flights[id] == s.flights[id]
  {
  }

  /** A message is accepted once and leaves at most once: the identities handed out so far are exactly
      those in flight and those with an outcome, and none is both. */
  lemma ExactlyOneOutcome(cfg: Config, s: State, id: nat)
    requires ValidConfig(cfg) && Reachable(cfg, s)
    ensures id < s.next <==> (id in s.flights) != (id in s.outcomes)
    ensures !(id in s.flights && id in s.outcomes)
  {
    ReachableInv(cfg, s);
  }

  /** What a worker reads is what the sender wrote: header, request id and direction always, and the body exactly when
      it is not empty and shorter than a slot.  An empty body is read as one NUL, and a slot-long one loses its last
      byte.  A bridge request is read where the bridge sent it. */
  lemma DeliveredIsWritten(cfg: Config, s: State, id: nat)
    requires ValidConfig(cfg) && Reachable(cfg, s) && id in s.outcomes && s.outcomes[id].Delivered?
    ensures var o := s.outcomes[id];
      && o.header == o.msg.header && o.reqId == o.msg.reqId && o.response == o.msg.response
      && (o.msg.bridge ==> o.pod == o.msg.pod)
      && (o.body == o.msg.body <==> 0 < |o.msg.body| < cfg.slotSize)
      && (o.msg.body == [] ==> o.body == [0])
      && (0 < |o.msg.body| <= cfg.slotSize ==> o.body == o.msg.body[..Min(|o.msg.body|, cfg.slotSize - 1)])
      && (|o.msg.body| > cfg.slotSize ==> |o.body| == cfg.slotSize - 1)
  {
    ReachableInv(cfg, s);
    var o := s.outcomes[id];
    assert MeshSpec(cfg).good(o);
    var n := |Carried(o.msg.body)|;
    if n < cfg.slotSize {
      assert Carried(o.msg.body)[..n] == Carried(o.msg.body);
    }
  }

  /** What a bridge client is answered is what the worker wrote, exactly when its body is not empty, fits a slot, a
      whole one included, and is the encoding of some text: the bridge decodes it and drops what is not, and an empty
      body arrives as one NUL. */
  lemma AnsweredIsWritten(cfg: Config, s: State, id: nat)
    requires ValidConfig(cfg) && Reachable(cfg, s) && id in s.outcomes && s.outcomes[id].Answered?
    ensures var o := s.outcomes[id];
      && o.header == o.msg.header && o.msg.response
      && (o.body == o.msg.body <==> 0 < |o.msg.body| <= cfg.slotSize && IsUtf8(o.msg.body))
      && (o.msg.body == [] ==> o.body == [0])
      && (0 < |o.msg.body| <= cfg.slotSize ==> o.body == DropInvalid(o.msg.body))
  {
    ReachableInv(cfg, s);
    var o := s.outcomes[id];
    assert MeshSpec(cfg).good(o);
    DropsNothingIff(Carried(o.msg.body));
    ValidIffEncoded(Carried(o.msg.body));
    NulIsKept();
  }

  /** The sidecar decides on exactly the header the sender wrote. */
  lemma RoutedOnTheSendersHeader(cfg: Config, s: State, id: nat)
    requires ValidConfig(cfg) && Reachable(cfg, s) && id in s.flights && s.flights[id].stage.Routing?
    ensures s.flights[id].stage.header == s.flights[id].msg.header
    ensures s.flights[id].desc.IsResponse() == s.flights[id].msg.response
  {
    ReachableInv(cfg, s);
    assert MeshSpec(cfg).ok(s.mem, s.flights[id]);
  }

  /** Every queued descriptor fits its 64 bytes, so it leaves the shared ring as it entered. */
  lemma QueuedFitsTheWire(cfg: Config, s: State, id: nat)
    requires ValidConfig(cfg) && Reachable(cfg, s) && id in s.flights && s.flights[id].stage.Queued?
    ensures Wire.Unpack(Wire.Pack(s.flights[id].desc)) == s.flights[id].desc
  {
    ReachableInv(cfg, s);
    FlightIsOk(MeshSpec(cfg), s, id);
    QueuedPackable(cfg, s.flights[id]);
    Wire.PackRoundTrip(s.flights[id].desc);
  }

  lemma QueuedPackable(cfg: Config, f: Flight)
    requires ValidConfig(cfg) && ValidMsg(cfg, f.msg) && Shape(cfg, f) && f.stage.Queued?
    ensures Wire.Packable(f.desc)
  {
  }

  /** The sizes the system is built with: 64 slots of one megabyte, rings of 512, pipes of 64 KiB. */
  lemma ShippedSizesAreValid(registry: map<int, string>)
    requires forall p | p in registry :: 0 <= p < WORD / 2 && registry[p] != ""
    ensures ValidConfig(Config(64, 512, 1024 * 1024, 65536 / 64, registry))
  {
  }
}
