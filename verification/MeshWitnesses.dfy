/** What can happen: runs, under any routing policy that sends the messages there, on which the failures occur. */
module MeshWitnesses {
  import opened Options
  import opened Descriptor
  import opened Utf8
  import opened Mesh
  import opened Ledger
  import opened MeshInvariant
  import opened MeshSafety
  import opened MeshTheorems
  import opened MeshProgress
  import opened MeshRuns

  // ----------------------------------------------------------------- one message

  /** The first message arrives where the policy sends it. */
  lemma FirstArrives(cfg: Config, policy: Policy, m: Msg, dest: Option<int>) returns (s: State)
    requires ValidConfig(cfg) && Sent(cfg, policy, 0, m, dest) && (m.response ==> dest.None?)
    ensures Attained(cfg, policy, s) && s.flights == map[] && s.next == 1
    ensures 0 in s.outcomes && Arrival(s.outcomes[0], m, dest) && (!m.response ==> s.waiting == Registered(Init, m))
  {
    InitIsAttained(cfg, policy);
    QuietIsOpen(cfg, Init, dest);
    s := EveryMessageArrives(cfg, policy, Init, m, dest);
    assert s.flights == s.flights - {0};
  }

  /** A response is delivered in some run, after a request with its id from its destination. */
  lemma ResponseIsDelivered(cfg: Config, policy: Policy, request: Msg, to: int, m: Msg, pod: int) returns (s: State)
    requires ValidConfig(cfg) && Sent(cfg, policy, 0, request, Some(to)) && !request.bridge && !request.response
    requires Sent(cfg, policy, 1, m, Some(pod)) && m.response && request.pod == pod && request.reqId == m.reqId
    ensures Attained(cfg, policy, s) && s.flights == map[] && 1 in s.outcomes && Arrival(s.outcomes[1], m, Some(pod))
  {
    var s1 := FirstArrives(cfg, policy, request, Some(to));
    QuietIsOpen(cfg, s1, Some(pod));
    s := EveryMessageArrives(cfg, policy, s1, m, Some(pod));
    assert s.flights == s.flights - {1};
  }

  /** Without one it is orphaned at its pod: one RX body and one RX header of the pod's service stay allocated with
      nothing else in the mesh. */
  lemma ResponseIsOrphaned(cfg: Config, policy: Policy, m: Msg, pod: int) returns (s: State)
    requires ValidConfig(cfg) && Sent(cfg, policy, 0, m, Some(pod)) && m.response
    ensures Attained(cfg, policy, s) && s.flights.Keys == {0} && OrphanedAt(s, 0, m, Some(pod))
    ensures var x := s.flights[0].desc;
      s.owner.Keys == {Slot(HostRxBody(Service(cfg, pod)), x.bodyBufSlot),
                       Slot(HostRxHeader(Service(cfg, pod)), x.headerBufSlot)}
  {
    InitIsAttained(cfg, policy);
    QuietIsOpen(cfg, Init, Some(pod));
    s := EveryMessageArrives(cfg, policy, Init, m, Some(pod));
    SafeAttained(cfg, policy, s);
    OnlyOne(s.flights, 0);
    OrphanOwnsTwo(cfg, s);
  }

  lemma OnlyOne(flights: map<nat, Flight>, id: nat)
    requires id in flights && flights - {id} == map[]
    ensures flights.Keys == {id}
  {
    assert flights.Keys == (flights - {id}).Keys + {id};
  }

  lemma OrphanOwnsTwo(cfg: Config, s: State)
    requires Inv(MeshSpec(cfg), s) && s.flights.Keys == {0} && s.flights[0].stage.Orphaned? && s.flights[0].msg.response
    ensures var f := s.flights[0];
      s.owner.Keys == {RxBodySlot(cfg, f, f.desc.bodyBufSlot), RxHeaderSlot(cfg, f, f.desc.headerBufSlot)}
  {
    var f := s.flights[0];
    FlightHolds(cfg, s, 0);
    OwnedIsAllocated(cfg, s, 0);
    OrphanSlots(cfg, s.mem, f);
    forall sl | sl in s.owner ensures sl in Owned(cfg, f) { OwnerOwns(MeshSpec(cfg), s, sl); }
  }

  lemma OrphanSlots(cfg: Config, mem: Memory, f: Flight)
    requires FlightOk(cfg, mem, f) && f.stage.Orphaned?
    ensures InPool(cfg, f.desc.bodyBufSlot) && f.desc.dstPodId in cfg.registry
    ensures f.msg.response ==>
      Owned(cfg, f) == {RxBodySlot(cfg, f, f.desc.bodyBufSlot), RxHeaderSlot(cfg, f, f.desc.headerBufSlot)}
    ensures RxBodySlot(cfg, f, f.desc.bodyBufSlot) in Owned(cfg, f)
  {
  }

  /** A body as long as a slot is sent, delivered, and not what was written. */
  lemma SlotLongBodyIsCut(cfg: Config, policy: Policy, header: Bytes, from: int, pod: int) returns (s: State)
    requires ValidConfig(cfg) && cfg.slotSize < WORD / 2 && from in cfg.registry && pod in cfg.registry
    requires 1 <= |header| < MAX_HEADER && policy(0, header, false) == Forward(pod)
    ensures Attained(cfg, policy, s) && 0 in s.outcomes && s.outcomes[0].Delivered? && s.outcomes[0].pod == pod
    ensures s.outcomes[0].msg.header == header && s.outcomes[0].msg.body == Zeros(cfg.slotSize)
    ensures s.outcomes[0].body != s.outcomes[0].msg.body
  {
    var m := Msg(false, from, false, false, 1, header, Zeros(cfg.slotSize));
    s := FirstArrives(cfg, policy, m, Some(pod));
    AttainedIsReachable(cfg, policy, s);
    DeliveredIsWritten(cfg, s, 0);
  }

  /** A response's body, as the bridge answers with it. */
  lemma BodyAnswered(cfg: Config, policy: Policy, header: Bytes, from: int, body: Bytes) returns (s: State)
    requires ValidConfig(cfg) && from in cfg.registry && 1 <= |header| < MAX_HEADER && |body| <= 1
    requires policy(0, header, true) == ToBridge
    ensures Attained(cfg, policy, s) && 0 in s.outcomes && s.outcomes[0].Answered?
    ensures s.outcomes[0].msg.header == header && s.outcomes[0].msg.body == body
    ensures s.outcomes[0].body == if body == [] then [0] else DropInvalid(body)
  {
    var m := Msg(false, from, true, true, 0, header, body);
    s := FirstArrives(cfg, policy, m, None);
    AttainedIsReachable(cfg, policy, s);
    AnsweredIsWritten(cfg, s, 0);
  }

  /** A body of one byte that is no UTF-8 is answered as nothing. */
  lemma LoneByteIsLost(cfg: Config, policy: Policy, header: Bytes, from: int) returns (s: State)
    requires ValidConfig(cfg) && from in cfg.registry && 1 <= |header| < MAX_HEADER
    requires policy(0, header, true) == ToBridge
    ensures Attained(cfg, policy, s) && 0 in s.outcomes && s.outcomes[0].Answered?
    ensures s.outcomes[0].msg.header == header && s.outcomes[0].msg.body == [0xFF] && s.outcomes[0].body == []
  {
    s := BodyAnswered(cfg, policy, header, from, [0xFF]);
    LoneByteIsDropped();
  }

  /** An empty body is answered as one NUL. */
  lemma EmptyBodyIsNul(cfg: Config, policy: Policy, header: Bytes, from: int) returns (s: State)
    requires ValidConfig(cfg) && from in cfg.registry && 1 <= |header| < MAX_HEADER
    requires policy(0, header, true) == ToBridge
    ensures Attained(cfg, policy, s) && 0 in s.outcomes && s.outcomes[0].Answered?
    ensures s.outcomes[0].msg.header == header && s.outcomes[0].msg.body == [] && s.outcomes[0].body == [0]
  {
    s := BodyAnswered(cfg, policy, header, from, []);
  }

  // ----------------------------------------------------------------- a pool filled with orphans

  /** The slots of a service's RX body pool that no orphan holds. */
  ghost function NotHeld(cfg: Config, s: State, svc: string): set<int> {
    set i: int | 0 <= i < cfg.numSlots && !OrphanHolds(s, Slot(HostRxBody(svc), i))
  }

  /** What orphans hold they go on holding when another message comes to its end. */
  lemma StillHeld(cfg: Config, s: State, s': State, id: nat, sl: Slot)
    requires Inv(MeshSpec(cfg), s) && Inv(MeshSpec(cfg), s') && id !in s.flights && s'.flights - {id} == s.flights
    requires OrphanHolds(s, sl)
    ensures OrphanHolds(s', sl) && s'.owner[sl] == s.owner[sl]
  {
    var j := s.owner[sl];
    assert s.flights - {id} == s.flights;
    OtherStays(s, s', id, j);
    OwnerOwns(MeshSpec(cfg), s, sl);
    SoleOwner(MeshSpec(cfg), s', j, sl);
  }

  /** One more unwanted response holds one more slot. */
  lemma OneMoreHeld(cfg: Config, s: State, s': State, m: Msg, pod: int)
    requires Inv(MeshSpec(cfg), s) && Inv(MeshSpec(cfg), s') && s.next !in s.flights
    requires s'.flights - {s.next} == s.flights && OrphanedAt(s', s.next, m, Some(pod))
    ensures NotHeld(cfg, s', Service(cfg, pod)) < NotHeld(cfg, s, Service(cfg, pod))
  {
    var svc, f := Service(cfg, pod), s'.flights[s.next];
    var i := f.desc.bodyBufSlot;
    FlightHolds(cfg, s', s.next);
    OrphanSlots(cfg, s'.mem, f);
    SoleOwner(MeshSpec(cfg), s', s.next, Slot(HostRxBody(svc), i));
    forall k | k in NotHeld(cfg, s', svc) ensures k in NotHeld(cfg, s, svc) {
      if OrphanHolds(s, Slot(HostRxBody(svc), k)) { StillHeld(cfg, s, s', s.next, Slot(HostRxBody(svc), k)); }
    }
    assert OrphanHolds(s', Slot(HostRxBody(svc), i)) && i !in NotHeld(cfg, s', svc);
    if OrphanHolds(s, Slot(HostRxBody(svc), i)) { StillHeld(cfg, s, s', s.next, Slot(HostRxBody(svc), i)); }
    assert i in NotHeld(cfg, s, svc);
  }

  lemma SmallerSet(a: set<int>, b: set<int>)
    requires a < b
    ensures |a| < |b|
  {
    assert b == a + (b - a) && b - a != {} && a !! b - a;
  }

  /** Repeating a response that nobody waits for fills its destination's RX body pool with orphans. */
  lemma {:induction false} OrphansFill(cfg: Config, policy: Policy, s: State, m: Msg, pod: int) returns (s': State)
    requires ValidConfig(cfg) && Attained(cfg, policy, s) && OnlyOrphans(s) && m.response
    requires forall id: nat :: Sent(cfg, policy, id, m, Some(pod))
    requires (pod, m.reqId % MAX_PENDING) !in s.waiting
    ensures Attained(cfg, policy, s') && OnlyOrphans(s') && HeldByOrphans(cfg, s', Service(cfg, pod))
    decreases |NotHeld(cfg, s, Service(cfg, pod))|
  {
    if HeldByOrphans(cfg, s, Service(cfg, pod)) {
      s' := s;
    } else {
      var s1 := EveryMessageArrives(cfg, policy, s, m, Some(pod));
      SafeAttained(cfg, policy, s);
      SafeAttained(cfg, policy, s1);
      NewMessage(MeshSpec(cfg), s);
      OneMoreHeld(cfg, s, s1, m, pod);
      SmallerSet(NotHeld(cfg, s1, Service(cfg, pod)), NotHeld(cfg, s, Service(cfg, pod)));
      forall j | j in s1.flights ensures s1.flights[j].stage.Orphaned? {
        if j != s.next { assert j in s1.flights - {s.next} && s1.flights[j] == (s1.flights - {s.next})[j]; }
      }
      s' := OrphansFill(cfg, policy, s1, m, pod);
    }
  }

  /** A pool held whole by orphans is a reachable state, for every registered pod and every policy that sends some
      response there. */
  lemma PoolCanBeHeld(cfg: Config, policy: Policy, m: Msg, pod: int) returns (s: State)
    requires ValidConfig(cfg) && m.response && forall id: nat :: Sent(cfg, policy, id, m, Some(pod))
    ensures Attained(cfg, policy, s) && OnlyOrphans(s) && HeldByOrphans(cfg, s, Service(cfg, pod))
  {
    InitIsAttained(cfg, policy);
    QuietIsOpen(cfg, Init, Some(pod));
    s := OrphansFill(cfg, policy, Init, m, pod);
  }

  // ----------------------------------------------------------------- and what becomes of its service

  /** A message about to be delivered holds an RX body slot that no orphan holds. */
  lemma DeliveryNeedsSlot(cfg: Config, s: State, id: nat)
    requires ValidConfig(cfg) && Inv(MeshSpec(cfg), s) && id in s.flights && s.flights[id].stage.ReadFreeBody?
    ensures !HeldByOrphans(cfg, s, Service(cfg, s.flights[id].desc.dstPodId))
  {
    var f := s.flights[id];
    FlightHolds(cfg, s, id);
    ReaderOwnsBody(cfg, s.mem, f);
    SoleOwner(MeshSpec(cfg), s, id, RxBodySlot(cfg, f, f.desc.bodyBufSlot));
    assert !OrphanHolds(s, RxBodySlot(cfg, f, f.desc.bodyBufSlot));
  }

  lemma ReaderOwnsBody(cfg: Config, mem: Memory, f: Flight)
    requires FlightOk(cfg, mem, f) && f.stage.ReadFreeBody?
    ensures InPool(cfg, f.desc.bodyBufSlot) && RxBodySlot(cfg, f, f.desc.bodyBufSlot) in Owned(cfg, f)
  {
  }

  lemma OnlyReadersDeliver(cfg: Config, mem: Memory, f: Flight)
    requires NextOp(cfg, mem, f).Leave? && NextOp(cfg, mem, f).outcome.Delivered?
    ensures f.stage.ReadFreeBody? && NextOp(cfg, mem, f).outcome.pod == f.desc.dstPodId
  {
  }

  lemma NewOutcome(cfg: Config, s: State, j: nat, op: Op, id: nat)
    requires j in s.flights && id in Perform(cfg, s, j, op).outcomes && id !in s.outcomes
    ensures id == j && op.Leave? && Perform(cfg, s, j, op).outcomes[id] == op.outcome
  {
  }

  /** While orphans hold the pool no step delivers to the service. */
  lemma StepDeliversElsewhere(cfg: Config, s: State, step: Step, svc: string, id: nat)
    requires ValidConfig(cfg) && Inv(MeshSpec(cfg), s) && HeldByOrphans(cfg, s, svc) && Enabled(cfg, s, step)
    requires var o := Apply(cfg, s, step).outcomes; id in o && o[id].Delivered? && Service(cfg, o[id].pod) == svc
    ensures id in s.outcomes
  {
    if id !in s.outcomes && step.Advance? {
      var f := s.flights[step.id];
      NewOutcome(cfg, s, step.id, NextOp(cfg, s.mem, f), id);
      OnlyReadersDeliver(cfg, s.mem, f);
      DeliveryNeedsSlot(cfg, s, step.id);
    }
  }

  lemma PrefixIsReachable(cfg: Config, states: seq<State>, steps: seq<Step>, i: nat)
    requires Run(cfg, states, steps) && states[0] == Init && i < |states|
    ensures Reachable(cfg, states[i])
  {
    assert Run(cfg, states[..i + 1], steps[..i]);
  }

  /** What has been delivered to a service. */
  ghost predicate DeliveredTo(cfg: Config, s: State, svc: string, id: nat) {
    id in s.outcomes && s.outcomes[id].Delivered? && Service(cfg, s.outcomes[id].pod) == svc
  }

  lemma StepStarves(cfg: Config, s: State, step: Step, svc: string)
    requires ValidConfig(cfg) && Reachable(cfg, s) && HeldByOrphans(cfg, s, svc) && Enabled(cfg, s, step)
    ensures HeldByOrphans(cfg, Apply(cfg, s, step), svc)
    ensures forall id | DeliveredTo(cfg, Apply(cfg, s, step), svc, id) :: DeliveredTo(cfg, s, svc, id)
  {
    ReachableInv(cfg, s);
    HeldPoolStays(cfg, s, svc, step);
    forall id | DeliveredTo(cfg, Apply(cfg, s, step), svc, id) ensures DeliveredTo(cfg, s, svc, id) {
      StepDeliversElsewhere(cfg, s, step, svc, id);
      OutcomeStays(MeshSpec(cfg), s, step, id);
    }
  }

  /** Over every run: once orphans hold a service's whole RX body pool, they hold it for ever, and nothing is ever
      delivered to that service again. */
  lemma {:induction false} HeldPoolStarves(cfg: Config, states: seq<State>, steps: seq<Step>, svc: string, i: nat,
      j: nat)
    requires ValidConfig(cfg) && Run(cfg, states, steps) && states[0] == Init && i <= j < |states|
    requires HeldByOrphans(cfg, states[i], svc)
    ensures HeldByOrphans(cfg, states[j], svc)
    ensures forall id | DeliveredTo(cfg, states[j], svc, id) :: DeliveredTo(cfg, states[i], svc, id)
    decreases j
  {
    if i < j {
      HeldPoolStarves(cfg, states, steps, svc, i, j - 1);
      PrefixIsReachable(cfg, states, steps, j - 1);
      StepStarves(cfg, states[j - 1], steps[j - 1], svc);
    }
  }
}
