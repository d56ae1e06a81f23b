/** A request and its answer, carried by the pipeline with the table running beside it. */
module MeshExchange {
  import opened Options
  import opened Descriptor
  import opened Mesh
  import opened Ledger
  import opened MeshInvariant
  import opened MeshSafety
  import opened MeshTheorems
  import opened MeshProgress
  import opened MeshRuns
  import opened MeshCorrelation
  import opened MeshJoint
  import C = Correlation

  // ----------------------------------------------------------------- joint runs under a policy

  ghost predicate CalmStep(cfg: Config, j: Joint, step: Step, o: C.Origin) {
    var e := EventOf(cfg, j, step, o);
    e.Some? ==> C.Calm(j.cs, e.value)
  }

  /** One step of both machines: driven, the policy's, and calm. */
  ghost predicate Link(cfg: Config, policy: Policy, j: Joint, step: Step, o: C.Origin, j': Joint) {
    && CanDrive(cfg, j, step, o) && Follows(policy, j.ms, step) && CalmStep(cfg, j, step, o)
    && j' == Drive(cfg, j, step, o)
  }

  ghost predicate Linked(link: (Joint, Step, C.Origin, Joint) -> bool, js: seq<Joint>, steps: seq<Step>,
      os: seq<C.Origin>) {
    && |js| == |steps| + 1 == |os| + 1 && js[0] == Start
    && forall i | 0 <= i < |steps| :: link(js[i], steps[i], os[i], js[i + 1])
  }

  ghost function Links(cfg: Config, policy: Policy): (Joint, Step, C.Origin, Joint) -> bool {
    (j, step, o, j') => Link(cfg, policy, j, step, o, j')
  }

  /** A state of both machines at the end of a calm run under the policy. */
  ghost predicate Met(cfg: Config, policy: Policy, j: Joint) {
    Ends(Links(cfg, policy), j)
  }

  ghost predicate Ends(link: (Joint, Step, C.Origin, Joint) -> bool, j: Joint) {
    exists js, steps, os :: Linked(link, js, steps, os) && js[|js| - 1] == j
  }

  lemma StartIsMet(cfg: Config, policy: Policy)
    ensures Met(cfg, policy, Start)
  {
    assert Linked(Links(cfg, policy), [Start], [], []);
  }

  lemma EndsLater(link: (Joint, Step, C.Origin, Joint) -> bool, j: Joint, step: Step, o: C.Origin, j': Joint)
    requires Ends(link, j) && link(j, step, o, j')
    ensures Ends(link, j')
  {
    var js, steps, os :| Linked(link, js, steps, os) && js[|js| - 1] == j;
    var js', steps', os' := js + [j'], steps + [step], os + [o];
    forall i | 0 <= i < |steps'| ensures link(js'[i], steps'[i], os'[i], js'[i + 1]) {
      if i < |steps| {
        assert js'[i] == js[i] && js'[i + 1] == js[i + 1] && steps'[i] == steps[i] && os'[i] == os[i];
      }
    }
    assert Linked(link, js', steps', os');
  }

  lemma MetStep(cfg: Config, policy: Policy, j: Joint, step: Step, o: C.Origin)
    requires Met(cfg, policy, j) && CanDrive(cfg, j, step, o) && Follows(policy, j.ms, step)
    requires CalmStep(cfg, j, step, o)
    ensures Met(cfg, policy, Drive(cfg, j, step, o))
  {
    EndsLater(Links(cfg, policy), j, step, o, Drive(cfg, j, step, o));
  }

  lemma MetIsAttained(cfg: Config, policy: Policy, j: Joint)
    requires ValidConfig(cfg) && Met(cfg, policy, j)
    ensures Attained(cfg, policy, j.ms) && Coupled(cfg, j)
  {
    var js, steps, os :| Linked(Links(cfg, policy), js, steps, os) && js[|js| - 1] == j;
    forall i | 0 <= i < |steps| ensures Link(cfg, policy, js[i], steps[i], os[i], js[i + 1]) {
      assert Links(cfg, policy)(js[i], steps[i], os[i], js[i + 1]);
    }
    LinkedIsDriven(cfg, policy, js, steps, os);
    DrivenIsCoupled(cfg, js, steps, os, |steps|);
    PipelineIsGuided(cfg, policy, js, steps, os);
  }

  lemma LinkedIsDriven(cfg: Config, policy: Policy, js: seq<Joint>, steps: seq<Step>, os: seq<C.Origin>)
    requires |js| == |steps| + 1 == |os| + 1 && js[0] == Start
    requires forall i | 0 <= i < |steps| :: Link(cfg, policy, js[i], steps[i], os[i], js[i + 1])
    ensures Driven(cfg, js, steps, os) && CalmSoFar(cfg, js, steps, os, |steps|)
  {
    forall i | 0 <= i < |steps|
      ensures CanDrive(cfg, js[i], steps[i], os[i]) && js[i + 1] == Drive(cfg, js[i], steps[i], os[i])
      ensures CalmStep(cfg, js[i], steps[i], os[i])
    {
      assert Link(cfg, policy, js[i], steps[i], os[i], js[i + 1]);
    }
  }

  lemma PipelineIsGuided(cfg: Config, policy: Policy, js: seq<Joint>, steps: seq<Step>, os: seq<C.Origin>)
    requires |js| == |steps| + 1 == |os| + 1 && js[0] == Start
    requires forall i | 0 <= i < |steps| :: Link(cfg, policy, js[i], steps[i], os[i], js[i + 1])
    ensures Attained(cfg, policy, js[|js| - 1].ms)
  {
    var states := Pipeline(js);
    forall i | 0 <= i < |steps|
      ensures Enabled(cfg, states[i], steps[i]) && states[i + 1] == Apply(cfg, states[i], steps[i])
      ensures Follows(policy, states[i], steps[i])
    {
      assert Link(cfg, policy, js[i], steps[i], os[i], js[i + 1]);
    }
    assert Guided(cfg, policy, states, steps);
  }

  // ----------------------------------------------------------------- events on the way

  /** On its way a request stays unread until its body has been copied out. */
  lemma StaysUnread(cfg: Config, mem: Memory, f: Flight, dest: Option<int>, op: Op)
    requires FlightOk(cfg, mem, f) && OnCourse(f, dest) && Unread(f) && !f.stage.ReadHeader? && !ThreadOf(f).Nobody?
    requires !f.stage.Routing? && op == NextOp(cfg, mem, f)
    ensures !op.Leave? && Preserves(op, f, g => Unread(g), o => true)
  {
  }

  /** ... and a response undelivered until it is polled, or the bridge is done with it. */
  lemma StaysUndelivered(cfg: Config, mem: Memory, f: Flight, dest: Option<int>, op: Op)
    requires FlightOk(cfg, mem, f) && OnCourse(f, dest) && Undelivered(f) && !f.stage.Polled?
    requires !f.stage.BridgeFreeHeader? && !ThreadOf(f).Nobody? && !f.stage.Routing? && op == NextOp(cfg, mem, f)
    ensures !op.Leave? && Preserves(op, f, g => Undelivered(g), o => true)
  {
  }

  /** Whether the next step of a message on its way is the one that the table sees. */
  predicate AtEvent(f: Flight) {
    if f.msg.response then f.stage.Polled? || f.stage.BridgeFreeHeader? else f.stage.ReadHeader?
  }

  /** What the table sees of a message on its way to `dest`. */
  ghost function Seen(j: Joint, id: nat, dest: Option<int>): Option<C.Event>
    requires id in j.ms.flights
  {
    var f := j.ms.flights[id];
    if Unread(f) && id in j.requests && dest.Some? && dest.value >= 0 then Some(C.Read(dest.value, j.requests[id]))
    else if Undelivered(f) && id in j.responses then Some(C.Deliver(j.responses[id]))
    else None
  }

  lemma ReadEvent(j: Joint, id: nat, op: Op, dest: Option<int>)
    requires id in j.ms.flights && id in j.requests && op.Continue? && j.ms.flights[id].stage.ReadHeader?
    requires Unread(j.ms.flights[id]) && OnCourse(j.ms.flights[id], dest) && j.ms.flights[id].desc.dstPodId >= 0
    ensures EventOfOp(j, id, op) == Seen(j, id, dest)
  {
  }

  lemma DeliverEvent(j: Joint, id: nat, op: Op, dest: Option<int>)
    requires id in j.ms.flights && id in j.responses && Undelivered(j.ms.flights[id])
    requires op.Answer? || (op.Leave? && op.outcome.Answered?)
    ensures EventOfOp(j, id, op) == Seen(j, id, dest)
  {
  }

  lemma NoEvent(j: Joint, id: nat, op: Op)
    requires id in j.ms.flights && !op.Answer? && !(op.Leave? && op.outcome.Answered?)
    requires op.Leave? ==> !Unread(j.ms.flights[id]) && !Undelivered(j.ms.flights[id])
    requires !(Unread(j.ms.flights[id]) && j.ms.flights[id].stage.ReadHeader?)
    ensures EventOfOp(j, id, op) == None
  {
  }

  lemma FinalBridgeOp(cfg: Config, mem: Memory, f: Flight)
    requires f.stage.BridgeFreeHeader?
    ensures NextOp(cfg, mem, f).Leave? && NextOp(cfg, mem, f).outcome.Answered?
  {
  }

  // ----------------------------------------------------------------- one message on its way, in both machines

  /** The event of an operation on the way is what the table sees, at one moment only. */
  lemma EventHere(cfg: Config, j: Joint, id: nat, dest: Option<int>)
    requires ValidConfig(cfg) && RequestsOk(j) && ResponsesOk(j) && id in j.ms.flights
    requires FlightOk(cfg, j.ms.mem, j.ms.flights[id]) && OnCourse(j.ms.flights[id], dest) && AtEvent(j.ms.flights[id])
    ensures EventOfOp(j, id, NextOp(cfg, j.ms.mem, j.ms.flights[id])) == Seen(j, id, dest)
  {
    var f := j.ms.flights[id];
    var op := NextOp(cfg, j.ms.mem, f);
    if f.msg.response {
      SeenDelivered(cfg, j.ms.mem, f);
      DeliverEvent(j, id, op, dest);
    } else {
      ReadingReads(cfg, j.ms.mem, f);
      ReaderIsRegistered(cfg, j.ms.mem, f);
      ReadEvent(j, id, op, dest);
    }
  }

  lemma ReaderIsRegistered(cfg: Config, mem: Memory, f: Flight)
    requires ValidConfig(cfg) && FlightOk(cfg, mem, f) && f.stage.ReadHeader?
    ensures f.desc.dstPodId >= 0
  {
  }

  lemma SeenDelivered(cfg: Config, mem: Memory, f: Flight)
    requires FlightOk(cfg, mem, f) && f.msg.response && (f.stage.Polled? || f.stage.BridgeFreeHeader?)
    ensures var op := NextOp(cfg, mem, f); op.Answer? || (op.Leave? && op.outcome.Answered?)
  {
    if f.stage.Polled? {
      PolledDirection(cfg, mem, f);
      OnlyPollingAnswers(cfg, mem, f);
    } else {
      FinalBridgeOp(cfg, mem, f);
    }
  }

  lemma NothingSeen(cfg: Config, mem: Memory, f: Flight, dest: Option<int>)
    requires FlightOk(cfg, mem, f) && OnCourse(f, dest) && !AtEvent(f) && !ThreadOf(f).Nobody? && !f.stage.Routing?
    ensures var op := NextOp(cfg, mem, f);
      && !op.Answer? && !(op.Leave? && op.outcome.Answered?)
      && (op.Leave? ==> !Unread(f) && !Undelivered(f)) && !(Unread(f) && f.stage.ReadHeader?)
  {
    var op := NextOp(cfg, mem, f);
    OnlyPollingAnswers(cfg, mem, f);
    if f.stage.Polled? { PolledDirection(cfg, mem, f); }
    if f.stage.BridgeFreeHeader? { BridgeIsResponse(cfg, mem, f, dest); }
    if op.Leave? && op.outcome.Answered? { OnlyLastBridgeStep(cfg, mem, f); }
    if Unread(f) { StaysUnread(cfg, mem, f, dest, op); }
    if Undelivered(f) { StaysUndelivered(cfg, mem, f, dest, op); }
  }

  lemma OnlyLastBridgeStep(cfg: Config, mem: Memory, f: Flight)
    requires NextOp(cfg, mem, f).Leave? && NextOp(cfg, mem, f).outcome.Answered?
    ensures f.stage.BridgeFreeHeader?
  {
  }

  lemma PolledDirection(cfg: Config, mem: Memory, f: Flight)
    requires FlightOk(cfg, mem, f) && f.stage.Polled?
    ensures f.desc.IsResponse() == f.msg.response
  {
  }

  lemma BridgeIsResponse(cfg: Config, mem: Memory, f: Flight, dest: Option<int>)
    requires FlightOk(cfg, mem, f) && OnCourse(f, dest) && f.stage.BridgeFreeHeader?
    ensures f.msg.response
  {
  }

  /** A message past its event, or not at it, stays so. */
  ghost predicate SameSide(f: Flight, g: Flight) {
    (Unread(f) <==> Unread(g)) && (Undelivered(f) <==> Undelivered(g))
  }

  lemma OpSameSide(cfg: Config, mem: Memory, f: Flight, dest: Option<int>)
    requires FlightOk(cfg, mem, f) && OnCourse(f, dest) && !AtEvent(f) && !ThreadOf(f).Nobody? && !f.stage.Routing?
    ensures Preserves(NextOp(cfg, mem, f), f, g => SameSide(f, g), o => !Unread(f) && !Undelivered(f))
  {
    var op := NextOp(cfg, mem, f);
    NextDescends(cfg, mem, f, op);
    if Unread(f) { StaysUnread(cfg, mem, f, dest, op); }
    else if Undelivered(f) { StaysUndelivered(cfg, mem, f, dest, op); }
  }

  lemma OpCrosses(cfg: Config, s: State, id: nat)
    requires id in s.flights && FlightOk(cfg, s.mem, s.flights[id]) && AtEvent(s.flights[id])
    ensures var s' := Perform(cfg, s, id, NextOp(cfg, s.mem, s.flights[id]));
      id in s'.flights ==> !Unread(s'.flights[id]) && !Undelivered(s'.flights[id])
  {
    var f := s.flights[id];
    if f.msg.response { SeenDelivered(cfg, s.mem, f); } else { ReadingReads(cfg, s.mem, f); }
  }

  /** The response goes where it is addressed, and what the table will see is calm. */
  ghost predicate Destined(j: Joint, id: nat, dest: Option<int>)
    requires id in j.ms.flights
  {
    && (Undelivered(j.ms.flights[id]) && id in j.responses ==> Addressed(j.responses[id], Destination(dest)))
    && (Seen(j, id, dest).Some? ==> C.Calm(j.cs, Seen(j, id, dest).value))
  }

  /** Nothing is left for the table to see, or all of it. */
  ghost predicate SeenOrNot(j: Joint, j': Joint, id: nat, dest: Option<int>)
    requires id in j.ms.flights
  {
    || (Seen(j, id, dest).Some? && C.Enabled(j.cs, Seen(j, id, dest).value)
        && j'.cs == C.Apply(j.cs, Seen(j, id, dest).value)
        && (id in j'.ms.flights ==> !Unread(j'.ms.flights[id]) && !Undelivered(j'.ms.flights[id])))
    || (j'.cs == j.cs
        && if id in j'.ms.flights then SameSide(j.ms.flights[id], j'.ms.flights[id])
           else !Unread(j.ms.flights[id]) && !Undelivered(j.ms.flights[id]))
  }

  lemma SeenAtEvent(cfg: Config, j: Joint, id: nat, dest: Option<int>)
    requires RequestsOk(j) && ResponsesOk(j) && ValidConfig(cfg) && id in j.ms.flights
    requires FlightOk(cfg, j.ms.mem, j.ms.flights[id]) && OnCourse(j.ms.flights[id], dest) && AtEvent(j.ms.flights[id])
    ensures Seen(j, id, dest).Some? && C.Enabled(j.cs, Seen(j, id, dest).value)
  {
    if !j.ms.flights[id].msg.response { ReaderIsRegistered(cfg, j.ms.mem, j.ms.flights[id]); }
  }

  lemma CrossedSeen(j: Joint, j': Joint, id: nat, dest: Option<int>, e: Option<C.Event>)
    requires id in j.ms.flights && e == Seen(j, id, dest) && e.Some? && C.Enabled(j.cs, e.value)
    requires j'.cs == Follow(j.cs, e)
    requires id in j'.ms.flights ==> !Unread(j'.ms.flights[id]) && !Undelivered(j'.ms.flights[id])
    ensures SeenOrNot(j, j', id, dest)
  {
  }

  lemma StayedSeen(j: Joint, j': Joint, id: nat, dest: Option<int>)
    requires id in j.ms.flights && j'.cs == j.cs
    requires if id in j'.ms.flights then SameSide(j.ms.flights[id], j'.ms.flights[id])
             else !Unread(j.ms.flights[id]) && !Undelivered(j.ms.flights[id])
    ensures SeenOrNot(j, j', id, dest)
  {
  }

  lemma AdvanceSeen(cfg: Config, j: Joint, id: nat, dest: Option<int>, o: C.Origin)
    requires ValidConfig(cfg) && RequestsOk(j) && ResponsesOk(j) && id in j.ms.flights
    requires OnCourse(j.ms.flights[id], dest) && Enabled(cfg, j.ms, Advance(id))
    requires FlightOk(cfg, j.ms.mem, j.ms.flights[id])
    requires id in Apply(cfg, j.ms, Advance(id)).flights ==>
      Apply(cfg, j.ms, Advance(id)).flights[id].stage != Lost
    ensures SeenOrNot(j, Drive(cfg, j, Advance(id), o), id, dest)
    ensures EventOf(cfg, j, Advance(id), o) in {None, Seen(j, id, dest)}
  {
    if AtEvent(j.ms.flights[id]) { SeenHere(cfg, j, id, dest, o); } else { SeenElsewhere(cfg, j, id, dest, o); }
  }

  lemma SeenHere(cfg: Config, j: Joint, id: nat, dest: Option<int>, o: C.Origin)
    requires ValidConfig(cfg) && RequestsOk(j) && ResponsesOk(j) && id in j.ms.flights
    requires OnCourse(j.ms.flights[id], dest) && Enabled(cfg, j.ms, Advance(id)) && AtEvent(j.ms.flights[id])
    requires FlightOk(cfg, j.ms.mem, j.ms.flights[id])
    ensures SeenOrNot(j, Drive(cfg, j, Advance(id), o), id, dest)
    ensures EventOf(cfg, j, Advance(id), o) == Seen(j, id, dest)
  {
    var e := EventOfOp(j, id, NextOp(cfg, j.ms.mem, j.ms.flights[id]));
    EventHere(cfg, j, id, dest);
    SeenAtEvent(cfg, j, id, dest);
    DrivenByOp(cfg, j, id, o, e);
    AdvanceCrosses(cfg, j.ms, id);
    CrossedSeen(j, Drive(cfg, j, Advance(id), o), id, dest, e);
  }

  lemma NoEventElsewhere(cfg: Config, j: Joint, id: nat, dest: Option<int>)
    requires id in j.ms.flights && OnCourse(j.ms.flights[id], dest) && Enabled(cfg, j.ms, Advance(id))
    requires !AtEvent(j.ms.flights[id]) && FlightOk(cfg, j.ms.mem, j.ms.flights[id])
    ensures EventOfOp(j, id, NextOp(cfg, j.ms.mem, j.ms.flights[id])) == None
  {
    NothingSeen(cfg, j.ms.mem, j.ms.flights[id], dest);
    NoEvent(j, id, NextOp(cfg, j.ms.mem, j.ms.flights[id]));
  }

  lemma SeenElsewhere(cfg: Config, j: Joint, id: nat, dest: Option<int>, o: C.Origin)
    requires id in j.ms.flights && OnCourse(j.ms.flights[id], dest) && Enabled(cfg, j.ms, Advance(id))
    requires !AtEvent(j.ms.flights[id]) && FlightOk(cfg, j.ms.mem, j.ms.flights[id])
    requires id in Apply(cfg, j.ms, Advance(id)).flights ==>
      Apply(cfg, j.ms, Advance(id)).flights[id].stage != Lost
    ensures SeenOrNot(j, Drive(cfg, j, Advance(id), o), id, dest)
    ensures EventOf(cfg, j, Advance(id), o) == None
  {
    NoEventElsewhere(cfg, j, id, dest);
    DrivenByOp(cfg, j, id, o, None);
    AdvanceStays(cfg, j.ms, id, dest);
    StayedSeen(j, Drive(cfg, j, Advance(id), o), id, dest);
  }

  lemma AdvanceCrosses(cfg: Config, s: State, id: nat)
    requires Enabled(cfg, s, Advance(id)) && FlightOk(cfg, s.mem, s.flights[id]) && AtEvent(s.flights[id])
    ensures var s' := Apply(cfg, s, Advance(id));
      id in s'.flights ==> !Unread(s'.flights[id]) && !Undelivered(s'.flights[id])
  {
    AppliedAdvance(cfg, s, id);
    OpCrosses(cfg, s, id);
  }

  lemma AdvanceStays(cfg: Config, s: State, id: nat, dest: Option<int>)
    requires Enabled(cfg, s, Advance(id)) && FlightOk(cfg, s.mem, s.flights[id]) && OnCourse(s.flights[id], dest)
    requires !AtEvent(s.flights[id])
    requires id in Apply(cfg, s, Advance(id)).flights ==> Apply(cfg, s, Advance(id)).flights[id].stage != Lost
    ensures var f, s' := s.flights[id], Apply(cfg, s, Advance(id));
      if id in s'.flights then SameSide(f, s'.flights[id]) else !Unread(f) && !Undelivered(f)
  {
    var f := s.flights[id];
    AppliedAdvance(cfg, s, id);
    OpSameSide(cfg, s.mem, f, dest);
    PerformPreserves(cfg, s, id, NextOp(cfg, s.mem, f), g => SameSide(f, g), o => !Unread(f) && !Undelivered(f));
  }

  lemma DrivenQuietly(cfg: Config, j: Joint, step: Step, o: C.Origin)
    requires Enabled(cfg, j.ms, step) && (step.Take? || step.TakeReply? || step.Decide?)
    ensures EventOf(cfg, j, step, o) == None
    ensures Drive(cfg, j, step, o) == Joint(Apply(cfg, j.ms, step), j.cs, j.requests, j.responses)
  {
  }

  /** A step of another kind is nothing the table sees. */
  lemma OtherSeen(cfg: Config, j: Joint, id: nat, dest: Option<int>, o: C.Origin)
    requires Travelling(cfg, j.ms, id, dest)
    requires var step := CourseOf(j.ms.flights[id], id, dest); !step.Advance? && Enabled(cfg, j.ms, step)
    ensures var step := CourseOf(j.ms.flights[id], id, dest);
      SeenOrNot(j, Drive(cfg, j, step, o), id, dest) && EventOf(cfg, j, step, o) == None
  {
    var step := CourseOf(j.ms.flights[id], id, dest);
    DrivenQuietly(cfg, j, step, o);
    OtherSameSide(cfg, j.ms, id, dest);
    StayedSeen(j, Drive(cfg, j, step, o), id, dest);
  }

  lemma OtherSameSide(cfg: Config, s: State, id: nat, dest: Option<int>)
    requires Travelling(cfg, s, id, dest)
    requires var step := CourseOf(s.flights[id], id, dest); !step.Advance? && Enabled(cfg, s, step)
    ensures var s' := Apply(cfg, s, CourseOf(s.flights[id], id, dest));
      id in s'.flights && SameSide(s.flights[id], s'.flights[id])
  {
    if s.flights[id].stage.Queued? { TakeSameSide(cfg, s, id); }
    else if s.flights[id].stage.Routing? { DecideSameSide(cfg, s, id, Destination(dest)); }
    else { ReplySameSide(cfg, s, id); }
  }

  lemma TakeSameSide(cfg: Config, s: State, id: nat)
    requires Inv(MeshSpec(cfg), s) && Solo(s, id) && s.flights[id].stage.Queued?
    requires FlightOk(cfg, s.mem, s.flights[id]) && Enabled(cfg, s, Take(s.flights[id].stage.q))
    ensures var s' := Apply(cfg, s, Take(s.flights[id].stage.q));
      id in s'.flights && SameSide(s.flights[id], s'.flights[id])
  {
    var f := s.flights[id];
    SoloQueued(MeshSpec(cfg), s, id);
    TakenSameSide(cfg, s.mem, f, f.stage.q);
    AppliedTake(cfg, s, f.stage.q);
  }

  lemma DecideSameSide(cfg: Config, s: State, id: nat, d: Decision)
    requires Enabled(cfg, s, Decide(id, d))
    ensures var s' := Apply(cfg, s, Decide(id, d)); id in s'.flights && SameSide(s.flights[id], s'.flights[id])
  {
    AppliedChoice(cfg, s, id, d);
    DecidedFlight(s, id, d);
  }

  lemma ReplySameSide(cfg: Config, s: State, id: nat)
    requires Enabled(cfg, s, TakeReply(id))
    ensures var s' := Apply(cfg, s, TakeReply(id)); id in s'.flights && SameSide(s.flights[id], s'.flights[id])
  {
  }

  lemma TakenSameSide(cfg: Config, mem: Memory, f: Flight, q: QueueId)
    requires FlightOk(cfg, mem, f) && f.stage == Queued(q)
    ensures SameSide(f, f.(stage := TakenStage(q, f.desc)))
  {
  }

  // ----------------------------------------------------------------- the whole way, in both machines

  lemma StepSeen(cfg: Config, j: Joint, id: nat, dest: Option<int>, o: C.Origin)
    requires Coupled(cfg, j) && Travelling(cfg, j.ms, id, dest)
    requires Enabled(cfg, j.ms, CourseOf(j.ms.flights[id], id, dest))
    ensures var step := CourseOf(j.ms.flights[id], id, dest);
      SeenOrNot(j, Drive(cfg, j, step, o), id, dest) && EventOf(cfg, j, step, o) in {None, Seen(j, id, dest)}
  {
    var step := CourseOf(j.ms.flights[id], id, dest);
    if step.Advance? { AdvanceOnWay(cfg, j, id, dest, o); } else { OtherSeen(cfg, j, id, dest, o); }
  }

  lemma AdvanceOnWay(cfg: Config, j: Joint, id: nat, dest: Option<int>, o: C.Origin)
    requires Coupled(cfg, j) && Travelling(cfg, j.ms, id, dest) && Enabled(cfg, j.ms, Advance(id))
    ensures SeenOrNot(j, Drive(cfg, j, Advance(id), o), id, dest)
    ensures EventOf(cfg, j, Advance(id), o) in {None, Seen(j, id, dest)}
  {
    NotLostAfter(cfg, j.ms, Advance(id), id);
    AdvanceSeen(cfg, j, id, dest, o);
  }

  lemma CourseBehaves(j: Joint, id: nat, dest: Option<int>, o: C.Origin)
    requires id in j.ms.flights && Destined(j, id, dest)
    ensures Behaves(j, CourseOf(j.ms.flights[id], id, dest), o)
  {
  }

  /** One step on the way, in both machines. */
  lemma JointStep(cfg: Config, policy: Policy, j: Joint, id: nat, dest: Option<int>) returns (j': Joint)
    requires Met(cfg, policy, j) && Underway(cfg, policy, j.ms, id, dest) && Destined(j, id, dest)
    ensures Met(cfg, policy, j') && Moved(j.ms, j'.ms, id, dest) && OutcomesStay(j.ms, j'.ms)
    ensures SeenOrNot(j, j', id, dest) && j'.requests == j.requests && j'.responses == j.responses
    ensures id in j'.ms.flights && !j'.ms.flights[id].stage.Orphaned? ==> Underway(cfg, policy, j'.ms, id, dest)
  {
    var step, o := CourseOf(j.ms.flights[id], id, dest), C.Bridge(0);
    var s' := StepOnWay(cfg, policy, j.ms, id, dest);
    DrivenOn(cfg, j, id, dest, o);
    SeenOnWay(cfg, policy, j, id, dest, o);
    j' := Drive(cfg, j, step, o);
  }

  lemma DrivenOn(cfg: Config, j: Joint, id: nat, dest: Option<int>, o: C.Origin)
    requires id in j.ms.flights && Enabled(cfg, j.ms, CourseOf(j.ms.flights[id], id, dest))
    ensures var step := CourseOf(j.ms.flights[id], id, dest);
      var j' := Drive(cfg, j, step, o);
      j'.ms == Apply(cfg, j.ms, step) && j'.requests == j.requests && j'.responses == j.responses
  {
  }

  lemma SeenOnWay(cfg: Config, policy: Policy, j: Joint, id: nat, dest: Option<int>, o: C.Origin)
    requires Met(cfg, policy, j) && Underway(cfg, policy, j.ms, id, dest) && Destined(j, id, dest)
    requires var step := CourseOf(j.ms.flights[id], id, dest); Enabled(cfg, j.ms, step) && Follows(policy, j.ms, step)
    ensures var j' := Drive(cfg, j, CourseOf(j.ms.flights[id], id, dest), o);
      Met(cfg, policy, j') && SeenOrNot(j, j', id, dest)
  {
    TravelHolds(cfg, policy, j.ms, id, dest);
    MetIsAttained(cfg, policy, j);
    CourseBehaves(j, id, dest, o);
    StepSeen(cfg, j, id, dest, o);
    MetStep(cfg, policy, j, CourseOf(j.ms.flights[id], id, dest), o);
  }

  /** The table once the message has come to its end. */
  ghost function Final(j: Joint, id: nat, dest: Option<int>): C.State
    requires id in j.ms.flights
  {
    var e := Seen(j, id, dest);
    if e.Some? && C.Enabled(j.cs, e.value) then C.Apply(j.cs, e.value) else j.cs
  }

  /** What is left to see is the same after a step that was not seen, and nothing after one that was. */
  lemma FinalAfter(j: Joint, j': Joint, id: nat, dest: Option<int>)
    requires id in j.ms.flights && SeenOrNot(j, j', id, dest)
    requires j'.requests == j.requests && j'.responses == j.responses
    ensures if id in j'.ms.flights then Final(j', id, dest) == Final(j, id, dest) else j'.cs == Final(j, id, dest)
  {
  }

  lemma StillDestined(j: Joint, j': Joint, id: nat, dest: Option<int>)
    requires id in j.ms.flights && id in j'.ms.flights && SeenOrNot(j, j', id, dest) && Destined(j, id, dest)
    requires j'.requests == j.requests && j'.responses == j.responses
    ensures Destined(j', id, dest)
  {
  }

  lemma OrphanIsSeen(j: Joint, id: nat, dest: Option<int>)
    requires id in j.ms.flights && j.ms.flights[id].stage.Orphaned? && j.ms.flights[id].msg.response
    ensures Final(j, id, dest) == j.cs
  {
  }

  /** A message comes to its end in both machines: a request has been read, a response delivered. */
  lemma {:induction false} JointTravels(cfg: Config, policy: Policy, j: Joint, id: nat, dest: Option<int>)
    returns (j': Joint)
    requires Met(cfg, policy, j) && Underway(cfg, policy, j.ms, id, dest) && Destined(j, id, dest)
    ensures Met(cfg, policy, j') && Ended(j.ms, j'.ms, id, dest) && OutcomesStay(j.ms, j'.ms)
    ensures j'.cs == Final(j, id, dest) && j'.requests == j.requests && j'.responses == j.responses
    decreases Rank(j.ms.flights[id].stage)
  {
    var j1 := JointStep(cfg, policy, j, id, dest);
    FinalAfter(j, j1, id, dest);
    if id !in j1.ms.flights {
      j' := j1;
    } else if j1.ms.flights[id].stage.Orphaned? {
      OrphanIsSeen(j1, id, dest);
      j' := j1;
    } else {
      StillDestined(j, j1, id, dest);
      j' := JointTravels(cfg, policy, j1, id, dest);
      EndsAfter(j.ms, j1.ms, j'.ms, id, dest);
    }
  }

  // ----------------------------------------------------------------- a request and its answer

  /** A message is written to a quiet pipeline, with the event of its writing. */
  lemma WrittenEvent(cfg: Config, j: Joint, m: Msg, o: C.Origin)
    requires Coupled(cfg, j) && j.ms.flights == map[] && ValidMsg(cfg, m) && !m.bridge && Writes(j, m, o)
    ensures Enabled(cfg, j.ms, BeginWrite(m)) && Apply(cfg, j.ms, BeginWrite(m)) == Started(cfg, j.ms, m)
    ensures var e := if m.response then C.Answer(m.pod, o, true) else C.Issue(m.pod, true);
      && C.Enabled(j.cs, e) && EventOf(cfg, j, BeginWrite(m), o) == Some(e)
      && Drive(cfg, j, BeginWrite(m), o) == Joint(Started(cfg, j.ms, m), C.Apply(j.cs, e),
           NewRequests(j, BeginWrite(m)), NewResponses(j, BeginWrite(m), o))
  {
    FreshIdentity(cfg, j);
    RoomToStart(cfg, j.ms, m);
  }

  lemma StartedAlone(cfg: Config, s: State, m: Msg)
    requires s.flights == map[] && FirstFree(cfg, s.owner, HostTxHeader(Service(cfg, m.pod)), 0) >= 0 && !m.bridge
    ensures var s' := Started(cfg, s, m);
      && s'.flights.Keys == {s.next} && s'.flights[s.next].msg == m && s'.flights[s.next].stage.WriteHeader?
  {
  }

  lemma JointDeparts(cfg: Config, policy: Policy, j: Joint, m: Msg, dest: Option<int>, o: C.Origin) returns (j': Joint)
    requires ValidConfig(cfg) && Met(cfg, policy, j) && j.ms.flights == map[] && !m.bridge
    requires Sent(cfg, policy, j.ms.next, m, dest) && Writes(j, m, o)
    ensures Met(cfg, policy, j') && Underway(cfg, policy, j'.ms, j.ms.next, dest) && OutcomesStay(j.ms, j'.ms)
    ensures j'.ms.flights.Keys == {j.ms.next} && j'.ms.flights[j.ms.next].msg == m
    ensures j'.ms.flights[j.ms.next].stage.WriteHeader?
    ensures j'.ms.next == j.ms.next + 1 && j'.ms.waiting == Registered(j.ms, m)
    ensures var e := if m.response then C.Answer(m.pod, o, true) else C.Issue(m.pod, true);
      C.Enabled(j.cs, e) && j'.cs == C.Apply(j.cs, e)
    ensures j'.requests == NewRequests(j, BeginWrite(m)) && j'.responses == NewResponses(j, BeginWrite(m), o)
  {
    MetIsAttained(cfg, policy, j);
    QuietIsOpen(cfg, j.ms, dest);
    var s' := Departs(cfg, policy, j.ms, m, dest);
    WrittenEvent(cfg, j, m, o);
    FreshIdentity(cfg, j);
    RoomToStart(cfg, j.ms, m);
    StartedAlone(cfg, j.ms, m);
    MetStep(cfg, policy, j, BeginWrite(m), o);
    j' := Drive(cfg, j, BeginWrite(m), o);
  }

  /** A request and its answer: for every two registered pods and every policy that carries them there and back, the
      request is read, the answer is delivered, and on the first request's own pipe. */
  lemma Exchange(cfg: Config, policy: Policy, from: int, to: int, request: Bytes, answer: Bytes, body: Bytes,
      reply: Bytes) returns (j: Joint)
    requires ValidConfig(cfg) && from in cfg.registry && to in cfg.registry
    requires 1 <= |request| < MAX_HEADER && 1 <= |answer| < MAX_HEADER && |body| < WORD / 2 && |reply| < WORD / 2
    requires policy(0, request, false) == Forward(to) && policy(1, answer, true) == Forward(from)
    ensures Met(cfg, policy, j) && j.ms.flights == map[] && {0, 1} <= j.ms.outcomes.Keys
    ensures Arrival(j.ms.outcomes[0], Msg(false, from, false, false, 1, request, body), Some(to))
    ensures Arrival(j.ms.outcomes[1], Msg(false, to, true, false, 1, answer, reply), Some(from))
    ensures from >= 0 && j.cs.arrivals == [C.OnPipe(from, 0, C.Worker(from, 0))]
  {
    var o := C.Worker(from, 0);
    StartIsMet(cfg, policy);
    var j1 := RequestCarried(cfg, policy, from, to, request, body);
    j := AnswerCarried(cfg, policy, j1, from, to, answer, reply);
  }

  lemma RequestCarried(cfg: Config, policy: Policy, from: int, to: int, request: Bytes, body: Bytes)
    returns (j: Joint)
    requires ValidConfig(cfg) && from in cfg.registry && to in cfg.registry
    requires 1 <= |request| < MAX_HEADER && |body| < WORD / 2 && policy(0, request, false) == Forward(to)
    ensures from >= 0 && to >= 0 && Met(cfg, policy, j) && j.ms.flights == map[] && j.ms.next == 1
    ensures 0 in j.ms.outcomes
      && Arrival(j.ms.outcomes[0], Msg(false, from, false, false, 1, request, body), Some(to))
    ensures (from, 1) in j.ms.waiting
    ensures j.cs == C.Apply(C.Apply(C.Init, C.Issue(from, true)), C.Read(to, C.Worker(from, 0)))
  {
    var m := Msg(false, from, false, false, 1, request, body);
    var o := C.Worker(from, 0);
    StartIsMet(cfg, policy);
    var j0 := JointDeparts(cfg, policy, Start, m, Some(to), o);
    assert j0.requests[0] == o && Unread(j0.ms.flights[0]);
    assert Seen(j0, 0, Some(to)) == Some(C.Read(to, o));
    j := JointTravels(cfg, policy, j0, 0, Some(to));
    Emptied(j0.ms, j.ms, 0);
  }

  lemma Emptied(s: State, s': State, id: nat)
    requires s.flights.Keys == {id} && OthersStay(s, s', id) && id !in s'.flights
    ensures s'.flights == map[]
  {
    assert s'.flights == s'.flights - {id};
  }

  lemma AnswerCarried(cfg: Config, policy: Policy, j: Joint, from: int, to: int, answer: Bytes, reply: Bytes)
    returns (j': Joint)
    requires ValidConfig(cfg) && Met(cfg, policy, j) && j.ms.flights == map[] && j.ms.next == 1
    requires from in cfg.registry && to in cfg.registry && from >= 0 && to >= 0 && (from, 1) in j.ms.waiting
    requires 1 <= |answer| < MAX_HEADER && |reply| < WORD / 2 && policy(1, answer, true) == Forward(from)
    requires j.cs == C.Apply(C.Apply(C.Init, C.Issue(from, true)), C.Read(to, C.Worker(from, 0)))
    ensures Met(cfg, policy, j') && j'.ms.flights == map[] && OutcomesStay(j.ms, j'.ms)
    ensures 1 in j'.ms.outcomes
      && Arrival(j'.ms.outcomes[1], Msg(false, to, true, false, 1, answer, reply), Some(from))
    ensures j'.cs.arrivals == [C.OnPipe(from, 0, C.Worker(from, 0))]
  {
    var m := Msg(false, to, true, false, 1, answer, reply);
    var o := C.Worker(from, 0);
    AnswerIsWritten(j, m, from, to);
    var j1 := JointDeparts(cfg, policy, j, m, Some(from), o);
    AnswerIsSeen(j, j1, m, from, to);
    j' := JointTravels(cfg, policy, j1, 1, Some(from));
    Emptied(j1.ms, j'.ms, 1);
  }

  lemma AnswerIsWritten(j: Joint, m: Msg, from: nat, to: nat)
    requires j.cs == C.Apply(C.Apply(C.Init, C.Issue(from, true)), C.Read(to, C.Worker(from, 0)))
    requires m.pod == to && m.reqId == 1 && m.response
    ensures Writes(j, m, C.Worker(from, 0))
  {
  }

  /** The answer is addressed to the worker that asked, and in time. */
  lemma AnswerIsSeen(j: Joint, j1: Joint, m: Msg, from: nat, to: nat)
    requires j.cs == C.Apply(C.Apply(C.Init, C.Issue(from, true)), C.Read(to, C.Worker(from, 0)))
    requires m.pod == to && m.response && !m.bridge && j.ms.next == 1
    requires C.Enabled(j.cs, C.Answer(to, C.Worker(from, 0), true))
    requires j1.cs == C.Apply(j.cs, C.Answer(to, C.Worker(from, 0), true))
    requires j1.responses == NewResponses(j, BeginWrite(m), C.Worker(from, 0))
    requires 1 in j1.ms.flights && j1.ms.flights[1].msg == m && j1.ms.flights[1].stage.WriteHeader?
    ensures Destined(j1, 1, Some(from))
    ensures Final(j1, 1, Some(from)).arrivals == [C.OnPipe(from, 0, C.Worker(from, 0))]
  {
    var o := C.Worker(from, 0);
    assert j1.responses[1] == C.Response(C.MetaOf(o), o);
    assert Seen(j1, 1, Some(from as int)) == Some(C.Deliver(C.Response(C.MetaOf(o), o)));
  }
}
