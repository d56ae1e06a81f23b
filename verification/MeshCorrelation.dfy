/** The pipeline and the correlation machine run together: the pipeline's set of waiting pipes is the domain of the
    correlation machine's table, so that what is proved of the table is true of the pipeline. */
module MeshCorrelation {
  import opened Options
  import opened Descriptor
  import Mesh
  import Ledger
  import C = Correlation

  ghost function Entries(cs: C.State): set<(int, int)> {
    set at | at in cs.pipes :: (at.0, at.1)
  }

  /** The same pipes wait. */
  ghost predicate Agree(ms: Mesh.State, cs: C.State) {
    ms.waiting == Entries(cs)
  }

  predicate IsPolledResponse(f: Mesh.Flight) {
    f.stage.Polled? && f.desc.IsResponse()
  }

  /** A polled response and its counterpart. */
  ghost predicate Counterpart(f: Mesh.Flight, r: C.Response) {
    && IsPolledResponse(f) && f.desc.dstPodId >= 0 && f.desc.reqId >= 0
    && r.meta.source == Some(f.desc.dstPodId) && r.meta.reqId == f.desc.reqId
  }

  /** The events that go with a step of the pipeline. A worker's request takes the next id of its counter; a polled
      response is a delivery; no other step touches a pipe. */
  ghost predicate Together(ms: Mesh.State, cs: C.State, step: Mesh.Step, e: Option<C.Event>) {
    if step.BeginWrite? && !step.msg.response then
      && step.msg.pod >= 0 && e.Some? && e.value.Issue? && e.value.w == step.msg.pod
      && step.msg.reqId == C.ReqId(C.Next(cs, step.msg.pod))
    else if step.Advance? && step.id in ms.flights && IsPolledResponse(ms.flights[step.id]) then
      e.Some? && e.value.Deliver? && Counterpart(ms.flights[step.id], e.value.r)
    else
      e.None? || (!e.value.Issue? && !(e.value.Deliver? && e.value.r.meta.source.Some?))
  }

  ghost function Follow(cs: C.State, e: Option<C.Event>): C.State
    requires e.Some? ==> C.Enabled(cs, e.value)
  {
    if e.None? then cs else C.Apply(cs, e.value)
  }

  ghost predicate Goes(cfg: Mesh.Config, ms: Mesh.State, cs: C.State, step: Mesh.Step, e: Option<C.Event>) {
    Mesh.Enabled(cfg, ms, step) && (e.Some? ==> C.Enabled(cs, e.value)) && Together(ms, cs, step, e)
  }

  // ----------------------------------------------------------------- every pair of steps agrees

  lemma IssueAgrees(cfg: Mesh.Config, ms: Mesh.State, cs: C.State, m: Mesh.Msg, sent: bool)
    requires Agree(ms, cs) && !m.response && m.pod >= 0 && m.reqId == C.ReqId(C.Next(cs, m.pod))
    ensures Agree(Mesh.BeginWriteStep(cfg, ms, m), C.Apply(cs, C.Issue(m.pod, sent)))
  {
    var w: nat := m.pod;
    var n := C.Next(cs, w);
    var i := C.IndexOf(C.Worker(w, n));
    var cs' := C.Apply(cs, C.Issue(w, sent));
    assert i == m.reqId % MAX_PENDING;
    assert cs'.pipes == cs.pipes[(w, i) := n];
    forall p: (int, int) ensures p in Entries(cs') <==> p in Entries(cs) + {(m.pod, m.reqId % MAX_PENDING)} {
      if p in Entries(cs) {
        var at :| at in cs.pipes && (at.0 as int, at.1 as int) == p;
        assert at in cs'.pipes;
      }
      if p == (m.pod, m.reqId % MAX_PENDING) { assert (w, i) in cs'.pipes; }
    }
  }

  /** The poller's answer and the delivery see the same entry, and leave the same table. */
  lemma AnswerAgrees(cfg: Mesh.Config, ms: Mesh.State, cs: C.State, id: nat, r: C.Response)
    requires Agree(ms, cs) && id in ms.flights && r in cs.responses && Counterpart(ms.flights[id], r)
    ensures var x := ms.flights[id].desc;
      var ms' := Mesh.Perform(cfg, ms, id, Mesh.Answer(x.dstPodId, x.reqId % MAX_PENDING));
      var cs' := C.Apply(cs, C.Deliver(r));
      && Agree(ms', cs')
      && |cs'.arrivals| == |cs.arrivals| + 1
      && (ms'.flights[id].stage.Replied? <==> cs'.arrivals[|cs.arrivals|].OnPipe?)
      && (ms'.flights[id].stage.Orphaned? <==> cs'.arrivals[|cs.arrivals|].Dropped?)
  {
    var x := ms.flights[id].desc;
    var w: nat, i := x.dstPodId, C.Index(r.meta);
    assert i == x.reqId % MAX_PENDING;
    var cs' := C.Apply(cs, C.Deliver(r));
    assert (w, i) in cs.pipes <==> (x.dstPodId, i as int) in Entries(cs);
    forall p: (int, int) ensures p in Entries(cs') <==> p in Entries(cs) - {(x.dstPodId, i as int)} {
      if p in Entries(cs) && p != (x.dstPodId, i as int) {
        var at :| at in cs.pipes && (at.0 as int, at.1 as int) == p;
        assert at in cs'.pipes;
      }
    }
  }

  lemma OthersAgree(cs: C.State, e: C.Event)
    requires C.Enabled(cs, e) && !e.Issue? && !(e.Deliver? && e.r.meta.source.Some?)
    ensures Entries(C.Apply(cs, e)) == Entries(cs)
  {
  }

  lemma PerformKeepsWaiting(cfg: Mesh.Config, ms: Mesh.State, id: nat, op: Mesh.Op)
    requires id in ms.flights && !op.Answer?
    ensures Mesh.Perform(cfg, ms, id, op).waiting == ms.waiting
  {
  }

  /** Only a worker's request and a polled response touch the pipes. */
  lemma WaitingStays(cfg: Mesh.Config, ms: Mesh.State, step: Mesh.Step)
    requires Mesh.Enabled(cfg, ms, step) && !(step.BeginWrite? && !step.msg.response)
    requires step.Advance? ==> !Mesh.NextOp(cfg, ms.mem, ms.flights[step.id]).Answer?
    ensures Mesh.Apply(cfg, ms, step).waiting == ms.waiting
  {
    if step.Advance? { PerformKeepsWaiting(cfg, ms, step.id, Mesh.NextOp(cfg, ms.mem, ms.flights[step.id])); }
  }

  lemma OnlyPollingAnswers(cfg: Mesh.Config, mem: Ledger.Memory, f: Mesh.Flight)
    ensures Mesh.NextOp(cfg, mem, f).Answer? <==> f.stage.Polled? && f.desc.IsResponse()
    ensures f.stage.Polled? && f.desc.IsResponse() ==>
      Mesh.NextOp(cfg, mem, f) == Mesh.Answer(f.desc.dstPodId, f.desc.reqId % MAX_PENDING)
  {
  }

  lemma StepAgrees(cfg: Mesh.Config, ms: Mesh.State, cs: C.State, step: Mesh.Step, e: Option<C.Event>)
    requires Agree(ms, cs) && Goes(cfg, ms, cs, step, e)
    ensures Agree(Mesh.Apply(cfg, ms, step), Follow(cs, e))
  {
    if step.Advance? { OnlyPollingAnswers(cfg, ms.mem, ms.flights[step.id]); }
    if step.BeginWrite? && !step.msg.response {
      IssueAgrees(cfg, ms, cs, step.msg, e.value.sent);
    } else if step.Advance? && IsPolledResponse(ms.flights[step.id]) {
      AnswerAgrees(cfg, ms, cs, step.id, e.value.r);
    } else {
      WaitingStays(cfg, ms, step);
      if e.Some? { OthersAgree(cs, e.value); }
    }
  }

  // ----------------------------------------------------------------- runs

  /** Two runs side by side, from the two empty states. */
  ghost predicate JointRun(cfg: Mesh.Config, ms: seq<Mesh.State>, cs: seq<C.State>, steps: seq<Mesh.Step>,
      events: seq<Option<C.Event>>) {
    && |ms| == |cs| == |steps| + 1 == |events| + 1 && ms[0] == Mesh.Init && cs[0] == C.Init
    && forall i | 0 <= i < |steps| ::
         && Goes(cfg, ms[i], cs[i], steps[i], events[i])
         && ms[i + 1] == Mesh.Apply(cfg, ms[i], steps[i]) && cs[i + 1] == Follow(cs[i], events[i])
  }

  lemma {:induction false} RunAgrees(cfg: Mesh.Config, ms: seq<Mesh.State>, cs: seq<C.State>, steps: seq<Mesh.Step>,
      events: seq<Option<C.Event>>, i: nat)
    requires JointRun(cfg, ms, cs, steps, events) && i < |ms|
    ensures Agree(ms[i], cs[i])
  {
    if i > 0 {
      RunAgrees(cfg, ms, cs, steps, events, i - 1);
      StepAgrees(cfg, ms[i - 1], cs[i - 1], steps[i - 1], events[i - 1]);
    }
  }
}
