/** The two tables of one worker as the library keeps them: arrays updated in place, indexed by the request id
    modulo 256. Each operation is proved to be the corresponding event of the correlation machine. */
module Tables {
  import opened Options
  import opened Descriptor
  import opened Correlation

  class Context {
    var nextReqId: nat
    const pipes: array<int>
    const inbound: array<Meta>

    /** The tables hold worker `w`'s part of the machine's state. A pipe is named by the serial of the request
        it was made for; -1 is an empty entry. */
    ghost predicate Represents(s: State, w: nat)
      reads this, pipes, inbound
    {
      && pipes.Length == MAX_PENDING && inbound.Length == MAX_PENDING
      && nextReqId == ReqId(Next(s, w))
      && (forall i | 0 <= i < MAX_PENDING :: pipes[i] == PipeAt(s, w, i))
      && (forall i | 0 <= i < MAX_PENDING :: (w, i) in s.inbound ==> inbound[i] == s.inbound[(w, i)])
    }

    constructor ()
      ensures fresh(pipes) && fresh(inbound)
      ensures forall w: nat :: Represents(Init, w)
    {
      nextReqId := 1;
      pipes := new int[MAX_PENDING](i => -1);
      inbound := new Meta[MAX_PENDING](i => Meta(0, None, 0));
    }

    /** The request half of dpumesh_write: take an id, install the new pipe. Holds whether or not the buffers
        for the message are then found. */
    method IssueRequest(pipe: nat, ghost s: State, ghost w: nat) returns (reqId: nat)
      requires Represents(s, w) && pipe == Next(s, w)
      modifies this`nextReqId, pipes
      ensures reqId == MetaOf(Worker(w, pipe)).reqId
      ensures forall sent :: Represents(Apply(s, Issue(w, sent)), w)
    {
      reqId := nextReqId;
      nextReqId := (nextReqId + 1) % WORD;
      WrapStep(pipe);
      pipes[reqId % MAX_PENDING] := pipe;
    }

    /** The poller on a response: the pipe it is written to, -1 when there is none. */
    method TakePipe(reqId: nat, ghost s: State, ghost w: nat, ghost r: Response) returns (pipe: int)
      requires Represents(s, w) && r in s.responses && r.meta.reqId == reqId && r.meta.source == Some(w)
      modifies pipes
      ensures Represents(Apply(s, Deliver(r)), w)
      ensures Apply(s, Deliver(r)).arrivals ==
        s.arrivals + [if pipe >= 0 then OnPipe(w, pipe, r.answers) else Dropped(r.answers)]
    {
      var i := reqId % MAX_PENDING;
      pipe := pipes[i];
      if pipe >= 0 {
        pipes[i] := -1;
      }
    }

    /** dpumesh_read stores the routing metadata before it calls the handler. */
    method NoteInbound(meta: Meta, ghost s: State, ghost w: nat, ghost o: Origin) returns (index: nat)
      requires Represents(s, w) && o in s.requests && meta == MetaOf(o)
      modifies inbound
      ensures index == IndexOf(o) && Represents(Apply(s, Read(w, o)), w)
    {
      index := meta.reqId % MAX_PENDING;
      inbound[index] := meta;
    }

    /** The response half of dpumesh_write: the metadata the answer will carry. */
    method AddressAnswer(index: nat, ghost s: State, ghost w: nat, ghost o: Origin) returns (meta: Meta)
      requires Represents(s, w) && Enabled(s, Answer(w, o, true)) && index == IndexOf(o)
      ensures Response(meta, o) in Apply(s, Answer(w, o, true)).responses
      ensures Reached(s) ==> meta == MetaOf(o)
    {
      meta := inbound[index];
      if Reached(s) {
        ReachedInv(s);
        assert (w, o) in s.held;
      }
    }
  }

  ghost function PipeAt(s: State, w: nat, i: nat): int {
    if (w, i) in s.pipes then s.pipes[(w, i)] else -1
  }

  lemma WrapStep(n: nat)
    ensures (ReqId(n) + 1) % WORD == ReqId(n + 1)
  {
  }
}
