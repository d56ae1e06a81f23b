/** How answers find their requests: the sender's table of response pipes and the receiver's table of inbound
    metadata, both indexed by the request id modulo 256, under every interleaving of the workers. */
module Correlation {
  import opened Options
  import opened Descriptor

  /** The identity of a request: the sender's n-th, or the k-th of the bridge. */
  datatype Origin = Worker(worker: nat, serial: nat) | Bridge(k: nat)

  /** What a request carries and a response copies from the inbound table: the 32-bit id, the source worker
      (none for the bridge), and the id string (a fresh one for each bridge request). */
  datatype Meta = Meta(reqId: nat, source: Option<nat>, idString: nat)

  function ReqId(serial: nat): (id: nat)
    ensures id < WORD
  {
    (serial + 1) % WORD
  }

  function MetaOf(o: Origin): Meta {
    match o
    case Worker(w, n) => Meta(ReqId(n), Some(w), ReqId(n))
    case Bridge(k) => Meta(0, None, k)
  }

  function Index(m: Meta): (i: nat)
    ensures i < MAX_PENDING
  {
    m.reqId % MAX_PENDING
  }

  function IndexOf(o: Origin): nat {
    Index(MetaOf(o))
  }

  /** `answers` is history: the request whose handler wrote this response. */
  datatype Response = Response(meta: Meta, answers: Origin)

  /** Where a response ended up: on the pipe of a serial, at the bridge under an id string, or nowhere. */
  datatype Arrival =
    | OnPipe(worker: nat, serial: nat, answers: Origin)
    | AtBridge(idString: nat, answers: Origin)
    | Dropped(answers: Origin)

  datatype State = State(
    next: map<nat, nat>,
    bridged: nat,
    pipes: map<(nat, nat), nat>,
    inbound: map<(nat, nat), Meta>,
    requests: set<Origin>,
    held: set<(nat, Origin)>,
    responses: set<Response>,
    arrivals: seq<Arrival>)

  const Init: State := State(map[], 0, map[], map[], {}, {}, {}, [])

  function Next(s: State, w: nat): nat {
    if w in s.next then s.next[w] else 0
  }

  datatype Event =
    | Issue(w: nat, sent: bool)            // dpumesh_write of a request; not sent when no buffer is free
    | Inject                               // a bridge client
    | Read(v: nat, o: Origin)              // dpumesh_read at the worker the request was routed to
    | Answer(v: nat, o: Origin, sent: bool)
    | Deliver(r: Response)                 // the poller, or the bridge
    | LoseRequest(o: Origin)               // no worker, or no room
    | LoseResponse(r: Response)

  predicate Enabled(s: State, e: Event) {
    match e
    case Issue(_, _) => true
    case Inject => true
    case Read(_, o) => o in s.requests
    case Answer(v, o, _) => (v, o) in s.held && (v, IndexOf(o)) in s.inbound
    case Deliver(r) => r in s.responses
    case LoseRequest(o) => o in s.requests
    case LoseResponse(r) => r in s.responses
  }

  function Apply(s: State, e: Event): State
    requires Enabled(s, e)
  {
    match e
    case Issue(w, sent) =>
      var n := Next(s, w);
      var o := Worker(w, n);
      s.(next := s.next[w := n + 1], pipes := s.pipes[(w, IndexOf(o)) := n],
         requests := if sent then s.requests + {o} else s.requests)
    case Inject => s.(bridged := s.bridged + 1, requests := s.requests + {Bridge(s.bridged)})
    case Read(v, o) =>
      s.(requests := s.requests - {o}, held := s.held + {(v, o)}, inbound := s.inbound[(v, IndexOf(o)) := MetaOf(o)])
    case Answer(v, o, sent) =>
      var r := Response(s.inbound[(v, IndexOf(o))], o);
      s.(held := s.held - {(v, o)}, responses := if sent then s.responses + {r} else s.responses)
    case Deliver(r) => Arrive(s.(responses := s.responses - {r}), r)
    case LoseRequest(o) => s.(requests := s.requests - {o})
    case LoseResponse(r) => s.(responses := s.responses - {r})
  }

  function Arrive(s: State, r: Response): State {
    if r.meta.source.None? then s.(arrivals := s.arrivals + [AtBridge(r.meta.idString, r.answers)])
    else
      var at := (r.meta.source.value, Index(r.meta));
      if at in s.pipes then s.(pipes := s.pipes - {at}, arrivals := s.arrivals + [OnPipe(at.0, s.pipes[at], r.answers)])
      else s.(arrivals := s.arrivals + [Dropped(r.answers)])
  }

  /** The two conditions. A response is delivered before its sender has gone 256 requests further; a
      request is read only when no unanswered one at that worker has the same index. */
  ghost predicate Calm(s: State, e: Event) {
    match e
    case Deliver(r) => r.answers.Worker? ==> InTime(s, r.answers)
    case Read(v, o) => Unshared(s, v, o)
    case _ => true
  }

  predicate InTime(s: State, o: Origin)
    requires o.Worker?
  {
    Next(s, o.worker) <= o.serial + MAX_PENDING
  }

  ghost predicate Unshared(s: State, v: nat, o: Origin) {
    forall o' | (v, o') in s.held :: IndexOf(o') != IndexOf(o)
  }

  /** A run whose events are all enabled and calm. */
  ghost predicate CalmRun(s: State, run: seq<Event>)
    decreases |run|
  {
    run == [] || (Enabled(s, run[0]) && Calm(s, run[0]) && CalmRun(Apply(s, run[0]), run[1..]))
  }

  ghost function After(s: State, run: seq<Event>): State
    requires CalmRun(s, run)
    decreases |run|
  {
    if run == [] then s else After(Apply(s, run[0]), run[1..])
  }

  ghost predicate Reached(s: State) {
    exists run :: CalmRun(Init, run) && s == After(Init, run)
  }

  // ----------------------------------------------------------------- the invariant

  ghost predicate Issued(s: State, o: Origin) {
    match o
    case Worker(w, n) => n < Next(s, w)
    case Bridge(k) => k < s.bridged
  }

  /** The request is still on its way, or its answer is. */
  ghost predicate Open(s: State, o: Origin) {
    || o in s.requests
    || (exists v :: (v, o) in s.held)
    || (exists r :: r in s.responses && r.answers == o)
  }

  ghost predicate AllIssued(s: State) {
    && (forall o | o in s.requests :: Issued(s, o))
    && (forall h | h in s.held :: Issued(s, h.1))
    && (forall r | r in s.responses :: Issued(s, r.answers))
  }

  /** A request is in one place only: under way, held by one worker, or answered by one response. */
  ghost predicate Once(s: State) {
    && (forall h | h in s.held :: h.1 !in s.requests)
    && (forall h, h' | h in s.held && h' in s.held && h.1 == h'.1 :: h == h')
    && (forall r | r in s.responses :: r.answers !in s.requests)
    && (forall r, h | r in s.responses && h in s.held :: r.answers != h.1)
    && (forall r, r' | r in s.responses && r' in s.responses && r.answers == r'.answers :: r == r')
  }

  /** Held requests find their own metadata, responses carry it. */
  ghost predicate Addressed(s: State) {
    && (forall h | h in s.held :: (h.0, IndexOf(h.1)) in s.inbound && s.inbound[(h.0, IndexOf(h.1))] == MetaOf(h.1))
    && (forall r | r in s.responses :: r.meta == MetaOf(r.answers))
  }

  /** Every pipe in the table is that of the last request with its index. */
  ghost predicate Piped(s: State) {
    forall at | at in s.pipes :: PipeOk(s, at.0, at.1, s.pipes[at])
  }

  ghost predicate PipeOk(s: State, w: nat, i: nat, n: nat) {
    n < Next(s, w) <= n + MAX_PENDING && IndexOf(Worker(w, n)) == i
  }

  /** An open request that is in time still has its pipe. */
  ghost predicate Waiting(s: State) {
    forall o | Open(s, o) && o.Worker? && InTime(s, o) :: HasPipe(s, o)
  }

  ghost predicate HasPipe(s: State, o: Origin)
    requires o.Worker?
  {
    (o.worker, IndexOf(o)) in s.pipes && s.pipes[(o.worker, IndexOf(o))] == o.serial
  }

  ghost predicate Matched(a: Arrival) {
    match a
    case OnPipe(w, n, o) => o == Worker(w, n)
    case AtBridge(k, o) => o == Bridge(k)
    case Dropped(_) => false
  }

  ghost predicate AllMatched(s: State) {
    forall i | 0 <= i < |s.arrivals| :: Matched(s.arrivals[i])
  }

  ghost predicate Inv(s: State) {
    AllIssued(s) && Once(s) && Addressed(s) && Piped(s) && Waiting(s) && AllMatched(s)
  }

  // ----------------------------------------------------------------- arithmetic of the index

  /** 256 divides 2^32, so the wrap-around of the id does not disturb its index. */
  lemma IndexOfSerial(n: nat)
    ensures ReqId(n) % MAX_PENDING == (n + 1) % MAX_PENDING
  {
    var q := (n + 1) / WORD;
    assert n + 1 == q * WORD + ReqId(n);
    assert q * WORD == MAX_PENDING * (q * 0x100_0000);
    ModAdd(ReqId(n), q * 0x100_0000);
  }

  lemma ModAdd(a: nat, k: nat)
    ensures (a + MAX_PENDING * k) % MAX_PENDING == a % MAX_PENDING
  {
    if k > 0 {
      ModAdd(a, k - 1);
      assert a + MAX_PENDING * k == (a + MAX_PENDING * (k - 1)) + MAX_PENDING;
    }
  }

  lemma Residues(a: nat, b: nat)
    requires a < b < a + MAX_PENDING
    ensures a % MAX_PENDING != b % MAX_PENDING
  {
  }

  /** In a window of 256 serials the index identifies the serial. */
  lemma Apart(w: nat, n: nat, m: nat, top: nat)
    requires n != m && n < top <= n + MAX_PENDING && m < top <= m + MAX_PENDING
    ensures IndexOf(Worker(w, n)) != IndexOf(Worker(w, m))
  {
    IndexOfSerial(n);
    IndexOfSerial(m);
    if n < m { Residues(n + 1, m + 1); } else { Residues(m + 1, n + 1); }
  }

  // ----------------------------------------------------------------- every event keeps it

  lemma IssuedKept(s: State, e: Event)
    requires AllIssued(s) && Enabled(s, e)
    ensures AllIssued(Apply(s, e))
  {
    var s' := Apply(s, e);
    assert forall o | Issued(s, o) :: Issued(s', o);
  }

  lemma OnceKept(s: State, e: Event)
    requires AllIssued(s) && Once(s) && Enabled(s, e)
    ensures Once(Apply(s, e))
  {
    match e {
      case Issue(w, sent) => NewIsNowhere(s, Worker(w, Next(s, w)));
      case Inject => NewIsNowhere(s, Bridge(s.bridged));
      case Deliver(r) =>
        assert Apply(s, e).responses == s.responses - {r};
        assert Apply(s, e).held == s.held && Apply(s, e).requests == s.requests;
      case _ =>
    }
  }

  lemma NewIsNowhere(s: State, o: Origin)
    requires AllIssued(s) && !Issued(s, o)
    ensures (forall h | h in s.held :: h.1 != o) && (forall r | r in s.responses :: r.answers != o)
  {
  }

  lemma AddressedKept(s: State, e: Event)
    requires Inv(s) && Enabled(s, e) && Calm(s, e)
    ensures Addressed(Apply(s, e))
  {
  }

  lemma PipedKept(s: State, e: Event)
    requires Inv(s) && Enabled(s, e)
    ensures Piped(Apply(s, e))
  {
    var s' := Apply(s, e);
    if e.Issue? {
      var n := Next(s, e.w);
      forall at | at in s'.pipes ensures PipeOk(s', at.0, at.1, s'.pipes[at]) {
        if at == (e.w, IndexOf(Worker(e.w, n))) {
        } else {
          assert PipeOk(s, at.0, at.1, s.pipes[at]);
          if at.0 == e.w && Next(s, e.w) == s.pipes[at] + MAX_PENDING {
            SameIndex(e.w, s.pipes[at], n);
          }
        }
      }
    } else {
      forall at | at in s'.pipes ensures PipeOk(s', at.0, at.1, s'.pipes[at]) {
        assert PipeOk(s, at.0, at.1, s.pipes[at]);
      }
    }
  }

  lemma SameIndex(w: nat, n: nat, m: nat)
    requires m == n + MAX_PENDING
    ensures IndexOf(Worker(w, n)) == IndexOf(Worker(w, m))
  {
    IndexOfSerial(n);
    IndexOfSerial(m);
    ModAdd(n + 1, 1);
  }

  lemma StaysOpen(s: State, e: Event, o: Origin)
    requires Enabled(s, e) && Open(Apply(s, e), o)
    ensures Open(s, o) || (e.Issue? && o == Worker(e.w, Next(s, e.w))) || (e.Inject? && o == Bridge(s.bridged))
  {
    var s' := Apply(s, e);
    if exists v :: (v, o) in s'.held {
      var v :| (v, o) in s'.held;
      assert (v, o) in s.held || o in s.requests;
    } else if o !in s'.requests {
      var r :| r in s'.responses && r.answers == o;
      assert r in s.responses || (e.Answer? && (e.v, o) in s.held);
    }
  }

  lemma OpenIsIssued(s: State, o: Origin)
    requires AllIssued(s) && Open(s, o)
    ensures Issued(s, o)
  {
    if v :| (v, o) in s.held { assert Issued(s, (v, o).1); }
  }

  /** A response in time finds its own pipe. */
  lemma FindsItsPipe(s: State, r: Response)
    requires Inv(s) && r in s.responses && r.answers.Worker? && InTime(s, r.answers)
    ensures r.meta.source == Some(r.answers.worker) && Index(r.meta) == IndexOf(r.answers) && HasPipe(s, r.answers)
  {
    assert Open(s, r.answers);
  }

  lemma WaitingKeptByIssue(s: State, e: Event, o: Origin)
    requires Inv(s) && e.Issue? && Open(Apply(s, e), o) && o.Worker? && InTime(Apply(s, e), o)
    ensures HasPipe(Apply(s, e), o)
  {
    StaysOpen(s, e, o);
    var n := Next(s, e.w);
    if o != Worker(e.w, n) {
      OpenIsIssued(s, o);
      assert HasPipe(s, o);
      if o.worker == e.w { Apart(e.w, o.serial, n, n + 1); }
    }
  }

  lemma WaitingKeptByDeliver(s: State, e: Event, o: Origin)
    requires Inv(s) && e.Deliver? && Enabled(s, e) && Calm(s, e)
    requires Open(Apply(s, e), o) && o.Worker? && InTime(Apply(s, e), o)
    ensures HasPipe(Apply(s, e), o)
  {
    StaysOpen(s, e, o);
    assert HasPipe(s, o);
    OpenIsIssued(s, o);
    NotTheDelivered(s, e.r, o);
    assert Open(s, e.r.answers);
    OpenIsIssued(s, e.r.answers);
    if e.r.answers.Worker? && e.r.answers.worker == o.worker {
      Apart(o.worker, o.serial, e.r.answers.serial, Next(s, o.worker));
    }
  }

  lemma NotTheDelivered(s: State, r: Response, o: Origin)
    requires Once(s) && r in s.responses && Open(Apply(s, Deliver(r)), o)
    ensures o != r.answers
  {
    var s' := Apply(s, Deliver(r));
    assert s'.responses == s.responses - {r} && s'.held == s.held && s'.requests == s.requests;
  }

  lemma WaitingKept(s: State, e: Event)
    requires Inv(s) && Enabled(s, e) && Calm(s, e)
    ensures Waiting(Apply(s, e))
  {
    var s' := Apply(s, e);
    forall o | Open(s', o) && o.Worker? && InTime(s', o) ensures HasPipe(s', o) {
      if e.Issue? {
        WaitingKeptByIssue(s, e, o);
      } else if e.Deliver? {
        WaitingKeptByDeliver(s, e, o);
      } else {
        StaysOpen(s, e, o);
        assert HasPipe(s, o);
      }
    }
  }

  lemma MatchedKept(s: State, e: Event)
    requires Inv(s) && Enabled(s, e) && Calm(s, e)
    ensures AllMatched(Apply(s, e))
  {
    if e.Deliver? && e.r.answers.Worker? {
      FindsItsPipe(s, e.r);
    }
  }

  lemma EventKeeps(s: State, e: Event)
    requires Inv(s) && Enabled(s, e) && Calm(s, e)
    ensures Inv(Apply(s, e))
  {
    IssuedKept(s, e);
    OnceKept(s, e);
    AddressedKept(s, e);
    PipedKept(s, e);
    WaitingKept(s, e);
    MatchedKept(s, e);
  }

  lemma {:induction false} RunKeeps(s: State, run: seq<Event>)
    requires Inv(s) && CalmRun(s, run)
    ensures Inv(After(s, run))
    decreases |run|
  {
    if run != [] {
      EventKeeps(s, run[0]);
      RunKeeps(Apply(s, run[0]), run[1..]);
    }
  }

  lemma ReachedInv(s: State)
    requires Reached(s)
    ensures Inv(s)
  {
    var run :| CalmRun(Init, run) && s == After(Init, run);
    RunKeeps(Init, run);
  }

  // ----------------------------------------------------------------- the theorems

  /** Over every calm run, with ids wrapping as often as they may: whatever arrives on the pipe of a request
      is the answer written for it, whatever the bridge receives under an id string answers that bridge
      request, and no response is dropped. */
  lemma EveryAnswerFindsItsRequest(s: State, i: nat)
    requires Reached(s) && i < |s.arrivals|
    ensures match s.arrivals[i]
      case OnPipe(w, n, o) => o == Worker(w, n)
      case AtBridge(k, o) => o == Bridge(k)
      case Dropped(_) => false
  {
    ReachedInv(s);
    assert Matched(s.arrivals[i]);
  }

  /** The timing condition is exact: delivered next, a response to a worker lands on its own pipe if and
      only if the sender has not gone 256 requests further. */
  lemma LandsIff(s: State, r: Response)
    requires Reached(s) && r in s.responses && r.answers.Worker?
    ensures Apply(s, Deliver(r)).arrivals == s.arrivals + [OnPipe(r.answers.worker, r.answers.serial, r.answers)]
       <==> Next(s, r.answers.worker) <= r.answers.serial + MAX_PENDING
  {
    ReachedInv(s);
    var o, s' := r.answers, Apply(s, Deliver(r));
    assert r.meta == MetaOf(o);
    var at := (o.worker, IndexOf(o));
    if InTime(s, o) {
      FindsItsPipe(s, r);
    } else if at in s.pipes {
      assert PipeOk(s, at.0, at.1, s.pipes[at]);
      assert s'.arrivals[|s.arrivals|] == OnPipe(o.worker, s.pipes[at], o);
    } else {
      assert s'.arrivals[|s.arrivals|] == Dropped(o);
    }
  }

  /** The answer to a held request would carry that request's own metadata. */
  ghost predicate AnswersOwn(s: State, v: nat, o: Origin) {
    (v, IndexOf(o)) in s.inbound && s.inbound[(v, IndexOf(o))] == MetaOf(o)
  }

  /** Requests told apart by their metadata: always, but for serials of one sender 2^32 apart. */
  predicate Distinct(o: Origin, o': Origin) {
    MetaOf(o) != MetaOf(o')
  }

  /** The inbound condition is exact: after reading a request every held one still finds its own metadata
      if and only if none of them shared its index. */
  lemma ReadKeepsIff(s: State, v: nat, o: Origin)
    requires Reached(s) && o in s.requests
    requires forall o' | (v, o') in s.held :: Distinct(o, o')
    ensures (forall o' | (v, o') in s.held :: AnswersOwn(Apply(s, Read(v, o)), v, o')) <==> Unshared(s, v, o)
  {
    ReachedInv(s);
    var s' := Apply(s, Read(v, o));
    assert forall o' | (v, o') in s.held :: (v, o') in s.held && AnswersOwn(s, v, o');
    if !Unshared(s, v, o) {
      var o' :| (v, o') in s.held && IndexOf(o') == IndexOf(o);
      assert Distinct(o, o') && !AnswersOwn(s', v, o');
    }
  }

  /** A run in which worker `v` answers each request before it reads the next, as a handler does that
      answers inside its callback; `busy` is the request it is answering. */
  predicate InCallback(run: seq<Event>, v: nat, busy: Option<Origin>) {
    if run == [] then true
    else match run[0]
      case Read(v', o) =>
        if v' == v then busy.None? && InCallback(run[1..], v, Some(o)) else InCallback(run[1..], v, busy)
      case Answer(v', o, _) =>
        if v' == v then busy == Some(o) && InCallback(run[1..], v, None) else InCallback(run[1..], v, busy)
      case _ => InCallback(run[1..], v, busy)
  }

  ghost predicate EnabledRun(s: State, run: seq<Event>)
    decreases |run|
  {
    run == [] || (Enabled(s, run[0]) && EnabledRun(Apply(s, run[0]), run[1..]))
  }

  /** Every read of worker `v` in the run meets the inbound condition. */
  ghost predicate CalmReads(s: State, run: seq<Event>, v: nat)
    requires EnabledRun(s, run)
    decreases |run|
  {
    run == [] || ((run[0].Read? && run[0].v == v ==> Calm(s, run[0])) && CalmReads(Apply(s, run[0]), run[1..], v))
  }

  ghost predicate HoldsOnly(s: State, v: nat, busy: Option<Origin>) {
    forall o | (v, o) in s.held :: busy == Some(o)
  }

  /** For such a worker the inbound condition holds by itself, whatever the others do. */
  lemma {:induction false} InCallbackIsCalm(s: State, run: seq<Event>, v: nat, busy: Option<Origin>)
    requires EnabledRun(s, run) && InCallback(run, v, busy) && HoldsOnly(s, v, busy)
    ensures CalmReads(s, run, v)
    decreases |run|
  {
    if run != [] {
      var e, s' := run[0], Apply(s, run[0]);
      var busy' := if e.Read? && e.v == v then Some(e.o) else if e.Answer? && e.v == v then None else busy;
      forall o | (v, o) in s'.held ensures busy' == Some(o) {
        assert (v, o) in s.held || (e.Read? && e.v == v && e.o == o);
      }
      InCallbackIsCalm(s', run[1..], v, busy');
    }
  }

  /** An asynchronous gateway can hold only one bridge request at a time: they all have id 0. */
  lemma OneBridgeRequestAtATime(s: State, v: nat, k: nat, k': nat)
    requires (v, Bridge(k)) in s.held
    ensures !Calm(s, Read(v, Bridge(k')))
  {
    assert IndexOf(Bridge(k)) == IndexOf(Bridge(k'));
  }

  /** Two at once: the first answer arrives under the id string of the second request. */
  lemma TwoBridgeRequestsCross()
    ensures var s1 := Apply(Apply(Init, Inject), Inject);
      var o, o' := Bridge(0), Bridge(1);
      && Enabled(s1, Read(7, o)) && Enabled(Apply(s1, Read(7, o)), Read(7, o'))
      && var s2 := Apply(Apply(s1, Read(7, o)), Read(7, o'));
      && Enabled(s2, Answer(7, o, true))
      && var s3 := Apply(s2, Answer(7, o, true));
      && var r := Response(MetaOf(o'), o);
      && Enabled(s3, Deliver(r)) && Apply(s3, Deliver(r)).arrivals == [AtBridge(1, Bridge(0))]
  {
  }

  // ----------------------------------------------------------------- a late response

  lemma {:induction false} RunExtended(s: State, run: seq<Event>, e: Event)
    requires CalmRun(s, run) && Enabled(After(s, run), e) && Calm(After(s, run), e)
    ensures CalmRun(s, run + [e]) && After(s, run + [e]) == Apply(After(s, run), e)
    decreases |run|
  {
    if run == [] {
      assert run + [e] == [e] && [e][1..] == [];
      assert CalmRun(Apply(s, e), [e][1..]) && After(Apply(s, e), [e][1..]) == Apply(s, e);
    } else {
      RunExtended(Apply(s, run[0]), run[1..], e);
      assert (run + [e])[0] == run[0] && (run + [e])[1..] == run[1..] + [e];
    }
  }

  lemma ReachedStep(s: State, e: Event)
    requires Reached(s) && Enabled(s, e) && Calm(s, e)
    ensures Reached(Apply(s, e))
  {
    var run :| CalmRun(Init, run) && s == After(Init, run);
    RunExtended(Init, run, e);
  }

  /** A worker issues request after request; what else there is stays. */
  lemma {:induction false} IssueMany(s: State, w: nat, k: nat) returns (s': State)
    requires Reached(s)
    ensures Reached(s') && Next(s', w) == Next(s, w) + k && s'.responses == s.responses && s'.arrivals == s.arrivals
    ensures k > 0 ==> HasPipe(s', Worker(w, Next(s', w) - 1))
  {
    s' := s;
    if k > 0 {
      var before := IssueMany(s, w, k - 1);
      ReachedStep(before, Issue(w, false));
      s' := Apply(before, Issue(w, false));
    }
  }

  /** A request of `w` is answered at once. */
  lemma AnsweredAtOnce(w: nat, v: nat) returns (s: State)
    ensures Reached(s) && Next(s, w) == 1 && s.arrivals == []
    ensures s.responses == {Response(MetaOf(Worker(w, 0)), Worker(w, 0))}
  {
    assert CalmRun(Init, []) && After(Init, []) == Init;
    var o := Worker(w, 0);
    var s1 := Apply(Init, Issue(w, true));
    ReachedStep(Init, Issue(w, true));
    var s2 := Apply(s1, Read(v, o));
    ReachedStep(s1, Read(v, o));
    s := Apply(s2, Answer(v, o, true));
    ReachedStep(s2, Answer(v, o, true));
  }

  /** Late responses happen: after 256 more requests the answer to the first arrives on the pipe of the last. */
  lemma LateResponseCrosses(w: nat, v: nat) returns (s: State)
    ensures Reached(s)
    ensures var r := Response(MetaOf(Worker(w, 0)), Worker(w, 0));
      && r in s.responses && !InTime(s, r.answers)
      && Apply(s, Deliver(r)).arrivals == [OnPipe(w, MAX_PENDING, Worker(w, 0))]
  {
    var s1 := AnsweredAtOnce(w, v);
    s := IssueMany(s1, w, MAX_PENDING);
    SameIndex(w, 0, MAX_PENDING);
  }

  // ----------------------------------------------------------------- every run, calm or not

  ghost predicate AnyRun(s: State, run: seq<Event>)
    decreases |run|
  {
    run == [] || (Enabled(s, run[0]) && AnyRun(Apply(s, run[0]), run[1..]))
  }

  ghost function AfterAny(s: State, run: seq<Event>): State
    requires AnyRun(s, run)
    decreases |run|
  {
    if run == [] then s else AfterAny(Apply(s, run[0]), run[1..])
  }

  /** A response has arrived on the pipe of this serial. */
  predicate Used(s: State, w: nat, n: nat) {
    exists i :: 0 <= i < |s.arrivals| && OnThis(s.arrivals[i], w, n)
  }

  predicate OnThis(a: Arrival, w: nat, n: nat) {
    a.OnPipe? && a.worker == w && a.serial == n
  }

  /** A pipe in the table is under its own index and unused. */
  ghost predicate TableUnused(s: State) {
    forall at | at in s.pipes :: EntryUnused(s, at.0, at.1, s.pipes[at])
  }

  ghost predicate EntryUnused(s: State, w: nat, i: nat, n: nat) {
    n < Next(s, w) && IndexOf(Worker(w, n)) == i && !Used(s, w, n)
  }

  ghost predicate UsedOnce(s: State) {
    && (forall i, j, w: nat, n: nat | 0 <= i < j < |s.arrivals| && OnThis(s.arrivals[i], w, n) ::
          !OnThis(s.arrivals[j], w, n))
    && (forall w: nat, n: nat | Used(s, w, n) :: n < Next(s, w))
  }

  lemma ArrivalsGrow(s: State, s': State, a: Arrival, w: nat, n: nat)
    requires s'.arrivals == s.arrivals + [a]
    ensures Used(s', w, n) <==> Used(s, w, n) || OnThis(a, w, n)
  {
    if Used(s, w, n) {
      var i :| 0 <= i < |s.arrivals| && OnThis(s.arrivals[i], w, n);
      assert s'.arrivals[i] == s.arrivals[i];
    }
    if OnThis(a, w, n) { assert s'.arrivals[|s.arrivals|] == a; }
  }

  lemma DeliveryUses(s: State, r: Response)
    requires TableUnused(s) && UsedOnce(s) && r in s.responses
    ensures TableUnused(Apply(s, Deliver(r))) && UsedOnce(Apply(s, Deliver(r)))
  {
    var s' := Apply(s, Deliver(r));
    var a := s'.arrivals[|s.arrivals|];
    assert s'.arrivals == s.arrivals + [a];
    forall w: nat, n: nat ensures Used(s', w, n) <==> Used(s, w, n) || OnThis(a, w, n) { ArrivalsGrow(s, s', a, w, n); }
    forall at | at in s'.pipes ensures EntryUnused(s', at.0, at.1, s'.pipes[at]) {
      assert EntryUnused(s, at.0, at.1, s.pipes[at]);
    }
    if a.OnPipe? {
      var at := (a.worker, Index(r.meta));
      assert EntryUnused(s, at.0, at.1, s.pipes[at]);
    }
  }

  lemma IssueUses(s: State, w: nat, sent: bool)
    requires TableUnused(s) && UsedOnce(s)
    ensures TableUnused(Apply(s, Issue(w, sent))) && UsedOnce(Apply(s, Issue(w, sent)))
  {
    var s' := Apply(s, Issue(w, sent));
    assert forall v: nat, n: nat :: Used(s', v, n) <==> Used(s, v, n);
    forall at | at in s'.pipes ensures EntryUnused(s', at.0, at.1, s'.pipes[at]) {
      if at in s.pipes { assert EntryUnused(s, at.0, at.1, s.pipes[at]); }
    }
  }

  lemma OthersUse(s: State, e: Event)
    requires TableUnused(s) && UsedOnce(s) && Enabled(s, e) && !e.Issue? && !e.Deliver?
    ensures TableUnused(Apply(s, e)) && UsedOnce(Apply(s, e))
  {
    var s' := Apply(s, e);
    assert s'.arrivals == s.arrivals && s'.pipes == s.pipes && s'.next == s.next;
    assert forall v: nat, n: nat :: Used(s', v, n) <==> Used(s, v, n);
    forall at | at in s'.pipes ensures EntryUnused(s', at.0, at.1, s'.pipes[at]) {
      assert EntryUnused(s, at.0, at.1, s.pipes[at]);
    }
  }

  lemma {:induction false} RunUses(s: State, run: seq<Event>)
    requires TableUnused(s) && UsedOnce(s) && AnyRun(s, run)
    ensures TableUnused(AfterAny(s, run)) && UsedOnce(AfterAny(s, run))
    decreases |run|
  {
    if run != [] {
      match run[0] {
        case Issue(w, sent) => IssueUses(s, w, sent);
        case Deliver(r) => DeliveryUses(s, r);
        case _ => OthersUse(s, run[0]);
      }
      RunUses(Apply(s, run[0]), run[1..]);
    }
  }

  /** Over every run, calm or not: at most one response arrives on the pipe of a request, and none while the pipe still
      stands in the table. */
  lemma OneResponseForEachPipe(run: seq<Event>, w: nat, n: nat, i: nat, j: nat)
    requires AnyRun(Init, run)
    ensures var s := AfterAny(Init, run);
      && (i < |s.arrivals| && j < |s.arrivals| && OnThis(s.arrivals[i], w, n) && OnThis(s.arrivals[j], w, n) ==> i == j)
      && (HasPipe(s, Worker(w, n)) ==> !Used(s, w, n))
  {
    RunUses(Init, run);
    var s := AfterAny(Init, run);
    if HasPipe(s, Worker(w, n)) { assert EntryUnused(s, w, IndexOf(Worker(w, n)), n); }
  }
}
