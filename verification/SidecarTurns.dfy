/** The sidecar with its worker selector as state: a counter for each service that every routed request moves on. What
    a run does with it, and how the requests for a service spread over its workers. */
module SidecarTurns {
  import opened Options
  import opened Descriptor
  import opened Mesh
  import opened Ledger
  import opened MeshInvariant
  import opened MeshSafety
  import opened MeshTheorems
  import opened MeshProgress
  import opened MeshRuns
  import opened RoundRobin
  import opened SidecarPolicy

  type Counters = map<string, nat>

  /** The worker whose turn it is, and the counters afterwards. */
  function Pick(workers: seq<Worker>, counters: Counters, service: string): (Option<Worker>, Counters) {
    var candidates := Candidates(workers, service);
    var turn := Counter(counters, service);
    if candidates == [] then (None, counters)
    else
      (Some(candidates[Position(turn, |candidates|)]),
       counters[service := RoundRobin.Advance(turn, |candidates|)])
  }

  /** What the sidecar decides with its counters as they stand, and how they stand afterwards. */
  function Route(workers: seq<Worker>, counters: Counters, header: Bytes, response: bool): (Decision, Counters) {
    var service := NamedService(header);
    (Choose(workers, Counter(counters, service), header, response),
     if response then counters else Pick(workers, counters, service).1)
  }

  /** The routing half of the sidecar daemon. */
  class Router {
    const selector: WorkerSelector

    constructor ()
      ensures fresh(selector) && selector.counters == map[]
    {
      selector := new WorkerSelector();
    }

    /** get_workers_by_service: collects the entries of a service and sorts them by pod. */
    method GetWorkers(workers: seq<Worker>, service: string) returns (found: seq<Worker>)
      ensures found == Candidates(workers, service)
    {
      found := [];
      for i := 0 to |workers|
        invariant found + WorkersOf(workers[i..], service) == WorkersOf(workers, service)
      {
        assert workers[i..][1..] == workers[i + 1..];
        if workers[i].service == service {
          found := found + [workers[i]];
        }
      }
      assert found == WorkersOf(workers, service);
      found := ByPod(found);
    }

    /** The choice for a service, by the worker selector. */
    method PickWorker(workers: seq<Worker>, service: string) returns (choice: Option<Worker>)
      modifies selector
      ensures (choice, selector.counters) == Pick(workers, old(selector.counters), service)
    {
      var found := GetWorkers(workers, service);
      choice := selector.Select(service, found);
    }

    /** _route_request and _route_response. */
    method RouteDescriptor(workers: seq<Worker>, header: Bytes, response: bool) returns (d: Decision)
      modifies selector
      ensures (d, selector.counters) == Route(workers, old(selector.counters), header, response)
    {
      if response {
        d := Choose(workers, 0, header, true);
      } else {
        var choice := PickWorker(workers, NamedService(header));
        d := if choice.None? then NoWorker else Forward(choice.value.pod);
      }
    }
  }

  // ----------------------------------------------------------------- runs

  /** The header under decision, if the step is a routing decision. */
  predicate Decides(s: State, step: Step) {
    step.Decide? && step.id in s.flights && s.flights[step.id].stage.Routing?
  }

  /** A routing decision is the sidecar's, on a header the model can read, and a bridge request goes to the worker
      whose turn it is at the service it is for; both move the counters, and no other step does. */
  ghost predicate Turns(workers: seq<Worker>, s: State, step: Step, counters: Counters, counters': Counters) {
    if Decides(s, step) then
      var f := s.flights[step.id];
      && Readable(f.stage.header)
      && (step.decision, counters') == Route(workers, counters, f.stage.header, f.desc.IsResponse())
    else if step.BeginInject? then
      exists service :: Injects(workers, step.msg, service, counters, counters')
    else counters' == counters
  }

  predicate Injects(workers: seq<Worker>, m: Msg, service: string, counters: Counters, counters': Counters) {
    var (choice, moved) := Pick(workers, counters, service);
    choice.Some? && m.pod == choice.value.pod && counters' == moved
  }

  /** A run, or a stretch of one, with the sidecar's counters beside it. */
  ghost predicate Turning(cfg: Config, workers: seq<Worker>, states: seq<State>, steps: seq<Step>,
      counters: seq<Counters>) {
    && Run(cfg, states, steps) && |counters| == |states|
    && forall i | 0 <= i < |steps| :: Turns(workers, states[i], steps[i], counters[i], counters[i + 1])
  }

  /** The step chooses a worker of the service: for a routed request that names it, or for a bridge request. */
  predicate RoutesFor(cfg: Config, s: State, step: Step, service: string) {
    if step.BeginInject? then Service(cfg, step.msg.pod) == service
    else
      Decides(s, step)
      && var f := s.flights[step.id]; !f.desc.IsResponse() && NamedService(f.stage.header) == service
  }

  /** ... and the request goes to the pod: it leaves the sidecar with that address, or the bridge sends it there. */
  predicate RoutesTo(cfg: Config, s: State, s': State, step: Step, service: string, pod: int) {
    && RoutesFor(cfg, s, step, service)
    && if step.BeginInject? then step.msg.pod == pod
       else step.id in s'.flights && s'.flights[step.id].stage.RouteForward? && s'.flights[step.id].desc.dstPodId == pod
  }

  function Trues(bs: seq<bool>): nat {
    if bs == [] then 0 else (if bs[0] then 1 else 0) + Trues(bs[1..])
  }

  /** The steps of a run that route a request for the service. */
  function Routings(cfg: Config, states: seq<State>, steps: seq<Step>, service: string): (r: seq<bool>)
    requires |states| == |steps| + 1
    ensures |r| == |steps| && forall i | 0 <= i < |steps| :: r[i] == RoutesFor(cfg, states[i], steps[i], service)
  {
    seq(|steps|, i requires 0 <= i < |steps| => RoutesFor(cfg, states[i], steps[i], service))
  }

  /** The steps that send one to the pod. */
  function Sendings(cfg: Config, states: seq<State>, steps: seq<Step>, service: string, pod: int): (r: seq<bool>)
    requires |states| == |steps| + 1
    ensures |r| == |steps|
    ensures forall i | 0 <= i < |steps| :: r[i] == RoutesTo(cfg, states[i], states[i + 1], steps[i], service, pod)
  {
    seq(|steps|, i requires 0 <= i < |steps| => RoutesTo(cfg, states[i], states[i + 1], steps[i], service, pod))
  }

  /** How many requests for the service a run routes. */
  function Requests(cfg: Config, states: seq<State>, steps: seq<Step>, service: string): nat
    requires |states| == |steps| + 1
  {
    Trues(Routings(cfg, states, steps, service))
  }

  /** How many of them go to the pod. */
  function Share(cfg: Config, states: seq<State>, steps: seq<Step>, service: string, pod: int): nat
    requires |states| == |steps| + 1
  {
    Trues(Sendings(cfg, states, steps, service, pod))
  }

  // ----------------------------------------------------------------- shares

  predicate DistinctPods(workers: seq<Worker>) {
    forall i, j | 0 <= i < j < |workers| :: workers[i].pod != workers[j].pod
  }

  lemma CountsAtMostOne(workers: seq<Worker>, w: Worker)
    requires forall i, j | 0 <= i < j < |workers| :: workers[i] != workers[j]
    ensures multiset(workers)[w] <= 1
  {
    if workers != [] {
      assert workers == [workers[0]] + workers[1..];
      CountsAtMostOne(workers[1..], w);
      if workers[0] == w { assert w !in workers[1..]; }
    }
  }

  lemma Repeated(workers: seq<Worker>, i: nat, j: nat)
    requires i < j < |workers| && workers[i] == workers[j]
    ensures multiset(workers)[workers[i]] >= 2
  {
    var w := workers[i];
    assert workers == workers[..j] + workers[j..];
    assert workers[..j][i] == w && workers[j..][0] == w;
    assert w in multiset(workers[..j]) && w in multiset(workers[j..]);
  }

  lemma Registered(workers: seq<Worker>, a: Worker, b: Worker)
    requires DistinctPods(workers) && a in workers && b in workers && a.pod == b.pod
    ensures a == b
  {
  }

  /** A pod stands once in the list of its service. */
  lemma ListedOnce(workers: seq<Worker>, service: string, i: nat, j: nat)
    requires DistinctPods(workers) && i < |Candidates(workers, service)| && j < |Candidates(workers, service)|
    requires Candidates(workers, service)[i].pod == Candidates(workers, service)[j].pod
    ensures i == j
  {
    var list := Candidates(workers, service);
    assert list[i] in list && list[j] in list;
    Registered(workers, list[i], list[j]);
    CandidatesCounted(workers, service, list[i]);
    CountsAtMostOne(workers, list[i]);
    if i < j { Repeated(list, i, j); }
    if j < i { Repeated(list, j, i); }
  }

  lemma InjectedFor(cfg: Config, workers: seq<Worker>, m: Msg, named: string, c: Counters, c': Counters)
      returns (w: Worker)
    requires Lists(cfg, workers) && Injects(workers, m, named, c, c')
    ensures Service(cfg, m.pod) == named && m.pod == w.pod && (Some(w), c') == Pick(workers, c, named)
  {
    w := Pick(workers, c, named).0.value;
    assert w in Candidates(workers, named);
  }

  /** What a step moves is the counter of the service it chooses for, and the choice is the worker whose turn it is. */
  lemma PickedAtTurn(cfg: Config, workers: seq<Worker>, s: State, step: Step, c: Counters, c': Counters,
      service: string) returns (w: Worker)
    requires Lists(cfg, workers) && Enabled(cfg, s, step) && Turns(workers, s, step, c, c')
    requires RoutesFor(cfg, s, step, service) && Candidates(workers, service) != []
    ensures (Some(w), c') == Pick(workers, c, service)
    ensures forall pod :: RoutesTo(cfg, s, Mesh.Apply(cfg, s, step), step, service, pod) <==> w.pod == pod
  {
    if step.BeginInject? {
      var named :| Injects(workers, step.msg, named, c, c');
      w := InjectedFor(cfg, workers, step.msg, named, c, c');
    } else {
      w := Pick(workers, c, service).0.value;
      assert step.decision == Forward(w.pod);
    }
  }

  /** A request goes to the worker at which the counter stands, and the counter moves on. */
  lemma RequestTurns(cfg: Config, workers: seq<Worker>, s: State, step: Step, c: Counters, c': Counters,
      service: string, j: nat)
    requires Lists(cfg, workers) && Enabled(cfg, s, step) && Turns(workers, s, step, c, c')
    requires RoutesFor(cfg, s, step, service)
    requires DistinctPods(workers) && j < |Candidates(workers, service)|
    ensures var list := Candidates(workers, service);
      && Counter(c', service) == RoundRobin.Advance(Counter(c, service), |list|)
      && (RoutesTo(cfg, s, Mesh.Apply(cfg, s, step), step, service, list[j].pod)
          <==> Position(Counter(c, service), |list|) == j)
  {
    var list := Candidates(workers, service);
    var at := Position(Counter(c, service), |list|);
    var w := PickedAtTurn(cfg, workers, s, step, c, c', service);
    assert w == list[at];
    if list[at].pod == list[j].pod { ListedOnce(workers, service, at, j); }
  }

  lemma OtherTurns(cfg: Config, workers: seq<Worker>, s: State, step: Step, c: Counters, c': Counters, service: string)
    requires Lists(cfg, workers) && Turns(workers, s, step, c, c') && !RoutesFor(cfg, s, step, service)
    ensures Counter(c', service) == Counter(c, service)
  {
    if step.BeginInject? {
      var named :| Injects(workers, step.msg, named, c, c');
      var w := InjectedFor(cfg, workers, step.msg, named, c, c');
    }
  }

  /** One step of a counter: a request moves it on, and is sent to place `j` when the counter stands there. */
  predicate Ticks(routed: bool, sent: bool, c: nat, c': nat, n: nat, j: nat)
    requires j < n
  {
    if routed then c' == RoundRobin.Advance(c, n) && (sent <==> Position(c, n) == j) else c' == c && !sent
  }

  lemma {:induction false} TicksArePicks(routed: seq<bool>, sent: seq<bool>, cs: seq<nat>, n: nat, j: nat)
    requires j < n && |routed| == |sent| == |cs| - 1
    requires forall i | 0 <= i < |routed| :: Ticks(routed[i], sent[i], cs[i], cs[i + 1], n, j)
    ensures Trues(sent) == multiset(Picks(cs[0], n, Trues(routed)))[j]
    decreases |routed|
  {
    if routed != [] {
      assert Ticks(routed[0], sent[0], cs[0], cs[1], n, j);
      forall i | 0 <= i < |routed| - 1
        ensures Ticks(routed[1..][i], sent[1..][i], cs[1..][i], cs[1..][i + 1], n, j)
      {
        assert Ticks(routed[i + 1], sent[i + 1], cs[i + 1], cs[i + 2], n, j);
      }
      TicksArePicks(routed[1..], sent[1..], cs[1..], n, j);
      if routed[0] { PicksCounted(cs[0], n, Trues(routed), j); }
    }
  }

  lemma StepTicks(cfg: Config, workers: seq<Worker>, s: State, step: Step, c: Counters, c': Counters, service: string,
      j: nat)
    requires Lists(cfg, workers) && Enabled(cfg, s, step) && Turns(workers, s, step, c, c')
    requires DistinctPods(workers) && j < |Candidates(workers, service)|
    ensures var list := Candidates(workers, service);
      Ticks(RoutesFor(cfg, s, step, service), RoutesTo(cfg, s, Mesh.Apply(cfg, s, step), step, service, list[j].pod),
        Counter(c, service), Counter(c', service), |list|, j)
  {
    if RoutesFor(cfg, s, step, service) { RequestTurns(cfg, workers, s, step, c, c', service, j); }
    else { OtherTurns(cfg, workers, s, step, c, c', service); }
  }

  lemma SharesArePicks(cfg: Config, workers: seq<Worker>, states: seq<State>, steps: seq<Step>,
      counters: seq<Counters>, service: string, j: nat)
    requires Lists(cfg, workers) && Turning(cfg, workers, states, steps, counters) && DistinctPods(workers)
    requires j < |Candidates(workers, service)|
    ensures var list := Candidates(workers, service);
      Share(cfg, states, steps, service, list[j].pod) ==
        multiset(Picks(Counter(counters[0], service), |list|, Requests(cfg, states, steps, service)))[j]
  {
    var n, pod := |Candidates(workers, service)|, Candidates(workers, service)[j].pod;
    var cs: seq<nat> := seq(|counters|, i requires 0 <= i < |counters| => Counter(counters[i], service));
    var routed, sent := Routings(cfg, states, steps, service), Sendings(cfg, states, steps, service, pod);
    forall i | 0 <= i < |steps| ensures Ticks(routed[i], sent[i], cs[i], cs[i + 1], n, j) {
      assert Turns(workers, states[i], steps[i], counters[i], counters[i + 1]);
      StepTicks(cfg, workers, states[i], steps[i], counters[i], counters[i + 1], service, j);
    }
    TicksArePicks(routed, sent, cs, n, j);
  }

  /** The n-th part of k, rounded down or up. */
  predicate FairPart(share: nat, k: nat, n: nat) {
    n > 0 && (share == k / n || share == (k + n - 1) / n)
  }

  lemma FairShare(share: nat, c: nat, n: nat, k: nat, j: nat)
    requires j < n && share == multiset(Picks(c, n, k))[j]
    ensures FairPart(share, k, n) && (k == n ==> share == 1)
  {
    RoundRobinIsFair(c, n, k, j);
    if k == n {
      Quotient(n, 1, 0, n);
      Quotient(2 * n - 1, 1, n - 1, n);
    }
  }

  lemma PlaceOf(workers: seq<Worker>, w: Worker) returns (j: nat)
    requires w in workers
    ensures j < |Candidates(workers, w.service)| && Candidates(workers, w.service)[j] == w
  {
    assert w in Candidates(workers, w.service);
    j :| j < |Candidates(workers, w.service)| && Candidates(workers, w.service)[j] == w;
  }

  /** In every stretch of every run, wherever the counters stood, each worker of a service gets its share of the
      requests for it, routed and from the bridge together: of k requests among n workers, k/n rounded down or up, so
      one when k is n. */
  lemma RequestsAreShared(cfg: Config, workers: seq<Worker>, states: seq<State>, steps: seq<Step>,
      counters: seq<Counters>, w: Worker)
    requires Lists(cfg, workers) && Turning(cfg, workers, states, steps, counters) && DistinctPods(workers)
    requires w in workers
    ensures FairPart(Share(cfg, states, steps, w.service, w.pod), Requests(cfg, states, steps, w.service),
      |Candidates(workers, w.service)|)
    ensures Requests(cfg, states, steps, w.service) == |Candidates(workers, w.service)| ==>
      Share(cfg, states, steps, w.service, w.pod) == 1
  {
    var j := PlaceOf(workers, w);
    var n, k := |Candidates(workers, w.service)|, Requests(cfg, states, steps, w.service);
    SharesArePicks(cfg, workers, states, steps, counters, w.service, j);
    FairShare(Share(cfg, states, steps, w.service, w.pod), Counter(counters[0], w.service), n, k, j);
  }

  lemma FirstRound(turn: nat, n: nat)
    requires turn < n
    ensures Position(turn, n) == turn
  {
    Quotient(turn, 0, turn, n);
  }

  /** Every worker of a service has a turn at which requests for it go to that worker. */
  lemma SomeTurnReaches(workers: seq<Worker>, header: Bytes, w: Worker) returns (turn: nat)
    requires w in workers && w.service == NamedService(header)
    ensures turn < |Candidates(workers, w.service)| && Choose(workers, turn, header, false) == Forward(w.pod)
  {
    turn := PlaceOf(workers, w);
    FirstRound(turn, |Candidates(workers, w.service)|);
  }

  // ----------------------------------------------------------------- the counters' decisions are a policy

  /** The message has been routed, or never will be. */
  predicate PastRouting(s: State, id: nat) {
    id < s.next && (id in s.flights ==> Rank(s.flights[id].stage) < 47)
  }

  lemma RoutedIsPast(cfg: Config, s: State, step: Step)
    requires Inv(MeshSpec(cfg), s) && Enabled(cfg, s, step) && Decides(s, step)
    ensures PastRouting(Mesh.Apply(cfg, s, step), step.id)
  {
    FlightIsOld(MeshSpec(cfg), s, step.id);
    DecidedIsPast(s, step.id, step.decision);
  }

  lemma DecidedIsPast(s: State, id: nat, d: Decision)
    requires id in s.flights && s.flights[id].stage.Routing? && id < s.next
    ensures PastRouting(DecideStep(s, id, d), id)
  {
  }

  lemma NothingComesBack(cfg: Config, mem: Memory, f: Flight)
    requires Rank(f.stage) < 47
    ensures var op := NextOp(cfg, mem, f);
      (op.Continue? ==> !op.stage.TxRetry?) && (op.Alloc? ==> !op.refused.TxRetry?)
  {
  }

  lemma PerformStaysPast(cfg: Config, s: State, id: nat, op: Op, rank: nat)
    requires id in s.flights && PastRouting(s, id) && rank < 47 && LeadsDown(op, rank)
    requires (op.Continue? ==> !op.stage.TxRetry?) && (op.Alloc? ==> !op.refused.TxRetry?)
    ensures PastRouting(Perform(cfg, s, id, op), id)
  {
  }

  lemma AdvanceStaysPast(cfg: Config, s: State, id: nat)
    requires Enabled(cfg, s, Mesh.Advance(id)) && PastRouting(s, id)
    ensures PastRouting(Mesh.Apply(cfg, s, Mesh.Advance(id)), id)
  {
    var f := s.flights[id];
    NextLeadsDown(cfg, s.mem, f);
    NothingComesBack(cfg, s.mem, f);
    PerformStaysPast(cfg, s, id, NextOp(cfg, s.mem, f), Rank(f.stage));
  }

  lemma TakeStaysPast(s: State, q: QueueId, id: nat)
    requires Queue(s, q) != [] && Queue(s, q)[0] in s.flights && PastRouting(s, id)
    requires s.flights[Queue(s, q)[0]].stage == Queued(q)
    ensures PastRouting(TakeStep(s, q), id)
  {
  }

  lemma PerformAddsNone(cfg: Config, s: State, id: nat, op: Op, other: nat)
    requires id in s.flights && other !in s.flights
    ensures other !in Perform(cfg, s, id, op).flights && Perform(cfg, s, id, op).next == s.next
  {
  }

  lemma BeginAddsNew(cfg: Config, s: State, m: Msg, id: nat)
    requires id < s.next
    ensures id < BeginWriteStep(cfg, s, m).next && id < BeginInjectStep(cfg, s, m).next
    ensures PastRouting(s, id) ==>
      PastRouting(BeginWriteStep(cfg, s, m), id) && PastRouting(BeginInjectStep(cfg, s, m), id)
  {
  }

  lemma OtherAdvance(cfg: Config, s: State, j: nat, op: Op, id: nat)
    requires j in s.flights && j != id && PastRouting(s, id)
    ensures PastRouting(Perform(cfg, s, j, op), id)
  {
    if id in s.flights { OthersUntouched(cfg, s, j, op, id); } else { PerformAddsNone(cfg, s, j, op, id); }
  }

  lemma MoveStaysPast(cfg: Config, s: State, step: Step, id: nat)
    requires Enabled(cfg, s, step) && (step.Decide? || step.TakeReply? || step.LosePod?)
    requires PastRouting(s, id)
    ensures PastRouting(Mesh.Apply(cfg, s, step), id)
  {
  }

  /** A message past its routing never comes back to it. */
  lemma StaysPast(cfg: Config, s: State, step: Step, id: nat)
    requires Inv(MeshSpec(cfg), s) && Enabled(cfg, s, step) && PastRouting(s, id)
    ensures PastRouting(Mesh.Apply(cfg, s, step), id)
  {
    if step.Advance? {
      if step.id == id { AdvanceStaysPast(cfg, s, id); }
      else { OtherAdvance(cfg, s, step.id, NextOp(cfg, s.mem, s.flights[step.id]), id); }
    } else if step.Take? {
      FrontInFlight(MeshSpec(cfg), s, step.q);
      TakeStaysPast(s, step.q, id);
    } else if step.BeginWrite? || step.BeginInject? {
      BeginAddsNew(cfg, s, step.msg, id);
    } else {
      MoveStaysPast(cfg, s, step, id);
    }
  }

  lemma {:induction false} LaterIsPast(cfg: Config, states: seq<State>, steps: seq<Step>, i: nat, j: nat, id: nat)
    requires ValidConfig(cfg) && Run(cfg, states, steps) && states[0] == Init && i <= j < |states|
    requires PastRouting(states[i], id)
    ensures PastRouting(states[j], id)
    decreases |states| - i
  {
    if i < j {
      RunKeeps(cfg, states, steps, i);
      StaysPast(cfg, states[i], steps[i], id);
      LaterIsPast(cfg, states, steps, i + 1, j, id);
    }
  }

  lemma AfterRouting(cfg: Config, states: seq<State>, steps: seq<Step>, i: nat, j: nat)
    requires ValidConfig(cfg) && Run(cfg, states, steps) && states[0] == Init && i < j < |states|
    requires Decides(states[i], steps[i])
    ensures PastRouting(states[j], steps[i].id)
  {
    RunKeeps(cfg, states, steps, i);
    RoutedIsPast(cfg, states[i], steps[i]);
    LaterIsPast(cfg, states, steps, i + 1, j, steps[i].id);
  }

  /** A message is routed once. */
  lemma RoutedOnce(cfg: Config, states: seq<State>, steps: seq<Step>, i: nat, j: nat)
    requires ValidConfig(cfg) && Run(cfg, states, steps) && states[0] == Init && i < j < |steps|
    requires Decides(states[i], steps[i]) && Decides(states[j], steps[j])
    ensures steps[i].id != steps[j].id
  {
    AfterRouting(cfg, states, steps, i, j);
  }

  /** Where the counter of the service stood when a message was routed. */
  ghost function TurnOf(states: seq<State>, steps: seq<Step>, counters: seq<Counters>, id: nat): nat
    requires |states| == |counters| == |steps| + 1
  {
    if i :| 0 <= i < |steps| && Decides(states[i], steps[i]) && steps[i].id == id then
      Counter(counters[i], NamedService(states[i].flights[id].stage.header))
    else 0
  }

  lemma TurnTaken(cfg: Config, states: seq<State>, steps: seq<Step>, counters: seq<Counters>, i: nat)
    requires ValidConfig(cfg) && Run(cfg, states, steps) && states[0] == Init && i < |steps|
    requires |counters| == |states| && Decides(states[i], steps[i])
    ensures TurnOf(states, steps, counters, steps[i].id) ==
      Counter(counters[i], NamedService(states[i].flights[steps[i].id].stage.header))
  {
    forall j | 0 <= j < |steps| && Decides(states[j], steps[j]) && steps[j].id == steps[i].id ensures j == i {
      if i < j { RoutedOnce(cfg, states, steps, i, j); }
      if j < i { RoutedOnce(cfg, states, steps, j, i); }
    }
  }

  /** What the sidecar with its counters does in a run is one of its policies, so all that holds of runs under them
      holds of this one. */
  lemma CountersAreAPolicy(cfg: Config, workers: seq<Worker>, states: seq<State>, steps: seq<Step>,
      counters: seq<Counters>) returns (policy: Policy)
    requires ValidConfig(cfg) && Lists(cfg, workers) && Turning(cfg, workers, states, steps, counters)
    requires states[0] == Init
    ensures Admissible(cfg, policy) && SidecarRoutes(policy, workers) && Guided(cfg, policy, states, steps)
  {
    var turns := (id: nat) => TurnOf(states, steps, counters, id);
    policy := PolicyOf(workers, turns);
    SidecarIsAdmissible(cfg, workers, turns);
    forall i | 0 <= i < |steps| ensures Follows(policy, states[i], steps[i]) {
      if Decides(states[i], steps[i]) {
        assert Turns(workers, states[i], steps[i], counters[i], counters[i + 1]);
        TurnTaken(cfg, states, steps, counters, i);
      }
    }
  }
}
