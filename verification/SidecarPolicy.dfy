/** The sidecar's own routing policy: the header read as JSON, the registry of workers, and a turn among the workers
    of a service. Under it the headers that workers print reach the pods they name. */
module SidecarPolicy {
  import opened Options
  import opened Descriptor
  import opened Text
  import opened Mesh
  import opened MeshTheorems
  import opened MeshProgress
  import opened MeshRuns
  import opened MeshWitnesses
  import RoundRobin
  import HeaderJson
  import JsonLoads
  import Chain = ServiceChain
  import ChainTheorem

  // ----------------------------------------------------------------- headers as bytes

  predicate Ascii(s: string) {
    forall i | 0 <= i < |s| :: s[i] < 128 as char
  }

  /** What encode() makes of ASCII text, and a C string's bytes. */
  function AsBytes(s: string): (b: Bytes)
    requires Ascii(s)
    ensures |b| == |s| && forall i | 0 <= i < |s| :: b[i] == s[i] as int
  {
    if s == "" then [] else [s[0] as int] + AsBytes(s[1..])
  }

  predicate AsciiBytes(b: Bytes) {
    forall i | 0 <= i < |b| :: b[i] < 128
  }

  /** ... and decode() of such bytes. */
  function AsText(b: Bytes): (s: string)
    ensures |s| == |b| && forall i | 0 <= i < |b| :: s[i] == b[i] as char
  {
    if b == [] then "" else [b[0] as char] + AsText(b[1..])
  }

  lemma TextOfBytes(s: string)
    requires Ascii(s)
    ensures AsText(AsBytes(s)) == s && AsciiBytes(AsBytes(s))
  {
  }

  // ----------------------------------------------------------------- the registry and the policy

  datatype Worker = Worker(name: string, pod: nat, service: string)

  /** The pod registered under a worker's name, if there is one. */
  function PodOf(workers: seq<Worker>, name: string): (r: Option<int>)
    ensures r.Some? ==> exists w :: w in workers && w.name == name && w.pod == r.value
    ensures r.None? ==> forall w | w in workers :: w.name != name
  {
    if workers == [] then None
    else if workers[0].name == name then Some(workers[0].pod)
    else PodOf(workers[1..], name)
  }

  function WorkersOf(workers: seq<Worker>, service: string): (r: seq<Worker>)
    ensures forall w | w in r :: w in workers && w.service == service
    ensures forall w | w in workers && w.service == service :: w in r
  {
    if workers == [] then []
    else if workers[0].service == service then [workers[0]] + WorkersOf(workers[1..], service)
    else WorkersOf(workers[1..], service)
  }

  predicate Sorted(workers: seq<Worker>) {
    forall i, j | 0 <= i < j < |workers| :: workers[i].pod <= workers[j].pod
  }

  function Insert(w: Worker, workers: seq<Worker>): (r: seq<Worker>)
    ensures r != [] && (r[0] == w || (workers != [] && r[0] == workers[0]))
  {
    if workers == [] || w.pod <= workers[0].pod then [w] + workers else [workers[0]] + Insert(w, workers[1..])
  }

  function ByPod(workers: seq<Worker>): seq<Worker> {
    if workers == [] then [] else Insert(workers[0], ByPod(workers[1..]))
  }

  lemma SortedCons(w: Worker, workers: seq<Worker>)
    requires Sorted(workers) && (workers == [] || w.pod <= workers[0].pod)
    ensures Sorted([w] + workers)
  {
  }

  lemma {:induction false} InsertSorts(w: Worker, workers: seq<Worker>)
    requires Sorted(workers)
    ensures Sorted(Insert(w, workers))
  {
    if workers == [] || w.pod <= workers[0].pod {
      SortedCons(w, workers);
    } else {
      InsertSorts(w, workers[1..]);
      SortedCons(workers[0], Insert(w, workers[1..]));
    }
  }

  lemma {:induction false} InsertCounts(w: Worker, workers: seq<Worker>)
    ensures multiset(Insert(w, workers)) == multiset{w} + multiset(workers)
  {
    if workers != [] && w.pod > workers[0].pod {
      InsertCounts(w, workers[1..]);
      assert multiset(workers) == multiset{workers[0]} + multiset(workers[1..]) by {
        assert workers == [workers[0]] + workers[1..];
      }
    }
  }

  /** Sorting by pod gives the same workers in the order of their pods. */
  lemma {:induction false} ByPodSorts(workers: seq<Worker>)
    ensures Sorted(ByPod(workers)) && multiset(ByPod(workers)) == multiset(workers)
  {
    if workers != [] {
      ByPodSorts(workers[1..]);
      InsertSorts(workers[0], ByPod(workers[1..]));
      InsertCounts(workers[0], ByPod(workers[1..]));
      assert workers == [workers[0]] + workers[1..];
    }
  }

  lemma SameElements(a: seq<Worker>, b: seq<Worker>)
    requires multiset(a) == multiset(b)
    ensures forall w :: w in a <==> w in b
  {
    forall w ensures w in a <==> w in b {
      assert w in a <==> w in multiset(a);
      assert w in b <==> w in multiset(b);
    }
  }

  /** get_workers_by_service: the workers registered for a service, in the order of their pods. */
  function Candidates(workers: seq<Worker>, service: string): (r: seq<Worker>)
    ensures Sorted(r) && forall w :: w in r <==> w in workers && w.service == service
  {
    ByPodSorts(WorkersOf(workers, service));
    SameElements(ByPod(WorkersOf(workers, service)), WorkersOf(workers, service));
    ByPod(WorkersOf(workers, service))
  }

  lemma {:induction false} WorkersCounted(workers: seq<Worker>, service: string, w: Worker)
    ensures multiset(WorkersOf(workers, service))[w] == if w.service == service then multiset(workers)[w] else 0
  {
    if workers != [] {
      WorkersCounted(workers[1..], service, w);
      assert workers == [workers[0]] + workers[1..];
    }
  }

  /** The list has each worker of the service as often as the registry has it, and no other. */
  lemma CandidatesCounted(workers: seq<Worker>, service: string, w: Worker)
    ensures multiset(Candidates(workers, service))[w] == if w.service == service then multiset(workers)[w] else 0
  {
    ByPodSorts(WorkersOf(workers, service));
    WorkersCounted(workers, service, w);
  }

  /** The service that a request's header names. */
  function NamedService(header: Bytes): string {
    Chain.ServiceName(Chain.Loaded(AsText(header), "url"))
  }

  /** _route_request and _route_response up to their decision; `turn` is where the selector's counter stands. */
  function Choose(workers: seq<Worker>, turn: nat, header: Bytes, response: bool): Decision {
    if response then
      var dest := Chain.Loaded(AsText(header), "dest_worker");
      if dest == "" then ToBridge
      else match PodOf(workers, dest)
        case None => NoWorker
        case Some(pod) => Forward(pod)
    else
      var candidates := Candidates(workers, NamedService(header));
      if candidates == [] then NoWorker else Forward(candidates[RoundRobin.Position(turn, |candidates|)].pod)
  }

  /** A header of which the model knows what json.loads makes. */
  predicate Readable(header: Bytes) {
    AsciiBytes(header) && JsonLoads.Loads(AsText(header)).Some?
  }

  /** What the sidecar decides, wherever its counter stands. */
  ghost predicate Chosen(d: Decision, workers: seq<Worker>, header: Bytes, response: bool) {
    exists turn: nat :: d == Choose(workers, turn, header, response)
  }

  /** A policy that is the sidecar's on every readable header. */
  ghost predicate SidecarRoutes(policy: Policy, workers: seq<Worker>) {
    forall id, header, response | Readable(header) :: Chosen(policy(id, header, response), workers, header, response)
  }

  /** The registry lists pods of the configuration, under distinct names. */
  ghost predicate Lists(cfg: Config, workers: seq<Worker>) {
    && (forall w | w in workers :: w.pod in cfg.registry && cfg.registry[w.pod] == w.service)
    && (forall i, j | 0 <= i < j < |workers| :: workers[i].name != workers[j].name)
  }

  lemma ChoiceIsAllowed(cfg: Config, workers: seq<Worker>, turn: nat, header: Bytes, response: bool)
    requires Lists(cfg, workers)
    ensures Allowed(cfg, Choose(workers, turn, header, response), response)
  {
    if !response {
      var candidates := Candidates(workers, NamedService(header));
      if candidates != [] { assert candidates[RoundRobin.Position(turn, |candidates|)] in candidates; }
    }
  }

  /** The sidecar gives a request up exactly when the service it names has no worker, and a response exactly when
      nobody has the name it gives. */
  lemma GivesUpIff(workers: seq<Worker>, turn: nat, header: Bytes, response: bool)
    ensures Choose(workers, turn, header, response).NoWorker? <==>
      if response then
        var dest := Chain.Loaded(AsText(header), "dest_worker"); dest != "" && forall w | w in workers :: w.name != dest
      else
        forall w | w in workers :: w.service != NamedService(header)
  {
    if !response {
      var candidates := Candidates(workers, NamedService(header));
      if candidates != [] { assert candidates[0] in candidates; }
    }
  }

  /** The policy whose counter stands at `turns(id)` when the `id`-th message is routed. */
  function PolicyOf(workers: seq<Worker>, turns: nat -> nat): Policy {
    (id: nat, header: Bytes, response: bool) => Choose(workers, turns(id), header, response)
  }

  /** Wherever its counters stand, what the sidecar decides is a policy of the kind the pipeline allows. */
  lemma SidecarIsAdmissible(cfg: Config, workers: seq<Worker>, turns: nat -> nat)
    requires Lists(cfg, workers)
    ensures Admissible(cfg, PolicyOf(workers, turns)) && SidecarRoutes(PolicyOf(workers, turns), workers)
  {
    var policy := PolicyOf(workers, turns);
    forall id: nat, header: Bytes, response: bool ensures Allowed(cfg, policy(id, header, response), response) {
      ChoiceIsAllowed(cfg, workers, turns(id), header, response);
    }
    forall id: nat, header: Bytes, response: bool | Readable(header)
      ensures Chosen(policy(id, header, response), workers, header, response)
    {
      assert policy(id, header, response) == Choose(workers, turns(id), header, response);
    }
  }

  // ----------------------------------------------------------------- printed headers are readable

  predicate AsciiEntry(e: HeaderJson.Entry) {
    Ascii(e.key) && Ascii(e.value) && Ascii(e.sep)
  }

  lemma {:induction false} EntriesAscii(entries: seq<HeaderJson.Entry>, rest: string)
    requires Ascii(rest) && forall i | 0 <= i < |entries| :: AsciiEntry(entries[i])
    ensures Ascii(HeaderJson.PrintEntries(entries, rest))
  {
    if entries != [] {
      EntriesAscii(entries[1..], rest);
      EntryAscii(entries[0], HeaderJson.PrintEntries(entries[1..], rest));
    }
  }

  lemma EntryAscii(e: HeaderJson.Entry, rest: string)
    requires AsciiEntry(e) && Ascii(rest)
    ensures Ascii(HeaderJson.PrintEntry(e, rest))
  {
  }

  predicate AsciiHeader(h: HeaderJson.Header) {
    && Ascii(h.method_) && Ascii(h.url) && Ascii(h.path) && Ascii(h.query) && Ascii(h.reqId) && Ascii(h.source)
    && Ascii(h.dest)
  }

  lemma KeysAscii()
    ensures forall key | key in HeaderJson.KEYS :: Ascii(key)
  {
    assert Ascii("method") && Ascii("url") && Ascii("path") && Ascii("headers") && Ascii("query_string");
    assert Ascii("remote_addr") && Ascii("status_code") && Ascii("req_id_str") && Ascii("source_worker");
    assert Ascii("dest_worker");
  }

  lemma NumberAscii(n: int)
    ensures Ascii(PrintInt(n))
  {
    PrintedIsPlain(n);
  }

  lemma KeyAscii(h: HeaderJson.Header, i: nat)
    requires i < 10
    ensures Ascii(HeaderJson.HeaderEntries(h, "", "}")[i].key)
  {
    KeysAscii();
    assert HeaderJson.HeaderEntries(h, "", "}")[i].key == HeaderJson.KEYS[i];
  }

  lemma ValueAscii(h: HeaderJson.Header, i: nat)
    requires i < 10 && AsciiHeader(h)
    ensures Ascii(HeaderJson.HeaderEntries(h, "", "}")[i].value) && Ascii(HeaderJson.HeaderEntries(h, "", "}")[i].sep)
  {
    NumberAscii(h.status);
  }

  lemma HeaderAscii(h: HeaderJson.Header)
    requires AsciiHeader(h)
    ensures Ascii(HeaderJson.Serialize(h, ""))
  {
    var entries := HeaderJson.HeaderEntries(h, "", "}");
    forall i | 0 <= i < |entries| ensures AsciiEntry(entries[i]) {
      KeyAscii(h, i);
      ValueAscii(h, i);
    }
    EntriesAscii(entries, "");
  }

  /** The bytes a worker writes for a header. */
  function HeaderBytes(h: HeaderJson.Header): Bytes
    requires Ascii(Chain.WireHeader(h))
  {
    AsBytes(Chain.WireHeader(h))
  }

  /** A printed header is readable, and read back exactly where the sidecar looks. */
  lemma PrintedIsReadable(h: HeaderJson.Header)
    requires AsciiHeader(h) && ChainTheorem.ShortHeader(h) && JsonLoads.LiteralHeader(h)
    ensures Ascii(Chain.WireHeader(h)) && Readable(HeaderBytes(h)) && 1 <= |HeaderBytes(h)| < MAX_HEADER
    ensures Chain.Loaded(AsText(HeaderBytes(h)), "url") == h.url
    ensures Chain.Loaded(AsText(HeaderBytes(h)), "dest_worker") == h.dest
  {
    ChainTheorem.HeaderFits(h);
    HeaderAscii(h);
    TextOfBytes(Chain.WireHeader(h));
    JsonLoads.HeaderLoads(h);
    ChainTheorem.HeaderLoaded(h);
  }

  // ----------------------------------------------------------------- calls and answers over the mesh

  lemma PlainIsAscii(s: string)
    requires Chain.PlainName(s)
    ensures Ascii(s)
  {
  }

  /** The header of a call, on the wire. */
  ghost predicate CallOf(h: HeaderJson.Header, service: string) {
    && AsciiHeader(h) && ChainTheorem.ShortHeader(h) && JsonLoads.LiteralHeader(h)
    && Chain.ServiceName(h.url) == service
  }

  /** The header of a call to a service, built from a URL as the services build it, is one. */
  lemma CallIsOne(service: string, namespace: string, target: string, path: string, query: string, names: Chain.Names)
    requires Chain.PlainHost(service) && Without(service, '.') && Chain.PlainHost(namespace)
    requires ChainTheorem.PlainTarget(path, query) && ChainTheorem.Spells(target, path, query)
    requires Chain.PlainNames(names) && Chain.UrlFits(service, namespace, target)
    ensures CallOf(Chain.RequestHeader(Chain.Url(service, namespace, target), names), service)
  {
    ChainTheorem.CallHeader(service, namespace, target, path, query, names);
    ChainTheorem.UrlPlain(service, namespace, target, path, query);
    ChainTheorem.TargetSpelled(target, path, query);
    Chain.RoutedByName(service, namespace, target);
    UrlAscii(service, namespace, target, path, query);
    PlainIsAscii(path);
    PlainIsAscii(query);
    PlainIsAscii(names.reqId);
    PlainIsAscii(names.caller);
  }

  lemma UrlAscii(service: string, namespace: string, target: string, path: string, query: string)
    requires Chain.PlainHost(service) && Chain.PlainHost(namespace) && ChainTheorem.PlainTarget(path, query)
    requires ChainTheorem.Spells(target, path, query) && Chain.UrlFits(service, namespace, target)
    ensures Ascii(Chain.Url(service, namespace, target))
  {
    Chain.UrlShape(service, namespace, target);
    assert Ascii("http") && Ascii("://") && Ascii(".svc.cluster.local");
    assert Ascii(service) && Ascii(namespace) && Ascii(path) && Ascii(query);
    assert Ascii(target);
  }

  /** The sidecar sends a call to some pod of the service it names. */
  lemma CallIsForwarded(workers: seq<Worker>, policy: Policy, id: nat, h: HeaderJson.Header, service: string)
      returns (w: Worker)
    requires SidecarRoutes(policy, workers) && CallOf(h, service) && Candidates(workers, service) != []
    ensures Ascii(Chain.WireHeader(h)) && 1 <= |HeaderBytes(h)| < MAX_HEADER
    ensures w in workers && w.service == service && policy(id, HeaderBytes(h), false) == Forward(w.pod)
  {
    PrintedIsReadable(h);
    assert Chosen(policy(id, HeaderBytes(h), false), workers, HeaderBytes(h), false);
    var turn: nat :| policy(id, HeaderBytes(h), false) == Choose(workers, turn, HeaderBytes(h), false);
    var candidates := Candidates(workers, service);
    w := candidates[RoundRobin.Position(turn, |candidates|)];
    assert w in candidates;
  }

  /** ... and an answer to the pod of the worker it names, or to the bridge if it names none. */
  lemma AnswerIsForwarded(workers: seq<Worker>, policy: Policy, id: nat, h: HeaderJson.Header)
    requires SidecarRoutes(policy, workers)
    requires AsciiHeader(h) && ChainTheorem.ShortHeader(h) && JsonLoads.LiteralHeader(h)
    ensures Ascii(Chain.WireHeader(h)) && 1 <= |HeaderBytes(h)| < MAX_HEADER
    ensures policy(id, HeaderBytes(h), true) ==
      if h.dest == "" then ToBridge
      else if PodOf(workers, h.dest).None? then NoWorker else Forward(PodOf(workers, h.dest).value)
  {
    PrintedIsReadable(h);
    assert Chosen(policy(id, HeaderBytes(h), true), workers, HeaderBytes(h), true);
    var turn: nat :| policy(id, HeaderBytes(h), true) == Choose(workers, turn, HeaderBytes(h), true);
  }

  lemma {:induction false} PodFound(workers: seq<Worker>, w: Worker)
    requires w in workers && forall i, j | 0 <= i < j < |workers| :: workers[i].name != workers[j].name
    ensures PodOf(workers, w.name) == Some(w.pod)
  {
    if workers[0] != w {
      var i :| 0 <= i < |workers| && workers[i] == w;
      assert workers[1..][i - 1] == w;
      PodFound(workers[1..], w);
    }
  }

  /** A request as a worker writes it. */
  function RequestMsg(caller: Worker, reqId: int, h: HeaderJson.Header, body: Bytes): Msg
    requires Ascii(Chain.WireHeader(h))
  {
    Msg(false, caller.pod, false, false, reqId, HeaderBytes(h), body)
  }

  /** What a worker that read a header keeps of it. */
  function OriginIn(header: Bytes): Chain.Origin {
    Chain.OriginOf(AsText(header))
  }

  /** The header of a worker's answer to a request it read. */
  function AnswerHeader(header: Bytes, status: int, callee: Worker): HeaderJson.Header {
    Chain.ResponseHeader(status, OriginIn(header), callee.name)
  }

  ghost predicate PlainWorker(w: Worker) {
    Chain.PlainName(w.name) && w.name != "" && |w.name| <= 127
  }

  /** The request's leg: it is read at a pod of the service it names. */
  lemma RequestLeg(cfg: Config, workers: seq<Worker>, policy: Policy, s: State, caller: Worker, reqId: int,
      h: HeaderJson.Header, service: string, body: Bytes) returns (s': State, callee: Worker)
    requires ValidConfig(cfg) && Lists(cfg, workers) && SidecarRoutes(policy, workers)
    requires Attained(cfg, policy, s) && s.flights == map[] && caller in workers && 0 <= reqId < WORD
    requires CallOf(h, service) && Candidates(workers, service) != [] && |body| < WORD / 2
    ensures Ascii(Chain.WireHeader(h)) && callee in workers && callee.service == service
    ensures Attained(cfg, policy, s') && s'.flights == map[] && s'.next == s.next + 1 && OutcomesStay(s, s')
    ensures (caller.pod, reqId % MAX_PENDING) in s'.waiting
    ensures s.next in s'.outcomes
      && Arrival(s'.outcomes[s.next], RequestMsg(caller, reqId, h, body), Some(callee.pod))
  {
    callee := CallIsForwarded(workers, policy, s.next, h, service);
    var m := RequestMsg(caller, reqId, h, body);
    QuietIsOpen(cfg, s, Some(callee.pod));
    s' := EveryMessageArrives(cfg, policy, s, m, Some(callee.pod));
    assert s'.flights == s'.flights - {s.next};
  }

  /** The answer's leg: it is read at the pod of the worker it names, on the pipe that waits there. */
  lemma AnswerLeg(cfg: Config, workers: seq<Worker>, policy: Policy, s: State, caller: Worker, reqId: int,
      h: HeaderJson.Header, callee: Worker, body: Bytes) returns (s': State)
    requires ValidConfig(cfg) && Lists(cfg, workers) && SidecarRoutes(policy, workers)
    requires Attained(cfg, policy, s) && s.flights == map[] && (caller.pod, reqId % MAX_PENDING) in s.waiting
    requires caller in workers && callee in workers && 0 <= reqId < WORD && |body| < WORD / 2
    requires AsciiHeader(h) && ChainTheorem.ShortHeader(h) && JsonLoads.LiteralHeader(h) && h.dest == caller.name != ""
    ensures Ascii(Chain.WireHeader(h))
    ensures Attained(cfg, policy, s') && s'.flights == map[] && OutcomesStay(s, s')
    ensures s.next in s'.outcomes
      && Arrival(s'.outcomes[s.next], Msg(false, callee.pod, true, false, reqId, HeaderBytes(h), body),
           Some(caller.pod))
  {
    AnswerIsForwarded(workers, policy, s.next, h);
    PodFound(workers, caller);
    var m := Msg(false, callee.pod, true, false, reqId, HeaderBytes(h), body);
    QuietIsOpen(cfg, s, Some(caller.pod));
    s' := EveryMessageArrives(cfg, policy, s, m, Some(caller.pod));
    assert s'.flights == s'.flights - {s.next};
  }

  lemma AnswerIsPlain(h: HeaderJson.Header, status: int, callee: Worker)
    requires AsciiHeader(h) && ChainTheorem.ShortHeader(h) && JsonLoads.LiteralHeader(h)
    requires Chain.PlainName(h.reqId) && Chain.PlainName(h.source) && PlainWorker(callee)
    requires -INT_LIMIT <= status < INT_LIMIT
    ensures Ascii(Chain.WireHeader(h))
    ensures var a := AnswerHeader(HeaderBytes(h), status, callee);
      && AsciiHeader(a) && ChainTheorem.ShortHeader(a) && JsonLoads.LiteralHeader(a) && a.dest == h.source
  {
    PrintedIsReadable(h);
    TextOfBytes(Chain.WireHeader(h));
    LiteralIsPlain(h);
    ChainTheorem.OriginRead(h);
    ChainTheorem.AnswerHeader(status, OriginIn(HeaderBytes(h)), callee.name);
    PlainIsAscii(OriginIn(HeaderBytes(h)).reqId);
    PlainIsAscii(h.source);
    PlainIsAscii(callee.name);
  }

  lemma LiteralIsPlain(h: HeaderJson.Header)
    requires JsonLoads.LiteralHeader(h)
    ensures HeaderJson.PlainHeader(h)
  {
  }

  /** A call and its answer, over the mesh, under the sidecar's own policy: the request is read at a pod of the service
      that its URL names; answered there as the header that was read says, the answer is read at the pod of the worker
      that called. Header and request id are those written, and so are bodies that are not empty and shorter than a
      slot. */
  lemma CallRoundTrips(cfg: Config, workers: seq<Worker>, policy: Policy, s: State, caller: Worker, reqId: int,
      h: HeaderJson.Header, service: string, body: Bytes, status: int, reply: Bytes)
      returns (s': State, callee: Worker)
    requires ValidConfig(cfg) && Lists(cfg, workers) && SidecarRoutes(policy, workers)
    requires (forall w | w in workers :: PlainWorker(w)) && caller in workers && h.source == caller.name
    requires Attained(cfg, policy, s) && s.flights == map[] && 0 <= reqId < WORD && Chain.PlainName(h.reqId)
    requires CallOf(h, service) && Candidates(workers, service) != [] && |body| < WORD / 2 && |reply| < WORD / 2
    requires -INT_LIMIT <= status < INT_LIMIT
    ensures Attained(cfg, policy, s') && s'.flights == map[] && callee in workers && callee.service == service
    ensures Ascii(Chain.WireHeader(h)) && {s.next, s.next + 1} <= s'.outcomes.Keys
    ensures var o := s'.outcomes[s.next];
      && o.Delivered? && o.pod == callee.pod && o.header == HeaderBytes(h) && o.reqId == reqId
      && (0 < |body| < cfg.slotSize ==> o.body == body)
    ensures var answer := AnswerHeader(s'.outcomes[s.next].header, status, callee);
      var o := s'.outcomes[s.next + 1];
      && Ascii(Chain.WireHeader(answer)) && answer.dest == caller.name
      && o.Delivered? && o.pod == caller.pod && o.header == HeaderBytes(answer) && o.reqId == reqId && o.response
      && (0 < |reply| < cfg.slotSize ==> o.body == reply)
  {
    var s1;
    s1, callee := RequestLeg(cfg, workers, policy, s, caller, reqId, h, service, body);
    AnswerIsPlain(h, status, callee);
    var answer := AnswerHeader(HeaderBytes(h), status, callee);
    s' := AnswerLeg(cfg, workers, policy, s1, caller, reqId, answer, callee, reply);
    AttainedIsReachable(cfg, policy, s');
    DeliveredIsWritten(cfg, s', s.next);
    DeliveredIsWritten(cfg, s', s.next + 1);
  }

  // ----------------------------------------------------------------- the failures, under the sidecar's own policy

  /** Under the sidecar's policy a slot-long body sent in a call is cut at the pod it reaches. */
  lemma SidecarCutsSlotLongBody(cfg: Config, workers: seq<Worker>, policy: Policy, h: HeaderJson.Header,
      service: string, caller: Worker) returns (s: State)
    requires ValidConfig(cfg) && cfg.slotSize < WORD / 2 && Lists(cfg, workers) && SidecarRoutes(policy, workers)
    requires CallOf(h, service) && Candidates(workers, service) != [] && caller in workers
    ensures Attained(cfg, policy, s) && 0 in s.outcomes && s.outcomes[0].Delivered?
    ensures Service(cfg, s.outcomes[0].pod) == service && s.outcomes[0].msg.body == Zeros(cfg.slotSize)
    ensures s.outcomes[0].body != s.outcomes[0].msg.body
  {
    var callee := CallIsForwarded(workers, policy, 0, h, service);
    s := SlotLongBodyIsCut(cfg, policy, HeaderBytes(h), caller.pod, callee.pod);
  }

  /** ... a body of one byte that is no UTF-8, in an answer to the bridge, is lost. */
  lemma SidecarLosesLoneByte(cfg: Config, workers: seq<Worker>, policy: Policy, h: HeaderJson.Header, from: Worker)
      returns (s: State)
    requires ValidConfig(cfg) && Lists(cfg, workers) && SidecarRoutes(policy, workers) && from in workers
    requires AsciiHeader(h) && ChainTheorem.ShortHeader(h) && JsonLoads.LiteralHeader(h) && h.dest == ""
    ensures Attained(cfg, policy, s) && 0 in s.outcomes && s.outcomes[0].Answered?
    ensures s.outcomes[0].msg.body == [0xFF] && s.outcomes[0].body == []
  {
    AnswerIsForwarded(workers, policy, 0, h);
    s := LoneByteIsLost(cfg, policy, HeaderBytes(h), from.pod);
  }

  /** ... and answers that nobody waits for, named to a worker, can fill its service's whole RX body pool. */
  lemma SidecarPoolCanBeHeld(cfg: Config, workers: seq<Worker>, policy: Policy, h: HeaderJson.Header, from: Worker,
      to: Worker) returns (s: State)
    requires ValidConfig(cfg) && Lists(cfg, workers) && SidecarRoutes(policy, workers)
    requires from in workers && to in workers && to.name != ""
    requires AsciiHeader(h) && ChainTheorem.ShortHeader(h) && JsonLoads.LiteralHeader(h) && h.dest == to.name
    ensures Attained(cfg, policy, s) && OnlyOrphans(s) && HeldByOrphans(cfg, s, to.service)
  {
    PodFound(workers, to);
    PrintedIsReadable(h);
    var m := Msg(false, from.pod, true, false, 0, HeaderBytes(h), []);
    forall id: nat ensures Sent(cfg, policy, id, m, Some(to.pod)) { AnswerIsForwarded(workers, policy, id, h); }
    s := PoolCanBeHeld(cfg, policy, m, to.pod);
  }
}
