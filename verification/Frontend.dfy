/** The frontend's two-stage handler over a heap: client connections, per-request contexts and outstanding
    upstream calls, under every interleaving of requests and callbacks. */
module Frontend {
  import opened Http
  import opened ServiceChain
  import opened Text

  datatype Pending = Pending(client: nat, ctx: nat)

  /** What a client asked, what came back to its calls, and what it was answered. */
  datatype Exchange = Exchange(asked: Request, heard: seq<Response>, answers: seq<Reply>)

  /** `conns`, `contexts` and `calls` are what is allocated. The rest is history: who was accepted, the client
      each context was created for, the last call of each client, how often each was answered, started a call
      or was freed, what each exchanged with the frontend, and whether anything was ever used after it was freed. */
  datatype State = State(
    next: nat, conns: set<nat>, contexts: map<nat, Context>, calls: map<nat, Pending>,
    accepted: set<nat>, created: map<nat, nat>, last: map<nat, nat>,
    replies: multiset<nat>, started: multiset<nat>, freed: multiset<nat>, exchanges: map<nat, Exchange>, fault: bool)

  const Init: State := State(0, {}, map[], map[], {}, map[], map[], multiset{}, multiset{}, multiset{}, map[], false)

  // ----------------------------------------------------------------- what the handlers call

  /** dpumesh_conn_respond answers and frees the connection. */
  function Respond(s: State, client: nat, reply: Reply): State {
    s.(fault := s.fault || client !in s.conns, conns := s.conns - {client}, replies := s.replies + multiset{client},
       exchanges := Answered(s.exchanges, client, reply))
  }

  function Answered(exchanges: map<nat, Exchange>, client: nat, reply: Reply): map<nat, Exchange> {
    if client !in exchanges then exchanges
    else exchanges[client := exchanges[client].(answers := exchanges[client].answers + [reply])]
  }

  /** The answers when memory or a call fails. */
  const ALLOC_FAILED: Reply := Reply(500, Prefix("{\"error\":\"alloc failed\"}", 23))
  const UPSTREAM_FAILED: Reply := Reply(502, Prefix("{\"error\":\"upstream failed\"}", 26))

  /** free(ctx) */
  function Free(s: State, ctx: nat): State {
    s.(fault := s.fault || ctx !in s.contexts, contexts := s.contexts - {ctx}, freed := s.freed + multiset{ctx})
  }

  function Allocate(s: State, ctx: Context, client: nat): State {
    s.(next := s.next + 1, contexts := s.contexts[s.next := ctx], created := s.created[s.next := client])
  }

  function Store(s: State, at: nat, ctx: Context): State {
    s.(fault := s.fault || at !in s.contexts, contexts := s.contexts[at := ctx])
  }

  /** dpumesh_conn_upstream: reads the client's descriptor index; starts nothing when it fails. */
  function StartCall(s: State, client: nat, ctx: nat, ok: bool): State {
    var s := s.(fault := s.fault || client !in s.conns);
    if ok then
      s.(next := s.next + 1, calls := s.calls[s.next := Pending(client, ctx)],
         last := s.last[client := s.next], started := s.started + multiset{client})
    else s
  }

  // ----------------------------------------------------------------- the handlers

  /** handle_request on a new connection, given its decision; the allocation and the call may fail. */
  function Begin(s: State, action: Action, memory: bool, ok: bool): State {
    var client := s.next;
    var s := s.(next := s.next + 1, conns := s.conns + {client}, accepted := s.accepted + {client});
    match action
    case Respond(reply) => Respond(s, client, reply)
    case Upstream(ctx, _) =>
      if !memory then Respond(s, client, ALLOC_FAILED)
      else
        var at := s.next;
        var s := StartCall(Allocate(s, ctx, client), client, at, ok);
        if ok then s else Respond(Free(s, at), client, UPSTREAM_FAILED)
  }

  /** handle_upstream_response for an outstanding call, given its decision; the upstream connection is freed
      behind it. */
  function Proceed(s: State, call: nat, action: Action, ok: bool): State
    requires call in s.calls
  {
    var Pending(client, at) := s.calls[call];
    var s' := match action
      case Respond(reply) => Free(Respond(s, client, reply), at)
      case Upstream(ctx, _) =>
        var s := StartCall(Store(s, at, ctx), client, at, ok);
        if ok then s else Free(Respond(s, client, UPSTREAM_FAILED), at);
    s'.(calls := s'.calls - {call})
  }

  /** The state in which a request's action is carried out. */
  function Asking(s: State, r: Request): State {
    s.(exchanges := s.exchanges[s.next := Exchange(r, [], [])])
  }

  function HandleRequest(cfg: Config, s: State, r: Request, memory: bool, ok: bool): State {
    Begin(Asking(s, r), OnRequest(cfg, r), memory, ok)
  }

  function HandleResponse(cfg: Config, s: State, call: nat, resp: Response, ok: bool): State
    requires call in s.calls
  {
    var at := s.calls[call].ctx;
    if at !in s.contexts then s.(fault := true)
    else Proceed(Hear(s, s.calls[call].client, resp), call, OnResponse(cfg, s.contexts[at], resp), ok)
  }

  /** A response to one of the client's calls has come. */
  function Hear(s: State, client: nat, resp: Response): State {
    if client !in s.exchanges then s
    else s.(exchanges := s.exchanges[client := s.exchanges[client].(heard := s.exchanges[client].heard + [resp])])
  }

  datatype Event = Accept(r: Request, memory: bool, ok: bool) | Callback(call: nat, resp: Response, ok: bool)

  predicate Enabled(s: State, e: Event) {
    e.Callback? ==> e.call in s.calls
  }

  function Apply(cfg: Config, s: State, e: Event): State
    requires Enabled(s, e)
  {
    match e
    case Accept(r, memory, ok) => HandleRequest(cfg, s, r, memory, ok)
    case Callback(call, resp, ok) => HandleResponse(cfg, s, call, resp, ok)
  }

  ghost predicate Legal(cfg: Config, s: State, run: seq<Event>)
    decreases |run|
  {
    run == [] || (Enabled(s, run[0]) && Legal(cfg, Apply(cfg, s, run[0]), run[1..]))
  }

  ghost function After(cfg: Config, s: State, run: seq<Event>): State
    requires Legal(cfg, s, run)
    decreases |run|
  {
    if run == [] then s else After(cfg, Apply(cfg, s, run[0]), run[1..])
  }

  ghost predicate Reached(cfg: Config, s: State) {
    exists run :: Legal(cfg, Init, run) && s == After(cfg, Init, run)
  }

  // ----------------------------------------------------------------- the invariant

  ghost predicate Fresh(s: State) {
    && (forall c | c in s.accepted :: c < s.next)
    && (forall x | x in s.created :: x < s.next)
    && (forall k | k in s.calls :: k < s.next)
  }

  /** Each outstanding call has a live client and a live context, both its own. */
  ghost predicate CallsOwn(s: State) {
    forall k | k in s.calls :: CallOwns(s, k, s.calls[k].client, s.calls[k].ctx)
  }

  ghost predicate CallOwns(s: State, k: nat, client: nat, ctx: nat) {
    && client in s.conns && client in s.last && s.last[client] == k
    && ctx in s.contexts && ctx in s.created && s.created[ctx] == client
  }

  /** Each live client has an outstanding call, and is an accepted one. */
  ghost predicate ClientsWait(s: State) {
    forall c | c in s.conns :: c in s.accepted && c in s.last && s.last[c] in s.calls && s.calls[s.last[c]].client == c
  }

  /** Each live context belongs to the outstanding call of its client. */
  ghost predicate ContextsServe(s: State) {
    forall x | x in s.contexts :: x in s.created && s.created[x] in s.conns && HasCall(s, s.created[x], x)
  }

  ghost predicate HasCall(s: State, client: nat, ctx: nat) {
    client in s.last && s.last[client] in s.calls && s.calls[s.last[client]].ctx == ctx
  }

  /** A live client has not been answered, any other accepted client has been answered once. */
  ghost predicate RepliesCounted(s: State) {
    forall c :: s.replies[c] == if c in s.accepted && c !in s.conns then 1 else 0
  }

  /** A live context has not been freed, any other has been freed once. */
  ghost predicate FreesCounted(s: State) {
    forall x :: s.freed[x] == if x in s.created && x !in s.contexts then 1 else 0
  }

  /** A client has started one call for each stage it has entered. */
  ghost predicate CallsCounted(s: State) {
    && (forall c :: s.started[c] <= 2 && (c !in s.accepted ==> s.started[c] == 0))
    && (forall x | x in s.contexts && x in s.created ::
          s.started[s.created[x]] == if s.contexts[x].stage.WaitingId? then 1 else 2)
  }

  ghost predicate Owned(s: State) {
    CallsOwn(s) && ClientsWait(s) && ContextsServe(s)
  }

  ghost predicate Counted(s: State) {
    RepliesCounted(s) && FreesCounted(s) && CallsCounted(s)
  }

  ghost predicate Inv(s: State) {
    !s.fault && Fresh(s) && Owned(s) && Counted(s)
  }

  /** Only the first stage leads to another call. */
  lemma SecondStageAnswers(cfg: Config, ctx: Context, resp: Response)
    ensures OnResponse(cfg, ctx, resp).Upstream? ==>
      ctx.stage.WaitingId? && OnResponse(cfg, ctx, resp).ctx.stage.WaitingAttend?
  {
  }

  lemma FirstStageWaits(cfg: Config, r: Request)
    ensures OnRequest(cfg, r).Upstream? ==> OnRequest(cfg, r).ctx.stage.WaitingId?
  {
  }

  // ----------------------------------------------------------------- the four outcomes of an event

  /** A request answered at once; `made` if a context was created for it and freed again. */
  ghost function Refused(s: State, made: bool, reply: Reply): State {
    var c := s.next;
    var s := s.(next := s.next + 1, accepted := s.accepted + {c}, replies := s.replies + multiset{c},
                exchanges := Answered(s.exchanges, c, reply));
    if made then s.(next := s.next + 1, created := s.created[s.next := c], freed := s.freed + multiset{s.next}) else s
  }

  ghost function Opened(s: State, ctx: Context): State {
    var c, x, k := s.next, s.next + 1, s.next + 2;
    s.(next := s.next + 3, accepted := s.accepted + {c}, conns := s.conns + {c}, contexts := s.contexts[x := ctx],
       created := s.created[x := c], calls := s.calls[k := Pending(c, x)], last := s.last[c := k],
       started := s.started + multiset{c})
  }

  ghost function Closed(s: State, call: nat, reply: Reply): State
    requires call in s.calls
  {
    var Pending(c, x) := s.calls[call];
    s.(conns := s.conns - {c}, contexts := s.contexts - {x}, calls := s.calls - {call},
       replies := s.replies + multiset{c}, freed := s.freed + multiset{x},
       exchanges := Answered(s.exchanges, c, reply))
  }

  /** What the client is told when its request, or a response to it, ends the exchange. */
  function AtOnce(action: Action, memory: bool): Reply {
    if action.Respond? then action.reply else if !memory then ALLOC_FAILED else UPSTREAM_FAILED
  }

  ghost function Replaced(s: State, call: nat, ctx: Context): State
    requires call in s.calls
  {
    var Pending(c, x) := s.calls[call];
    s.(next := s.next + 1, contexts := s.contexts[x := ctx], calls := s.calls[s.next := Pending(c, x)] - {call},
       last := s.last[c := s.next], started := s.started + multiset{c})
  }

  lemma NewIsUnused(s: State)
    requires Inv(s)
    ensures s.next !in s.accepted && s.next !in s.conns && s.next + 1 !in s.created && s.next + 1 !in s.contexts
  {
  }

  lemma AddRemove(xs: set<nat>, x: nat)
    requires x !in xs
    ensures xs + {x} - {x} == xs
  {
  }

  lemma StoreRemove(m: map<nat, Context>, x: nat, ctx: Context)
    requires x !in m
    ensures m[x := ctx] - {x} == m
  {
  }

  lemma BeginIs(s: State, action: Action, memory: bool, ok: bool)
    requires !s.fault && s.next !in s.conns && s.next + 1 !in s.contexts
    ensures Begin(s, action, memory, ok) ==
      if action.Upstream? && memory && ok then Opened(s, action.ctx)
      else Refused(s, action.Upstream? && memory, AtOnce(action, memory))
  {
    AddRemove(s.conns, s.next);
    if action.Upstream? && memory {
      StoreRemove(s.contexts, s.next + 1, action.ctx);
      BeginCallIs(s, action, ok);
    }
  }

  lemma BeginCallIs(s: State, action: Action, ok: bool)
    requires !s.fault && s.next !in s.conns && s.next + 1 !in s.contexts && action.Upstream?
    requires s.conns + {s.next} - {s.next} == s.conns
    requires s.contexts[s.next + 1 := action.ctx] - {s.next + 1} == s.contexts
    ensures Begin(s, action, true, ok) ==
      if ok then Opened(s, action.ctx) else Refused(s, true, UPSTREAM_FAILED)
  {
  }

  lemma ProceedIs(s: State, call: nat, action: Action, ok: bool)
    requires Inv(s) && call in s.calls
    ensures Proceed(s, call, action, ok) ==
      if action.Upstream? && ok then Replaced(s, call, action.ctx) else Closed(s, call, AtOnce(action, true))
  {
    var k := call;
    assert CallOwns(s, k, s.calls[k].client, s.calls[k].ctx);
    if action.Upstream? {
      var x := s.calls[k].ctx;
      assert s.contexts[x := action.ctx] - {x} == s.contexts - {x};
    }
  }

  // ----------------------------------------------------------------- each keeps the invariant

  lemma RefusedOwned(s: State, made: bool, reply: Reply)
    requires Inv(s)
    ensures Owned(Refused(s, made, reply))
  {
    var s' := Refused(s, made, reply);
    forall k | k in s'.calls ensures CallOwns(s', k, s'.calls[k].client, s'.calls[k].ctx) {
      assert CallOwns(s, k, s.calls[k].client, s.calls[k].ctx);
    }
  }

  lemma RefusedCounted(s: State, made: bool, reply: Reply)
    requires Inv(s)
    ensures Counted(Refused(s, made, reply)) && Fresh(Refused(s, made, reply))
  {
    NewIsUnused(s);
  }

  lemma OpenedOwned(s: State, ctx: Context)
    requires Inv(s)
    ensures Owned(Opened(s, ctx))
  {
    var s' := Opened(s, ctx);
    forall k | k in s'.calls ensures CallOwns(s', k, s'.calls[k].client, s'.calls[k].ctx) {
      if k in s.calls { assert CallOwns(s, k, s.calls[k].client, s.calls[k].ctx); }
    }
  }

  lemma OpenedCounted(s: State, ctx: Context)
    requires Inv(s) && ctx.stage.WaitingId?
    ensures Counted(Opened(s, ctx)) && Fresh(Opened(s, ctx))
  {
    assert s.next !in s.accepted && s.next !in s.conns;
  }

  lemma ClosedOwned(s: State, call: nat, reply: Reply)
    requires Inv(s) && call in s.calls
    ensures Owned(Closed(s, call, reply))
  {
    var s' := Closed(s, call, reply);
    assert CallOwns(s, call, s.calls[call].client, s.calls[call].ctx);
    forall k | k in s'.calls ensures CallOwns(s', k, s'.calls[k].client, s'.calls[k].ctx) {
      assert CallOwns(s, k, s.calls[k].client, s.calls[k].ctx);
    }
  }

  lemma ClosedCounted(s: State, call: nat, reply: Reply)
    requires Inv(s) && call in s.calls
    ensures Counted(Closed(s, call, reply))
  {
    assert CallOwns(s, call, s.calls[call].client, s.calls[call].ctx);
  }

  lemma ReplacedOwned(s: State, call: nat, ctx: Context)
    requires Inv(s) && call in s.calls
    ensures Owned(Replaced(s, call, ctx))
  {
    var s' := Replaced(s, call, ctx);
    assert CallOwns(s, call, s.calls[call].client, s.calls[call].ctx);
    forall k | k in s'.calls ensures CallOwns(s', k, s'.calls[k].client, s'.calls[k].ctx) {
      if k != s.next { assert CallOwns(s, k, s.calls[k].client, s.calls[k].ctx); }
    }
  }

  lemma ReplacedCounted(s: State, call: nat, ctx: Context)
    requires Inv(s) && call in s.calls && ctx.stage.WaitingAttend? && s.contexts[s.calls[call].ctx].stage.WaitingId?
    ensures Counted(Replaced(s, call, ctx))
  {
    var s' := Replaced(s, call, ctx);
    assert CallOwns(s, call, s.calls[call].client, s.calls[call].ctx);
    assert s.started[s.calls[call].client] == 1;
    forall x | x in s'.contexts && x in s'.created
      ensures s'.started[s'.created[x]] == if s'.contexts[x].stage.WaitingId? then 1 else 2
    {
      assert HasCall(s, s.created[x], x);
    }
  }

  lemma EventKeeps(cfg: Config, s: State, e: Event)
    requires Inv(s) && Enabled(s, e)
    ensures Inv(Apply(cfg, s, e))
  {
    match e {
      case Accept(r, memory, ok) =>
        BeginKeeps(cfg, s, r, memory, ok);
      case Callback(call, resp, ok) =>
        ProceedKeeps(cfg, s, call, resp, ok);
    }
  }

  lemma ExchangesAreHistory(s: State, exchanges: map<nat, Exchange>)
    requires Inv(s)
    ensures Inv(s.(exchanges := exchanges))
  {
    var s' := s.(exchanges := exchanges);
    forall k | k in s'.calls ensures CallOwns(s', k, s'.calls[k].client, s'.calls[k].ctx) {
      assert CallOwns(s, k, s.calls[k].client, s.calls[k].ctx);
    }
  }

  lemma OpenedKeeps(s: State, ctx: Context)
    requires Inv(s) && ctx.stage.WaitingId?
    ensures Inv(Opened(s, ctx))
  {
    OpenedOwned(s, ctx);
    OpenedCounted(s, ctx);
  }

  lemma RefusedKeeps(s: State, made: bool, reply: Reply)
    requires Inv(s)
    ensures Inv(Refused(s, made, reply))
  {
    RefusedOwned(s, made, reply);
    RefusedCounted(s, made, reply);
  }

  lemma ReplacedKeeps(s: State, call: nat, ctx: Context)
    requires Inv(s) && call in s.calls && ctx.stage.WaitingAttend? && s.contexts[s.calls[call].ctx].stage.WaitingId?
    ensures Inv(Replaced(s, call, ctx))
  {
    assert CallOwns(s, call, s.calls[call].client, s.calls[call].ctx);
    ReplacedOwned(s, call, ctx);
    ReplacedCounted(s, call, ctx);
  }

  lemma ClosedKeeps(s: State, call: nat, reply: Reply)
    requires Inv(s) && call in s.calls
    ensures Inv(Closed(s, call, reply))
  {
    ClosedOwned(s, call, reply);
    ClosedCounted(s, call, reply);
  }

  lemma BeginKeeps(cfg: Config, s: State, r: Request, memory: bool, ok: bool)
    requires Inv(s)
    ensures Inv(HandleRequest(cfg, s, r, memory, ok))
  {
    var action, t := OnRequest(cfg, r), Asking(s, r);
    FirstStageWaits(cfg, r);
    ExchangesAreHistory(s, t.exchanges);
    NewIsUnused(t);
    BeginIs(t, action, memory, ok);
    if action.Upstream? && memory && ok { OpenedKeeps(t, action.ctx); }
    else { RefusedKeeps(t, action.Upstream? && memory, AtOnce(action, memory)); }
  }

  lemma ContextLives(s: State, call: nat)
    requires Inv(s) && call in s.calls
    ensures s.calls[call].ctx in s.contexts && s.calls[call].client in s.conns
  {
    assert CallOwns(s, call, s.calls[call].client, s.calls[call].ctx);
  }

  lemma ProceedKeeps(cfg: Config, s: State, call: nat, resp: Response, ok: bool)
    requires Inv(s) && call in s.calls
    ensures Inv(HandleResponse(cfg, s, call, resp, ok))
  {
    ContextLives(s, call);
    var ctx, t := s.contexts[s.calls[call].ctx], Hear(s, s.calls[call].client, resp);
    var action := OnResponse(cfg, ctx, resp);
    SecondStageAnswers(cfg, ctx, resp);
    ExchangesAreHistory(s, t.exchanges);
    ProceedIs(t, call, action, ok);
    if action.Upstream? && ok { ReplacedKeeps(t, call, action.ctx); }
    else { ClosedKeeps(t, call, AtOnce(action, true)); }
  }

  lemma {:induction false} RunKeeps(cfg: Config, s: State, run: seq<Event>)
    requires Inv(s) && Legal(cfg, s, run)
    ensures Inv(After(cfg, s, run))
    decreases |run|
  {
    if run != [] {
      EventKeeps(cfg, s, run[0]);
      RunKeeps(cfg, Apply(cfg, s, run[0]), run[1..]);
    }
  }

  lemma ReachedInv(cfg: Config, s: State)
    requires Reached(cfg, s)
    ensures Inv(s)
  {
    var run :| Legal(cfg, Init, run) && s == After(cfg, Init, run);
    RunKeeps(cfg, Init, run);
  }

  // ----------------------------------------------------------------- the theorems

  /** The request is still waiting for an upstream answer. */
  ghost predicate Waits(s: State, client: nat) {
    exists k :: k in s.calls && s.calls[k].client == client
  }

  /** Every accepted request is answered exactly once, as soon as none of its calls is outstanding and not
      before, and starts at most two calls. */
  lemma AnsweredExactlyOnce(cfg: Config, s: State, client: nat)
    requires Reached(cfg, s) && client in s.accepted
    ensures s.replies[client] == if Waits(s, client) then 0 else 1
    ensures s.started[client] <= 2
  {
    ReachedInv(cfg, s);
  }

  /** Every context is freed exactly once, when no call refers to it any more, and nothing freed is ever
      used. */
  lemma FreedExactlyOnce(cfg: Config, s: State, ctx: nat)
    requires Reached(cfg, s) && ctx in s.created
    ensures s.freed[ctx] == if exists k :: k in s.calls && s.calls[k].ctx == ctx then 0 else 1
    ensures !s.fault
  {
    ReachedInv(cfg, s);
  }

  /** With no call outstanding nothing stays allocated. */
  lemma NothingLeaks(cfg: Config, s: State)
    requires Reached(cfg, s) && s.calls == map[]
    ensures s.conns == {} && s.contexts == map[]
    ensures forall c | c in s.accepted :: s.replies[c] == 1
  {
    ReachedInv(cfg, s);
  }

  // ----------------------------------------------------------------- termination

  ghost function InStage(s: State, stage: Stage): set<nat> {
    set k | k in s.calls && s.calls[k].ctx in s.contexts && s.contexts[s.calls[k].ctx].stage == stage
  }

  /** Callbacks still to come. */
  ghost function Work(s: State): nat {
    2 * |InStage(s, WaitingId)| + |InStage(s, WaitingAttend)|
  }

  lemma CloseLowers(s: State, call: nat, reply: Reply)
    requires Inv(s) && call in s.calls
    ensures Work(Closed(s, call, reply)) < Work(s)
  {
    var s' := Closed(s, call, reply);
    assert CallOwns(s, call, s.calls[call].client, s.calls[call].ctx);
    assert forall k | k in s.calls :: CallOwns(s, k, s.calls[k].client, s.calls[k].ctx);
    assert InStage(s', WaitingId) == InStage(s, WaitingId) - {call};
    assert InStage(s', WaitingAttend) == InStage(s, WaitingAttend) - {call};
    assert call in InStage(s, WaitingId) || call in InStage(s, WaitingAttend);
  }

  lemma ReplaceLowers(s: State, call: nat, ctx: Context)
    requires Inv(s) && call in s.calls && ctx.stage.WaitingAttend? && s.contexts[s.calls[call].ctx].stage.WaitingId?
    ensures Work(Replaced(s, call, ctx)) < Work(s)
  {
    var s' := Replaced(s, call, ctx);
    assert forall k | k in s.calls :: CallOwns(s, k, s.calls[k].client, s.calls[k].ctx);
    assert InStage(s', WaitingId) == InStage(s, WaitingId) - {call};
    assert InStage(s', WaitingAttend) == InStage(s, WaitingAttend) + {s.next};
    assert call in InStage(s, WaitingId);
  }

  lemma CallbackLowers(cfg: Config, s: State, call: nat, resp: Response, ok: bool)
    requires Inv(s) && call in s.calls
    ensures Work(HandleResponse(cfg, s, call, resp, ok)) < Work(s)
  {
    ContextLives(s, call);
    var ctx, t := s.contexts[s.calls[call].ctx], Hear(s, s.calls[call].client, resp);
    var action := OnResponse(cfg, ctx, resp);
    SecondStageAnswers(cfg, ctx, resp);
    ExchangesAreHistory(s, t.exchanges);
    ProceedIs(t, call, action, ok);
    assert InStage(t, WaitingId) == InStage(s, WaitingId) && InStage(t, WaitingAttend) == InStage(s, WaitingAttend);
    if action.Upstream? && ok { ReplaceLowers(t, call, action.ctx); }
    else { CloseLowers(t, call, AtOnce(action, true)); }
  }

  lemma CallbackStep(cfg: Config, s: State, e: Event, s': State)
    requires Inv(s) && e.Callback? && Enabled(s, e) && s' == Apply(cfg, s, e)
    ensures Inv(s') && Work(s') < Work(s)
  {
    EventKeeps(cfg, s, e);
    CallbackLowers(cfg, s, e.call, e.resp, e.ok);
  }

  ghost predicate CallbackRun(cfg: Config, s: State, run: seq<Event>)
    decreases |run|
  {
    run == [] || (run[0].Callback? && Enabled(s, run[0]) && CallbackRun(cfg, Apply(cfg, s, run[0]), run[1..]))
  }

  /** Without new requests there are at most two callbacks for each outstanding call of the first stage and
      one for each of the second. */
  lemma {:induction false} CallbacksEnd(cfg: Config, s: State, run: seq<Event>)
    requires Inv(s) && CallbackRun(cfg, s, run)
    ensures |run| <= Work(s)
    decreases |run|
  {
    if run != [] {
      var s' := Apply(cfg, s, run[0]);
      CallbackStep(cfg, s, run[0], s');
      CallbacksEnd(cfg, s', run[1..]);
    }
  }
}
