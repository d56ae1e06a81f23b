/** What each client of the frontend is told, under every interleaving of requests and callbacks: what its own request
    and the responses to its own calls make due, whatever the other clients do. */
module FrontendAnswers {
  import opened Options
  import opened Http
  import opened ServiceChain
  import opened Frontend
  import ChainAnswers
  import ChainTheorem
  import JsonLoads

  /** The decisions that follow an action, one for each response until one of them answers. */
  function Follow(f: Callback, action: Action, heard: seq<Response>): Action
    decreases |heard|
  {
    if heard == [] || action.Respond? then action else Follow(f, f(action.ctx, heard[0]), heard[1..])
  }

  lemma {:induction false} FollowNext(f: Callback, action: Action, heard: seq<Response>, resp: Response)
    ensures var before := Follow(f, action, heard);
      Follow(f, action, heard + [resp]) == if before.Respond? then before else f(before.ctx, resp)
    decreases |heard|
  {
    if heard == [] || action.Respond? {
      assert action.Upstream? ==> (heard + [resp])[1..] == [];
    } else {
      assert (heard + [resp])[1..] == heard[1..] + [resp];
      FollowNext(f, f(action.ctx, heard[0]), heard[1..], resp);
    }
  }

  /** What is due to a client alone, by its request and the responses to its calls. */
  function Due(cfg: Config, r: Request, heard: seq<Response>): Action {
    Follow(OnResponses(cfg), OnRequest(cfg, r), heard)
  }

  /** The client has been told, once, what was due, or that memory or a call failed. */
  predicate Settled(cfg: Config, x: Exchange) {
    && |x.answers| == 1
    && var due := Due(cfg, x.asked, x.heard);
       if due.Respond? then x.answers[0] == due.reply
       else x.answers[0] == UPSTREAM_FAILED || (x.heard == [] && x.answers[0] == ALLOC_FAILED)
  }

  /** The client has been told nothing, and the context of its outstanding call is the one that is due. */
  ghost predicate Expecting(cfg: Config, s: State, client: nat)
    requires client in s.exchanges
  {
    var x := s.exchanges[client];
    var due := Due(cfg, x.asked, x.heard);
    && x.answers == []
    && client in s.last && s.last[client] in s.calls && s.calls[s.last[client]].client == client
    && s.calls[s.last[client]].ctx in s.contexts
    && due.Upstream? && due.ctx == s.contexts[s.calls[s.last[client]].ctx]
  }

  ghost predicate ToldOk(cfg: Config, s: State, client: nat) {
    client in s.exchanges && if client in s.conns then Expecting(cfg, s, client) else Settled(cfg, s.exchanges[client])
  }

  ghost predicate AllTold(cfg: Config, s: State) {
    forall client | client in s.accepted :: ToldOk(cfg, s, client)
  }

  // ----------------------------------------------------------------- every event keeps it

  /** Nothing of this client's has changed. */
  ghost predicate Untouched(s: State, s': State, client: nat) {
    && client in s.exchanges && client in s'.exchanges && s'.exchanges[client] == s.exchanges[client]
    && (client in s'.conns <==> client in s.conns)
    && (client in s.conns && client in s.last && s.last[client] in s.calls
        && s.calls[s.last[client]].ctx in s.contexts ==>
          && client in s'.last && s'.last[client] == s.last[client] && s'.last[client] in s'.calls
          && s'.calls[s.last[client]] == s.calls[s.last[client]]
          && s.calls[s.last[client]].ctx in s'.contexts
          && s'.contexts[s.calls[s.last[client]].ctx] == s.contexts[s.calls[s.last[client]].ctx])
  }

  lemma UntouchedToldOk(cfg: Config, s: State, s': State, client: nat)
    requires ToldOk(cfg, s, client) && Untouched(s, s', client)
    ensures ToldOk(cfg, s', client)
  {
  }

  lemma OpenedLeaves(s: State, r: Request, ctx: Context, other: nat)
    requires Inv(s) && other in s.accepted && other in s.exchanges
    ensures Untouched(s, Opened(Asking(s, r), ctx), other)
  {
  }

  lemma RefusedLeaves(s: State, r: Request, made: bool, reply: Reply, other: nat)
    requires Inv(s) && other in s.accepted && other in s.exchanges
    ensures Untouched(s, Refused(Asking(s, r), made, reply), other)
  {
  }

  /** Another client's call has another context. */
  lemma OtherContext(s: State, call: nat, other: nat)
    requires Inv(s) && call in s.calls && other in s.conns && other != s.calls[call].client
    ensures other in s.last && s.last[other] in s.calls && s.last[other] != call
    ensures s.calls[s.last[other]].ctx != s.calls[call].ctx
  {
    var k := s.last[other];
    assert s.calls[k].client == other;
    assert CallOwns(s, call, s.calls[call].client, s.calls[call].ctx);
    assert CallOwns(s, k, s.calls[k].client, s.calls[k].ctx);
  }

  lemma ReplacedLeaves(s: State, call: nat, resp: Response, ctx: Context, other: nat)
    requires Inv(s) && call in s.calls && other in s.exchanges && other != s.calls[call].client
    ensures Untouched(s, Replaced(Hear(s, s.calls[call].client, resp), call, ctx), other)
  {
    if other in s.conns { OtherContext(s, call, other); }
  }

  lemma ClosedLeaves(s: State, call: nat, resp: Response, reply: Reply, other: nat)
    requires Inv(s) && call in s.calls && other in s.exchanges && other != s.calls[call].client
    ensures Untouched(s, Closed(Hear(s, s.calls[call].client, resp), call, reply), other)
  {
    if other in s.conns { OtherContext(s, call, other); }
  }

  lemma OpenedTells(cfg: Config, s: State, r: Request)
    requires Inv(s) && OnRequest(cfg, r).Upstream?
    ensures ToldOk(cfg, Opened(Asking(s, r), OnRequest(cfg, r).ctx), s.next)
  {
  }

  lemma RefusedTells(cfg: Config, s: State, r: Request, memory: bool)
    requires Inv(s)
    ensures ToldOk(cfg, Refused(Asking(s, r), OnRequest(cfg, r).Upstream? && memory, AtOnce(OnRequest(cfg, r), memory)),
      s.next)
  {
    NewIsUnused(s);
  }

  lemma DueNext(cfg: Config, r: Request, heard: seq<Response>, resp: Response)
    ensures var before := Due(cfg, r, heard);
      Due(cfg, r, heard + [resp]) == if before.Respond? then before else OnResponse(cfg, before.ctx, resp)
  {
    FollowNext(OnResponses(cfg), OnRequest(cfg, r), heard, resp);
  }

  /** What the callback of a call finds. */
  lemma CalledContext(cfg: Config, s: State, call: nat)
    requires Inv(s) && AllTold(cfg, s) && call in s.calls
    ensures var client := s.calls[call].client;
      && client in s.accepted && client in s.conns && client in s.exchanges && s.last[client] == call
      && s.exchanges[client].answers == [] && s.calls[call].ctx in s.contexts
      && var due := Due(cfg, s.exchanges[client].asked, s.exchanges[client].heard);
         due.Upstream? && due.ctx == s.contexts[s.calls[call].ctx]
  {
    var client := s.calls[call].client;
    assert CallOwns(s, call, client, s.calls[call].ctx);
    assert ToldOk(cfg, s, client);
  }

  lemma ReplacedTells(cfg: Config, s: State, call: nat, resp: Response)
    requires Inv(s) && AllTold(cfg, s) && call in s.calls && s.calls[call].ctx in s.contexts
    requires OnResponse(cfg, s.contexts[s.calls[call].ctx], resp).Upstream?
    ensures ToldOk(cfg, Replaced(Hear(s, s.calls[call].client, resp), call,
      OnResponse(cfg, s.contexts[s.calls[call].ctx], resp).ctx), s.calls[call].client)
  {
    CalledContext(cfg, s, call);
    var x := s.exchanges[s.calls[call].client];
    DueNext(cfg, x.asked, x.heard, resp);
    assert call != s.next;
  }

  lemma ClosedTells(cfg: Config, s: State, call: nat, resp: Response)
    requires Inv(s) && AllTold(cfg, s) && call in s.calls && s.calls[call].ctx in s.contexts
    ensures ToldOk(cfg, Closed(Hear(s, s.calls[call].client, resp), call,
      AtOnce(OnResponse(cfg, s.contexts[s.calls[call].ctx], resp), true)), s.calls[call].client)
  {
    CalledContext(cfg, s, call);
    var x := s.exchanges[s.calls[call].client];
    DueNext(cfg, x.asked, x.heard, resp);
  }

  lemma BeginTells(cfg: Config, s: State, r: Request, memory: bool, ok: bool)
    requires Inv(s) && AllTold(cfg, s)
    ensures AllTold(cfg, HandleRequest(cfg, s, r, memory, ok))
  {
    var action, t, s' := OnRequest(cfg, r), Asking(s, r), HandleRequest(cfg, s, r, memory, ok);
    NewIsUnused(s);
    BeginIs(t, action, memory, ok);
    var calling := action.Upstream? && memory && ok;
    forall client | client in s'.accepted ensures ToldOk(cfg, s', client) {
      if client == s.next {
        if calling { OpenedTells(cfg, s, r); } else { RefusedTells(cfg, s, r, memory); }
      } else {
        assert ToldOk(cfg, s, client);
        if calling { OpenedLeaves(s, r, action.ctx, client); }
        else { RefusedLeaves(s, r, action.Upstream? && memory, AtOnce(action, memory), client); }
        UntouchedToldOk(cfg, s, s', client);
      }
    }
  }

  lemma ProceedTells(cfg: Config, s: State, call: nat, resp: Response, ok: bool)
    requires Inv(s) && AllTold(cfg, s) && call in s.calls
    ensures AllTold(cfg, HandleResponse(cfg, s, call, resp, ok))
  {
    ContextLives(s, call);
    var client, ctx := s.calls[call].client, s.contexts[s.calls[call].ctx];
    var action, t, s' := OnResponse(cfg, ctx, resp), Hear(s, client, resp), HandleResponse(cfg, s, call, resp, ok);
    ExchangesAreHistory(s, t.exchanges);
    ProceedIs(t, call, action, ok);
    var replaced := action.Upstream? && ok;
    assert s'.accepted == s.accepted;
    forall other | other in s'.accepted ensures ToldOk(cfg, s', other) {
      if other == client {
        if replaced { ReplacedTells(cfg, s, call, resp); } else { ClosedTells(cfg, s, call, resp); }
      } else {
        assert ToldOk(cfg, s, other);
        if replaced { ReplacedLeaves(s, call, resp, action.ctx, other); }
        else { ClosedLeaves(s, call, resp, AtOnce(action, true), other); }
        UntouchedToldOk(cfg, s, s', other);
      }
    }
  }

  lemma {:induction false} RunTells(cfg: Config, s: State, run: seq<Event>)
    requires Inv(s) && AllTold(cfg, s) && Legal(cfg, s, run)
    ensures AllTold(cfg, After(cfg, s, run))
    decreases |run|
  {
    if run != [] {
      EventKeeps(cfg, s, run[0]);
      match run[0] {
        case Accept(r, memory, ok) => BeginTells(cfg, s, r, memory, ok);
        case Callback(call, resp, ok) => ProceedTells(cfg, s, call, resp, ok);
      }
      RunTells(cfg, Apply(cfg, s, run[0]), run[1..]);
    }
  }

  // ----------------------------------------------------------------- failures

  lemma AllocPrinted(message: string)
    requires message == "alloc failed"
    ensures JsonLoads.AllLiteral(message) && ALLOC_FAILED.body + "}" == ChainAnswers.ErrorBody(message)
  {
  }

  lemma UpstreamPrinted(message: string)
    requires message == "upstream failed"
    ensures JsonLoads.AllLiteral(message) && UPSTREAM_FAILED.body + "}" == ChainAnswers.ErrorBody(message)
  {
  }

  /** Neither message is JSON: the length given for it is one short. */
  lemma FailureTexts()
    ensures ChainAnswers.TellsCut(ALLOC_FAILED, 500, "alloc failed")
    ensures ChainAnswers.TellsCut(UPSTREAM_FAILED, 502, "upstream failed")
  {
    AllocPrinted("alloc failed");
    ChainAnswers.CutIsTold(ALLOC_FAILED.body, 500, "alloc failed");
    UpstreamPrinted("upstream failed");
    ChainAnswers.CutIsTold(UPSTREAM_FAILED.body, 502, "upstream failed");
  }

  /** A request that gets no context is answered with 500, one whose first call cannot be started with 502. */
  lemma FailuresAreTold(cfg: Config, s: State, r: Request, memory: bool, ok: bool)
    requires Inv(s) && OnRequest(cfg, r).Upstream? && !(memory && ok)
    ensures var s' := HandleRequest(cfg, s, r, memory, ok);
      s.next in s'.exchanges && s'.exchanges[s.next].answers == [if !memory then ALLOC_FAILED else UPSTREAM_FAILED]
  {
    NewIsUnused(s);
    BeginIs(Asking(s, r), OnRequest(cfg, r), memory, ok);
  }

  // ----------------------------------------------------------------- the theorems

  /** Under every interleaving: a client whose calls are done has been told once, and what its own request and the
      responses to its own calls make due, or that memory or a call failed. One that still waits has been told
      nothing. */
  lemma EachIsToldItsOwn(cfg: Config, s: State, client: nat)
    requires Reached(cfg, s) && client in s.accepted
    ensures client in s.exchanges
    ensures if Waits(s, client) then s.exchanges[client].answers == [] else Settled(cfg, s.exchanges[client])
  {
    var run :| Legal(cfg, Init, run) && s == After(cfg, Init, run);
    RunTells(cfg, Init, run);
    ReachedInv(cfg, s);
    assert ToldOk(cfg, s, client);
    if k :| k in s.calls && s.calls[k].client == client { assert CallOwns(s, k, client, s.calls[k].ctx); }
  }

  /** The responses that were heard are those of these callers to the calls that were due. */
  ghost predicate HeardAlong(f: Callback, action: Action, heard: seq<Response>, calls: seq<Caller>)
    decreases |heard|
  {
    heard == [] ||
    (&& action.Upstream? && calls != [] && calls[0](action.url) == Some(heard[0])
     && HeardAlong(f, f(action.ctx, heard[0]), heard[1..], calls[1..]))
  }

  lemma {:induction false} DrivenAlong(f: Callback, action: Action, heard: seq<Response>, calls: seq<Caller>)
    requires HeardAlong(f, action, heard, calls) && Follow(f, action, heard).Respond?
    ensures Drive(action, f, calls) == Some(Follow(f, action, heard).reply)
    decreases |heard|
  {
    if heard != [] {
      ChainTheorem.DriveStep(action.ctx, action.url, f, calls, heard[0]);
      DrivenAlong(f, f(action.ctx, heard[0]), heard[1..], calls[1..]);
    }
  }

  /** The responses a client heard are what the services answer to the calls that were due to it. */
  ghost predicate HeardServices(cfg: Config, ids: Store, attendance: Store, x: Exchange, first: Names, second: Names) {
    HeardAlong(OnResponses(cfg), OnRequest(cfg, x.asked), x.heard, Calls(cfg, ids, attendance, first, second))
  }

  /** ... so a client that was told what was due was told what it would be told alone. */
  lemma ToldAsAlone(cfg: Config, ids: Store, attendance: Store, x: Exchange, first: Names, second: Names)
    requires Settled(cfg, x) && Due(cfg, x.asked, x.heard).Respond?
    requires HeardServices(cfg, ids, attendance, x, first, second)
    ensures Serve(cfg, ids, attendance, x.asked, first, second) == Some(x.answers[0])
  {
    DrivenAlong(OnResponses(cfg), OnRequest(cfg, x.asked), x.heard, Calls(cfg, ids, attendance, first, second));
  }

  /** Under every interleaving of any number of clients: a client that asked for a plain name, and whose calls were
      answered by the services, has been told the composition of the two lookups for its own name, unless memory or a
      call failed. */
  lemma EachIsToldTheComposition(cfg: Config, ids: Store, attendance: Store, s: State, client: nat, name: string,
      first: Names, second: Names)
    requires Reached(cfg, s) && client in s.accepted && !Waits(s, client) && client in s.exchanges
    requires ChainTheorem.Looks(s.exchanges[client].asked, name)
    requires PlainConfig(cfg) && PlainNames(first) && PlainNames(second) && ChainAnswers.InRange(ids)
    requires HeardServices(cfg, ids, attendance, s.exchanges[client], first, second)
    ensures var x := s.exchanges[client];
      && |x.answers| == 1
      && if Due(cfg, x.asked, x.heard).Respond? then ChainTheorem.Composition(x.answers[0], ids, attendance, name)
         else x.answers[0] in {ALLOC_FAILED, UPSTREAM_FAILED}
  {
    EachIsToldItsOwn(cfg, s, client);
    var x := s.exchanges[client];
    if Due(cfg, x.asked, x.heard).Respond? {
      ToldAsAlone(cfg, ids, attendance, x, first, second);
      ChainTheorem.ChainIsComposition(cfg, ids, attendance, x.asked, name, first, second);
    }
  }
}
