/** The frontend as it runs: handlers that update a heap of connections and contexts. Every access requires its
    object to be live, so that the handlers verify only if nothing freed is used. */
module FrontendProcess {
  import opened Http
  import opened ServiceChain
  import Frontend

  class Process {
    const cfg: Config
    var next: nat
    var conns: set<nat>
    var contexts: map<nat, Context>
    var calls: map<nat, Frontend.Pending>
    ghost var state: Frontend.State

    ghost predicate Tracks()
      reads this
    {
      next == state.next && conns == state.conns && contexts == state.contexts && calls == state.calls && !state.fault
    }

    ghost predicate Valid()
      reads this
    {
      Tracks() && Frontend.Inv(state)
    }

    constructor (cfg: Config)
      ensures Valid() && this.cfg == cfg && state == Frontend.Init
    {
      this.cfg := cfg;
      next, conns, contexts, calls := 0, {}, map[], map[];
      state := Frontend.Init;
    }

    method Answer(client: nat, reply: Reply)
      requires Tracks() && client in conns
      modifies this
      ensures Tracks() && state == Frontend.Respond(old(state), client, reply)
    {
      conns := conns - {client};
      state := Frontend.Respond(state, client, reply);
    }

    method FreeContext(ctx: nat)
      requires Tracks() && ctx in contexts
      modifies this
      ensures Tracks() && state == Frontend.Free(old(state), ctx)
    {
      contexts := contexts - {ctx};
      state := Frontend.Free(state, ctx);
    }

    method NewContext(ctx: Context, ghost client: nat) returns (at: nat)
      requires Tracks()
      modifies this
      ensures Tracks() && at == old(next) && state == Frontend.Allocate(old(state), ctx, client)
    {
      at := next;
      next, contexts := next + 1, contexts[at := ctx];
      state := Frontend.Allocate(state, ctx, client);
    }

    method UpdateContext(at: nat, ctx: Context)
      requires Tracks() && at in contexts
      modifies this
      ensures Tracks() && state == Frontend.Store(old(state), at, ctx)
    {
      contexts := contexts[at := ctx];
      state := Frontend.Store(state, at, ctx);
    }

    method CallUpstream(client: nat, ctx: nat, ok: bool)
      requires Tracks() && client in conns
      modifies this
      ensures Tracks() && state == Frontend.StartCall(old(state), client, ctx, ok)
    {
      if ok {
        next, calls := next + 1, calls[next := Frontend.Pending(client, ctx)];
      }
      state := Frontend.StartCall(state, client, ctx, ok);
    }

    /** handle_request once it has decided what to do. */
    method Begin(action: Action, memory: bool, ok: bool)
      requires Tracks()
      modifies this
      ensures Tracks() && state == Frontend.Begin(old(state), action, memory, ok)
    {
      var client := next;
      next, conns := next + 1, conns + {client};
      state := state.(next := next, conns := conns, accepted := state.accepted + {client});
      match action {
        case Respond(reply) =>
          Answer(client, reply);
        case Upstream(ctx, url) =>
          if !memory {
            Answer(client, Frontend.ALLOC_FAILED);
          } else {
            var at := NewContext(ctx, client);
            CallUpstream(client, at, ok);
            if !ok {
              FreeContext(at);
              Answer(client, Frontend.UPSTREAM_FAILED);
            }
          }
      }
    }

    /** The client is answered and the context freed, in this order. */
    method Finish(client: nat, at: nat, reply: Reply)
      requires Tracks() && client in conns && at in contexts
      modifies this
      ensures Tracks() && state == Frontend.Free(Frontend.Respond(old(state), client, reply), at)
    {
      Answer(client, reply);
      FreeContext(at);
    }

    /** The context is updated and the next service called; if that fails, the client is answered. */
    method CallOn(client: nat, at: nat, ctx: Context, ok: bool)
      requires Tracks() && client in conns && at in contexts
      modifies this
      ensures Tracks()
      ensures var s := Frontend.StartCall(Frontend.Store(old(state), at, ctx), client, at, ok);
        state == if ok then s else Frontend.Free(Frontend.Respond(s, client, Frontend.UPSTREAM_FAILED), at)
    {
      UpdateContext(at, ctx);
      CallUpstream(client, at, ok);
      if !ok {
        Finish(client, at, Frontend.UPSTREAM_FAILED);
      }
    }

    /** handle_upstream_response once it has decided what to do. */
    method Proceed(call: nat, action: Action, ok: bool)
      requires Tracks() && call in calls && calls[call].client in conns && calls[call].ctx in contexts
      modifies this
      ensures Tracks() && state == Frontend.Proceed(old(state), call, action, ok)
    {
      var client, at := calls[call].client, calls[call].ctx;
      match action {
        case Respond(reply) =>
          Finish(client, at, reply);
        case Upstream(ctx, url) =>
          CallOn(client, at, ctx, ok);
      }
      calls := calls - {call};
      state := state.(calls := calls);
    }

    method OnClientRequest(r: Request, memory: bool, ok: bool)
      requires Valid()
      modifies this
      ensures Valid() && state == Frontend.HandleRequest(cfg, old(state), r, memory, ok)
    {
      Frontend.BeginKeeps(cfg, state, r, memory, ok);
      state := Frontend.Asking(state, r);
      Begin(OnRequest(cfg, r), memory, ok);
    }

    method OnUpstreamResponse(call: nat, resp: Response, ok: bool)
      requires Valid() && call in calls
      modifies this
      ensures Valid() && state == Frontend.HandleResponse(cfg, old(state), call, resp, ok)
    {
      Frontend.ProceedKeeps(cfg, state, call, resp, ok);
      assert Frontend.CallOwns(state, call, calls[call].client, calls[call].ctx);
      state := Frontend.Hear(state, calls[call].client, resp);
      Proceed(call, OnResponse(cfg, contexts[calls[call].ctx], resp), ok);
    }
  }
}
