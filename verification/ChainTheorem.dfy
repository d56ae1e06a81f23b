/** The chain of services computes the composition of the two stores. */
module ChainTheorem {
  import opened Options
  import opened Text
  import opened HeaderJson
  import opened Http
  import opened HttpRoundTrip
  import opened ServiceChain
  import opened ChainAnswers
  import JsonLoads
  import JsonUtil

  // ----------------------------------------------------------------- what fits where

  const ENTRY_MAX: nat := 300

  predicate ShortEntry(e: Entry) {
    |e.key| + |e.value| + |e.sep| + 8 <= ENTRY_MAX
  }

  lemma {:induction false} EntriesBound(entries: seq<Entry>, rest: string)
    requires forall i | 0 <= i < |entries| :: ShortEntry(entries[i])
    ensures |PrintEntries(entries, rest)| <= ENTRY_MAX * |entries| + |rest|
  {
    if entries != [] {
      EntriesBound(entries[1..], rest);
      assert ShortEntry(entries[0]);
    }
  }

  predicate ShortHeader(h: Header) {
    && |h.method_| <= 255 && |h.url| <= 255 && |h.path| <= 255 && |h.query| <= 255
    && |h.reqId| <= 127 && |h.source| <= 127 && |h.dest| <= 127
    && -INT_LIMIT <= h.status < INT_LIMIT
  }

  /** Headers built from URLs of at most 255 characters fit the writer's buffer. */
  lemma HeaderFits(h: Header)
    requires ShortHeader(h)
    ensures |Serialize(h, "")| < HEADER_SIZE && WireHeader(h) == Serialize(h, "")
  {
    var entries := HeaderEntries(h, "", "}");
    ShortInt(h.status);
    assert ShortEntry(entries[6]);
    assert forall i | 0 <= i < |entries| :: ShortEntry(entries[i]);
    EntriesBound(entries, "");
  }

  lemma {:induction false} LinesBound(lines: seq<string>, rest: string)
    requires forall i | 0 <= i < |lines| :: |lines[i]| <= 1000
    ensures |PrintLines(lines, rest)| <= 1002 * |lines| + |rest|
  {
    if lines != [] { LinesBound(lines[1..], rest); }
  }

  lemma {:induction false} UpToNulBound(body: string, n: nat)
    ensures |TakeUntil(body, NUL, n)| <= |body|
  {
    if body != "" && n > 0 { UpToNulBound(body[1..], n - 1); }
  }

  /** A message with a few short lines fits the connection buffer. */
  lemma MessageFits(before: seq<string>, body: string)
    requires |before| <= 2 && (forall i | 0 <= i < |before| :: |before[i]| <= 1000) && |body| <= BODY_MAX
    ensures |Message(before, |body|, [], UpToNul(body))| <= BUFFER_MAX
  {
    var lines := before + ([LengthLine(|body|)] + []);
    ShortInt(|body|);
    UpToNulBound(body, |body|);
    assert lines[|before|] == LengthLine(|body|);
    assert forall i | 0 <= i < |before| :: lines[i] == before[i];
    LinesBound(lines, EOL + UpToNul(body));
  }

  lemma RequestFits(path: string, query: string)
    requires |path| <= 255 && |query| <= 255
    ensures |PrintRequest("GET", path, query, "")| <= BUFFER_MAX
  {
    MessageFits([FirstLine("GET", path, query), "Host: dpumesh"], "");
  }

  lemma ResponseFits(status: int, body: string)
    requires -INT_LIMIT <= status < INT_LIMIT && |body| <= BODY_MAX
    ensures |PrintUpstream(status, body)| <= BUFFER_MAX
  {
    ShortInt(status);
    MessageFits([StatusLine(status, "OK")], body);
  }

  // ----------------------------------------------------------------- one call

  /** A path and query that pass through URL, header and request line. */
  predicate PlainTarget(path: string, query: string) {
    path != "" && path[0] == '/' && PlainName(path) && Without(path, '?') && PlainName(query)
  }

  /** What stands behind the host: path and query, a path alone, or nothing, which is the path `/`. */
  predicate Spells(target: string, path: string, query: string) {
    || target == path + (['?'] + query)
    || (target == path && query == "")
    || (target == "" && path == "/" && query == "")
  }

  lemma TargetSpelled(target: string, path: string, query: string)
    requires Spells(target, path, query) && PlainTarget(path, query) && |path| <= 255 && |query| <= 511
    ensures target == "" || target[0] == '/'
    ensures SplitTarget(if target == "" then "/" else target) == Target(path, query)
    ensures JsonLoads.AllLiteral(target)
  {
    PlainIsLiteral(path);
    PlainIsLiteral(query);
    if target == path + (['?'] + query) {
      TargetSplit(path, query);
      LiteralConcat(['?'], query);
      LiteralConcat(path, ['?'] + query);
    } else {
      TargetUnsplit(path);
    }
  }

  lemma TargetWellFormed(path: string, query: string)
    requires PlainTarget(path, query) && |path| <= 255 && |query| <= 511
    ensures WellFormed("GET", path, query) && Without(path, QUOTE) && Without(query, QUOTE)
  {
    PlainWithout(path, QUOTE);
    PlainWithout(query, QUOTE);
    assert NoStops("GET", [' ', CR, LF]);
  }

  lemma PlainIsLiteral(s: string)
    requires PlainName(s)
    ensures JsonLoads.AllLiteral(s) && Without(s, QUOTE)
  {
  }

  lemma UrlPlain(service: string, namespace: string, target: string, path: string, query: string)
    requires PlainHost(service) && PlainHost(namespace) && PlainTarget(path, query) && Spells(target, path, query)
    requires UrlFits(service, namespace, target)
    ensures JsonLoads.AllLiteral(Url(service, namespace, target))
    ensures Without(Url(service, namespace, target), QUOTE)
    ensures |path| <= 255 && |query| <= 255
  {
    UrlShape(service, namespace, target);
    TargetSpelled(target, path, query);
    HostLiteral(service, namespace);
    assert JsonLoads.AllLiteral("http") && JsonLoads.AllLiteral("://");
    LiteralConcat(Host(service, namespace), target);
    LiteralConcat("://", Host(service, namespace) + target);
    LiteralConcat("http", "://" + (Host(service, namespace) + target));
  }

  lemma LiteralConcat(a: string, b: string)
    requires JsonLoads.AllLiteral(a) && JsonLoads.AllLiteral(b)
    ensures JsonLoads.AllLiteral(a + b) && Without(a + b, QUOTE)
  {
  }

  lemma HostLiteral(service: string, namespace: string)
    requires PlainHost(service) && PlainHost(namespace)
    ensures JsonLoads.AllLiteral(Host(service, namespace))
  {
    assert JsonLoads.AllLiteral(service) && JsonLoads.AllLiteral(namespace);
    assert JsonLoads.AllLiteral(".svc.cluster.local");
    LiteralConcat(namespace, ".svc.cluster.local");
    LiteralConcat(['.'], namespace + ".svc.cluster.local");
    LiteralConcat(service, ['.'] + (namespace + ".svc.cluster.local"));
  }

  /** The header that a call puts on the wire. */
  lemma CallHeader(service: string, namespace: string, target: string, path: string, query: string, names: Names)
    requires PlainHost(service) && PlainHost(namespace) && PlainTarget(path, query) && Spells(target, path, query)
    requires PlainNames(names) && UrlFits(service, namespace, target)
    ensures var url := Url(service, namespace, target);
      var h := RequestHeader(url, names);
      && h == Header("GET", url, path, query, 0, names.reqId, names.caller, "")
      && PlainHeader(h) && ShortHeader(h) && JsonLoads.LiteralHeader(h)
  {
    UrlPlain(service, namespace, target, path, query);
    TargetSpelled(target, path, query);
    TargetFound(service, namespace, target);
    PlainIsLiteral(path);
    PlainIsLiteral(query);
    PlainIsLiteral(names.reqId);
    PlainIsLiteral(names.caller);
  }

  /** The called handler sees exactly the method, path and query the caller put into the URL; no query if the URL has
      none, and the path `/` if it ends behind the host. */
  lemma RequestArrives(service: string, namespace: string, target: string, path: string, query: string, names: Names)
    requires PlainHost(service) && PlainHost(namespace) && PlainTarget(path, query) && Spells(target, path, query)
    requires PlainNames(names) && UrlFits(service, namespace, target)
    ensures Received(Url(service, namespace, target), names) == Done(Request(Line("GET", path, query), 0, ""))
  {
    var url := Url(service, namespace, target);
    UrlPlain(service, namespace, target, path, query);
    CallHeader(service, namespace, target, path, query, names);
    HeaderArrives(RequestHeader(url, names));
    TargetWellFormed(path, query);
    RequestFits(path, query);
    RequestThroughTheWire("GET", path, query, "");
  }

  /** The sidecar, which reads the header as JSON, routes the call to the service it was meant for. */
  lemma CallRouted(service: string, namespace: string, target: string, path: string, query: string, names: Names)
    requires PlainHost(service) && Without(service, '.') && PlainHost(namespace) && PlainTarget(path, query)
    requires Spells(target, path, query) && PlainNames(names) && UrlFits(service, namespace, target)
    ensures RoutedTo(Url(service, namespace, target), names) == service
  {
    CallHeader(service, namespace, target, path, query, names);
    HeaderLoaded(RequestHeader(Url(service, namespace, target), names));
    UrlPlain(service, namespace, target, path, query);
    TargetSpelled(target, path, query);
    RoutedByName(service, namespace, target);
  }

  lemma HeaderLoaded(h: Header)
    requires ShortHeader(h) && JsonLoads.LiteralHeader(h)
    ensures Loaded(WireHeader(h), "url") == h.url && Loaded(WireHeader(h), "dest_worker") == h.dest
  {
    HeaderFits(h);
    JsonLoads.HeaderLoads(h);
    JsonLoads.RoutingFields(h);
  }

  lemma HeaderArrives(h: Header)
    requires PlainHeader(h) && ShortHeader(h) && |h.method_| <= 15
    ensures var json := WireHeader(h);
      && Field(json, "method", 16) == h.method_ && Field(json, "path", 256) == h.path
      && Field(json, "query_string", 512) == h.query && GetInt(json, "status_code") == h.status
  {
    HeaderFits(h);
    HeaderRoundTrip(h, HEADER_SIZE, 16);
    HeaderRoundTrip(h, HEADER_SIZE, 256);
    HeaderRoundTrip(h, HEADER_SIZE, 512);
    StatusRoundTrip(h, HEADER_SIZE);
  }

  predicate PlainReply(r: Reply) {
    0 < r.status < INT_LIMIT && 0 < |r.body| <= BODY_MAX && Without(r.body, NUL)
  }

  /** The called worker reads from the header who called and under which id. */
  lemma OriginRead(h: Header)
    requires PlainHeader(h) && ShortHeader(h)
    ensures OriginOf(WireHeader(h)) == Origin(Prefix(h.reqId, 63), h.source)
  {
    HeaderFits(h);
    HeaderRoundTrip(h, HEADER_SIZE, 64);
    HeaderRoundTrip(h, HEADER_SIZE, 128);
  }

  predicate PlainOrigin(o: Origin) {
    PlainName(o.reqId) && PlainName(o.source) && |o.reqId| <= 127 && |o.source| <= 127
  }

  lemma AnswerHeader(status: int, origin: Origin, callee: string)
    requires -INT_LIMIT <= status < INT_LIMIT && PlainOrigin(origin) && PlainName(callee) && |callee| <= 127
    ensures var h := ResponseHeader(status, origin, callee);
      PlainHeader(h) && ShortHeader(h) && JsonLoads.LiteralHeader(h)
  {
    PlainIsLiteral(origin.reqId);
    PlainIsLiteral(origin.source);
    PlainIsLiteral(callee);
  }

  /** What the called worker keeps of a call. */
  lemma CallOrigin(service: string, namespace: string, target: string, path: string, query: string, names: Names)
    requires PlainHost(service) && PlainHost(namespace) && PlainTarget(path, query) && Spells(target, path, query)
    requires PlainNames(names) && UrlFits(service, namespace, target)
    ensures var origin := OriginOf(WireHeader(RequestHeader(Url(service, namespace, target), names)));
      origin == Origin(Prefix(names.reqId, 63), names.caller) && PlainOrigin(origin)
  {
    CallHeader(service, namespace, target, path, query, names);
    OriginRead(RequestHeader(Url(service, namespace, target), names));
  }

  /** The answer is routed back to the worker that called. */
  lemma AnswerRouted(reply: Reply, origin: Origin, names: Names)
    requires -INT_LIMIT <= reply.status < INT_LIMIT && PlainNames(names) && PlainOrigin(origin)
    ensures RoutedBack(reply, origin, names) <==> origin.source == names.caller
  {
    AnswerHeader(reply.status, origin, names.callee);
    HeaderLoaded(ResponseHeader(reply.status, origin, names.callee));
  }

  /** The caller's handler sees exactly the status and body the callee answered with. */
  lemma ReplyReturns(reply: Reply, origin: Origin, callee: string)
    requires PlainReply(reply) && PlainOrigin(origin) && PlainName(callee) && |callee| <= 127
    ensures Returned(reply, origin, callee) == Done(Response(reply.status, |reply.body|, reply.body))
  {
    AnswerHeader(reply.status, origin, callee);
    HeaderArrives(ResponseHeader(reply.status, origin, callee));
    ResponseFits(reply.status, reply.body);
    ResponseThroughTheWire(reply.status, reply.body);
  }

  /** A status that is not positive arrives as 200. */
  lemma NoStatusReturns(status: int, body: string, origin: Origin, callee: string)
    requires -INT_LIMIT <= status <= 0 && PlainReply(Reply(200, body))
    requires PlainOrigin(origin) && PlainName(callee) && |callee| <= 127
    ensures Returned(Reply(status, body), origin, callee) == Done(Response(200, |body|, body))
  {
    AnswerHeader(status, origin, callee);
    HeaderArrives(ResponseHeader(status, origin, callee));
    ResponseFits(200, body);
    ResponseThroughTheWire(200, body);
  }

  // ----------------------------------------------------------------- the two services

  lemma ParameterRead(key: string, value: string, outSize: nat)
    requires Without(value, '&') && |value| < outSize
    ensures JsonUtil.QueryGet(key + ("=" + value), key, outSize) == Some(value)
  {
    var qs := key + ("=" + value);
    assert qs == key + "=" + value;
    assert key + "=" <= qs && qs[|key| + 1..] == value;
    TakeUntilStops(value, "", '&', outSize - 1);
    assert value + "" == value;
  }

  /** A call to a service comes back with what the service answers. */
  lemma CallAnswered(cfg: Config, ids: Store, attendance: Store, service: string, target: string, path: string,
      query: string, names: Names, reply: Reply)
    requires PlainConfig(cfg) && PlainNames(names) && PlainTarget(path, query) && Spells(target, path, query)
    requires service == cfg.idService || service == cfg.attendService
    requires UrlFits(service, cfg.namespace, target)
    requires var r := Request(Line("GET", path, query), 0, "");
      reply == if service == cfg.idService then IdService(ids, r) else AttendService(attendance, r)
    requires PlainReply(reply)
    ensures Call(cfg, ids, attendance, Url(service, cfg.namespace, target), names)
         == Some(Response(reply.status, |reply.body|, reply.body))
  {
    CallRouted(service, cfg.namespace, target, path, query, names);
    RequestArrives(service, cfg.namespace, target, path, query, names);
    CallOrigin(service, cfg.namespace, target, path, query, names);
    var origin := OriginOf(WireHeader(RequestHeader(Url(service, cfg.namespace, target), names)));
    ReplyReturns(reply, origin, names.callee);
    AnswerRouted(reply, origin, names);
  }

  lemma ErrorBodies()
    ensures PlainReply(Reply(404, NAME_NOT_FOUND)) && PlainReply(Reply(404, ID_NOT_FOUND))
  {
  }

  lemma PrintedWithout(n: int, c: char)
    requires !IsDigit(c) && c != '-'
    ensures Without(PrintInt(n), c)
  {
    PrintedIsPlain(n);
  }

  lemma IdBodyPlain(id: int)
    requires -INT_LIMIT <= id < INT_LIMIT
    ensures Prefix(IdBody(id), 127) == IdBody(id) && PlainReply(Reply(200, IdBody(id)))
  {
    ShortInt(id);
    PrintedWithout(id, NUL);
    assert Without("{\"id\":", NUL) && Without("}", NUL);
    WithoutConcat(PrintInt(id), "}", NUL);
    WithoutConcat("{\"id\":", PrintInt(id) + "}", NUL);
  }

  lemma AttendBodyPlain(b: bool)
    ensures Prefix(AttendBody(b), 127) == AttendBody(b) && PlainReply(Reply(200, AttendBody(b)))
  {
    assert Without("{\"attended\":", NUL) && Without(TruthText(b), NUL) && Without("}", NUL);
  }

  lemma IdFound(id: int)
    requires -INT_LIMIT <= id < INT_LIMIT
    ensures After(IdBody(id), Pattern("id")) == Some(PrintInt(id) + "}") && Atoi(PrintInt(id) + "}") == id
  {
    var rest := PrintInt(id) + "}";
    IdBodySplit(rest, Pattern("id"));
    FoundBehind("{", Pattern("id"), rest);
    IntRoundTrip(id, "}");
    AtoiOf(rest, id);
  }

  lemma IdBodySplit(rest: string, pat: string)
    requires pat == Pattern("id")
    ensures "{\"id\":" + rest == "{" + (pat + rest) && pat != "" && Without("{", pat[0])
  {
  }

  lemma FoundBehind(a: string, pat: string, rest: string)
    requires pat != "" && Without(a, pat[0])
    ensures After(a + (pat + rest), pat) == Some(rest)
  {
    AfterSkips(a, pat + rest, pat);
    assert pat <= pat + rest && (pat + rest)[|pat|..] == rest;
  }

  /** A pattern does not begin in text whose every character rules out its first or the next its second. */
  lemma {:induction false} AfterPasses(a: string, rest: string, pat: string)
    requires |pat| >= 2
    requires forall i | 0 <= i < |a| :: a[i] != pat[0] || (i + 1 < |a| && a[i + 1] != pat[1])
    ensures After(a + rest, pat) == After(rest, pat)
  {
    if a == "" {
      assert a + rest == rest;
    } else {
      ConsTail(a, rest);
      AfterPasses(a[1..], rest, pat);
      if |a + rest| < |pat| {
        TooShort(rest, pat);
      } else if |a| > 1 {
        assert (a + rest)[1] == a[1];
      }
    }
  }

  lemma NoTruthInKey()
    ensures var a := "{\"attended\":"; forall i | 0 <= i < |a| :: a[i] != 't' || (i + 1 < |a| && a[i + 1] != 'r')
  {
  }

  lemma TruthFound(b: bool)
    ensures After(AttendBody(b), "true").Some? <==> b
  {
    NoTruthInKey();
    AfterPasses("{\"attended\":", TruthText(b) + "}", "true");
    if b {
      assert "true" <= TruthText(b) + "}";
    } else {
      AfterSkips("false}", "", "true");
      assert TruthText(b) + "}" == "false}" + "";
    }
  }

  // ----------------------------------------------------------------- the chain

  lemma IdTarget(cfg: Config, name: string)
    requires PlainConfig(cfg) && PlainName(name) && |name| < 64
    ensures var query := "name" + ("=" + name);
      && IdUrl(cfg, name) == Url(cfg.idService, cfg.namespace, "/id" + (['?'] + query))
      && UrlFits(cfg.idService, cfg.namespace, "/id" + (['?'] + query))
      && PlainTarget("/id", query)
  {
    var query := "name" + ("=" + name);
    assert "/id?name=" + name == "/id" + (['?'] + query);
    assert PlainName("/id") && PlainName("name=") && query == "name=" + name;
  }

  lemma AttendTarget(cfg: Config, id: int)
    requires PlainConfig(cfg) && -INT_LIMIT <= id < INT_LIMIT
    ensures var query := "id" + ("=" + PrintInt(id));
      && AttendUrl(cfg, id) == Url(cfg.attendService, cfg.namespace, "/attend" + (['?'] + query))
      && UrlFits(cfg.attendService, cfg.namespace, "/attend" + (['?'] + query))
      && PlainTarget("/attend", query)
  {
    var key := PrintInt(id);
    var query := "id" + ("=" + key);
    ShortInt(id);
    PrintedIsPlain(id);
    assert "/attend?id=" + key == "/attend" + (['?'] + query);
    assert PlainName("/attend") && PlainName("id=") && query == "id=" + key && PlainName(key);
  }

  lemma IdServiceAnswers(ids: Store, name: string)
    requires InRange(ids) && PlainName(name) && |name| < 64
    ensures var reply := IdService(ids, Request(Line("GET", "/id", "name" + ("=" + name)), 0, ""));
      var id := JsonUtil.Get(ids, name);
      PlainReply(reply) && reply == if id.None? then Reply(404, NAME_NOT_FOUND) else Reply(200, IdBody(id.value))
  {
    PlainWithout(name, '&');
    ParameterRead("name", name, 64);
    ErrorBodies();
    var id := JsonUtil.Get(ids, name);
    if id.Some? {
      GetInRange(ids, name);
      IdBodyPlain(id.value);
    }
  }

  lemma AttendServiceAnswers(attendance: Store, id: int)
    requires -INT_LIMIT <= id < INT_LIMIT
    ensures var reply := AttendService(attendance, Request(Line("GET", "/attend", "id" + ("=" + PrintInt(id))), 0, ""));
      var a := JsonUtil.Get(attendance, PrintInt(id));
      PlainReply(reply) && reply == if a.None? then Reply(404, ID_NOT_FOUND) else Reply(200, AttendBody(a.value != 0))
  {
    ShortInt(id);
    PrintedWithout(id, '&');
    ParameterRead("id", PrintInt(id), 32);
    ErrorBodies();
    var a := JsonUtil.Get(attendance, PrintInt(id));
    if a.Some? { AttendBodyPlain(a.value != 0); }
  }

  lemma IdCall(cfg: Config, ids: Store, attendance: Store, name: string, names: Names)
    requires PlainConfig(cfg) && PlainNames(names) && InRange(ids) && PlainName(name) && |name| < 64
    ensures var id := JsonUtil.Get(ids, name);
      var body := if id.None? then NAME_NOT_FOUND else IdBody(id.value);
      Call(cfg, ids, attendance, IdUrl(cfg, name), names) == Some(Response(if id.None? then 404 else 200, |body|, body))
  {
    var query := "name" + ("=" + name);
    IdTarget(cfg, name);
    IdServiceAnswers(ids, name);
    CallAnswered(cfg, ids, attendance, cfg.idService, "/id" + (['?'] + query), "/id", query, names,
      IdService(ids, Request(Line("GET", "/id", query), 0, "")));
  }

  lemma AttendCall(cfg: Config, ids: Store, attendance: Store, id: int, names: Names)
    requires PlainConfig(cfg) && PlainNames(names) && -INT_LIMIT <= id < INT_LIMIT
    ensures var a := JsonUtil.Get(attendance, PrintInt(id));
      var body := if a.None? then ID_NOT_FOUND else AttendBody(a.value != 0);
      Call(cfg, ids, attendance, AttendUrl(cfg, id),
        names) == Some(Response(if a.None? then 404 else 200, |body|, body))
  {
    var query := "id" + ("=" + PrintInt(id));
    AttendTarget(cfg, id);
    AttendServiceAnswers(attendance, id);
    CallAnswered(cfg, ids, attendance, cfg.attendService, "/attend" + (['?'] + query), "/attend", query, names,
      AttendService(attendance, Request(Line("GET", "/attend", query), 0, "")));
  }

  /** A call without a query: the service answers that the name is missing. */
  lemma NamelessCall(cfg: Config, ids: Store, attendance: Store, names: Names)
    requires PlainConfig(cfg) && PlainNames(names)
    ensures Call(cfg, ids, attendance, Url(cfg.idService, cfg.namespace, "/id"), names) ==
      Some(Response(400, |MISSING_NAME|, MISSING_NAME))
  {
    assert PlainName("/id") && PlainTarget("/id", "") && Spells("/id", "/id", "");
    NoParameter("name", 64);
    MissingNamePlain();
    CallAnswered(cfg, ids, attendance, cfg.idService, "/id", "/id", "", names, Reply(400, MISSING_NAME));
  }

  lemma NoParameter(key: string, outSize: nat)
    requires outSize >= 1
    ensures JsonUtil.QueryGet("", key, outSize) == None
  {
  }

  lemma MissingNamePlain()
    ensures PlainReply(Reply(400, MISSING_NAME))
  {
  }

  /** What the chain is for: the composition of two lookups, told to the client as JSON. */
  predicate Composition(reply: Reply, ids: Store, attendance: Store, name: string) {
    match JsonUtil.Get(ids, name)
    case None => Tells(reply, Told(404, map["error" := JsonLoads.JsonText("name not found")]))
    case Some(id) =>
      match JsonUtil.Get(attendance, PrintInt(id))
      case None => TellsCut(reply, 404, "id not found")
      case Some(a) => Tells(reply, Told(200, FinalFields(name, id, a != 0)))
  }

  /** The answer as it is printed. */
  function Printed(name: string, id: Option<int>, a: Option<int>): Reply {
    if id.None? then Reply(404, NAME_NOT_FOUND)
    else if a.None? then Reply(404, ID_NOT_FOUND)
    else Reply(200, FinalBody(name, id.value, a.value != 0))
  }

  lemma PrintedIsComposition(ids: Store, attendance: Store, name: string)
    requires PlainName(name)
    ensures var id := JsonUtil.Get(ids, name);
      var a := if id.None? then None else JsonUtil.Get(attendance, PrintInt(id.value));
      Composition(Printed(name, id, a), ids, attendance, name)
  {
    var id := JsonUtil.Get(ids, name);
    if id.None? {
      NameNotFoundIsWhole(404);
    } else {
      var a := JsonUtil.Get(attendance, PrintInt(id.value));
      if a.None? { IdNotFoundIsCut(404); }
      else {
        PlainIsLiteral(name);
        FinalBodyRead(name, id.value, a.value != 0);
      }
    }
  }

  /** The three decisions along the chain. */
  lemma Decisions(cfg: Config, name: string, id: int, attended: bool, n: nat)
    requires |name| < 64 && -INT_LIMIT <= id < INT_LIMIT
    ensures OnResponse(cfg, Context(WaitingId, name, 0), Response(200, n, IdBody(id)))
         == Upstream(Context(WaitingAttend, name, id), AttendUrl(cfg, id))
    ensures OnResponse(cfg, Context(WaitingAttend, name, id), Response(200, n, AttendBody(attended)))
         == Respond(Reply(200, FinalBody(name, id, attended)))
  {
    IdFound(id);
    TruthFound(attended);
    FinalFits(name, id, attended);
  }

  lemma ErrorPassedOn(cfg: Config, ctx: Context, status: int, n: nat, body: string)
    requires status != 200
    ensures OnResponse(cfg, ctx, Response(status, n, body)) == Respond(Reply(status, body))
  {
  }

  lemma DriveStep(ctx: Context, url: string, onResponse: Callback, calls: seq<Caller>, resp: Response)
    requires calls != [] && calls[0](url) == Some(resp)
    ensures Drive(Upstream(ctx, url), onResponse, calls) == Drive(onResponse(ctx, resp), onResponse, calls[1..])
  {
  }

  /** The request looks up a plain name. */
  predicate Looks(r: Request, name: string) {
    && r.line.method_ == "GET" && r.line.path == "/lookup"
    && JsonUtil.QueryGet(r.line.query, "name", 64) == Some(name) && PlainName(name) && |name| < 64
  }

  /** For every pair of stores and every plain name: the client reads from the frontend's answer the composition of the
      two lookups, through URLs, headers, HTTP text, decimal numbers and JSON. */
  lemma ChainIsComposition(cfg: Config, ids: Store, attendance: Store, r: Request, name: string, first: Names,
      second: Names)
    requires PlainConfig(cfg) && PlainNames(first) && PlainNames(second) && InRange(ids)
    requires Looks(r, name)
    ensures var reply := Serve(cfg, ids, attendance, r, first, second);
      reply.Some? && Composition(reply.value, ids, attendance, name)
  {
    PrintedIsComposition(ids, attendance, name);
    var onResponse, calls := OnResponses(cfg), Calls(cfg, ids, attendance, first, second);
    IdCall(cfg, ids, attendance, name, first);
    var id := JsonUtil.Get(ids, name);
    if id.Some? {
      GetInRange(ids, name);
      AttendCall(cfg, ids, attendance, id.value, second);
    }
    Composed(cfg, name, id, if id.None? then None else JsonUtil.Get(attendance, PrintInt(id.value)), onResponse, calls);
  }

  lemma Composed(cfg: Config, name: string, id: Option<int>, a: Option<int>, onResponse: Callback, calls: seq<Caller>)
    requires |name| < 64 && |calls| == 2 && (id.Some? ==> -INT_LIMIT <= id.value < INT_LIMIT)
    requires forall ctx, resp :: onResponse(ctx, resp) == OnResponse(cfg, ctx, resp)
    requires var body := if id.None? then NAME_NOT_FOUND else IdBody(id.value);
      calls[0](IdUrl(cfg, name)) == Some(Response(if id.None? then 404 else 200, |body|, body))
    requires id.Some? ==> var body := if a.None? then ID_NOT_FOUND else AttendBody(a.value != 0);
      calls[1](AttendUrl(cfg, id.value)) == Some(Response(if a.None? then 404 else 200, |body|, body))
    ensures Drive(Upstream(Context(WaitingId, name, 0), IdUrl(cfg, name)), onResponse, calls) ==
      Some(Printed(name, id, a))
  {
    var ctx := Context(WaitingId, name, 0);
    var resp := calls[0](IdUrl(cfg, name)).value;
    DriveStep(ctx, IdUrl(cfg, name), onResponse, calls, resp);
    if id.None? {
      ErrorPassedOn(cfg, ctx, 404, resp.contentLength, NAME_NOT_FOUND);
    } else {
      var attended := a.Some? && a.value != 0;
      var ctx' := Context(WaitingAttend, name, id.value);
      var resp' := calls[1](AttendUrl(cfg, id.value)).value;
      Decisions(cfg, name, id.value, attended, resp.contentLength);
      DriveStep(ctx', AttendUrl(cfg, id.value), onResponse, calls[1..], resp');
      if a.None? {
        ErrorPassedOn(cfg, ctx', 404, resp'.contentLength, ID_NOT_FOUND);
      } else {
        Decisions(cfg, name, id.value, attended, resp'.contentLength);
      }
    }
  }

  // ----------------------------------------------------------------- over the data files

  /** A flat object that loads completely. */
  ghost predicate PlainObject(items: seq<JsonUtil.Item>) {
    && |items| <= JsonUtil.MAX_ENTRIES && JsonUtil.DistinctKeys(items)
    && forall i | 0 <= i < |items| :: JsonUtil.PlainItem(items[i]) && |items[i].key| <= JsonUtil.MAX_KEY
  }

  lemma LoadedInRange(items: seq<JsonUtil.Item>)
    requires PlainObject(items)
    ensures InRange(JsonUtil.Load(JsonUtil.PrintObject("", items, "")).entries)
  {
    JsonUtil.ObjectLoaded("", items, "");
    forall i | 0 <= i < |items| ensures -INT_LIMIT <= JsonUtil.StoredAll(items)[i].value < INT_LIMIT {
      assert JsonUtil.PlainItem(items[i]);
    }
  }

  /** With the stores loaded from printed JSON objects, the chain is composition of the two maps: the client reads 200
      with exactly name, id and attendance when both are there, and 404 otherwise. The message for an unknown name is
      JSON, the one for an unknown id is not. */
  lemma ChainOverFiles(cfg: Config, idFile: seq<JsonUtil.Item>, attendFile: seq<JsonUtil.Item>, r: Request,
      name: string, first: Names, second: Names)
    requires PlainConfig(cfg) && PlainNames(first) && PlainNames(second) && PlainObject(idFile)
    requires PlainObject(attendFile)
    requires Looks(r, name)
    ensures var ids, attend := JsonUtil.Meaning(idFile), JsonUtil.Meaning(attendFile);
      var reply := Serve(cfg, JsonUtil.Load(JsonUtil.PrintObject("", idFile, "")).entries,
        JsonUtil.Load(JsonUtil.PrintObject("", attendFile, "")).entries, r, first, second);
      && reply.Some?
      && (if name !in ids then
            Tells(reply.value, Told(404, map["error" := JsonLoads.JsonText("name not found")]))
          else if PrintInt(ids[name]) !in attend then TellsCut(reply.value, 404, "id not found")
          else Tells(reply.value, Told(200, FinalFields(name, ids[name], attend[PrintInt(ids[name])] != 0))))
  {
    var ids, attend := JsonUtil.Meaning(idFile), JsonUtil.Meaning(attendFile);
    LoadedInRange(idFile);
    JsonUtil.StoreIsMap("", idFile, "", name);
    if name in ids {
      JsonUtil.StoreIsMap("", attendFile, "", PrintInt(ids[name]));
    }
    ChainIsComposition(cfg, JsonUtil.Load(JsonUtil.PrintObject("", idFile, "")).entries,
      JsonUtil.Load(JsonUtil.PrintObject("", attendFile, "")).entries, r, name, first, second);
  }
}
