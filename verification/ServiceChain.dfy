/** The three services and the path a call takes between them: URL, routing header, synthesized HTTP text, and
    back. */
module ServiceChain {
  import opened Options
  import opened Text
  import opened HeaderJson
  import opened Http
  import opened HttpRoundTrip
  import JsonLoads
  import JsonUtil

  type Store = seq<JsonUtil.Pair>

  datatype Config = Config(idService: string, attendService: string, namespace: string)
  datatype Reply = Reply(status: int, body: string)

  // ----------------------------------------------------------------- URLs

  const URL_MAX: nat := 255

  /** The whole URL, before snprintf cuts it to its buffer. */
  function LongUrl(service: string, namespace: string, target: string): string {
    "http://" + (service + (['.'] + (namespace + (".svc.cluster.local" + target))))
  }

  function Url(service: string, namespace: string, target: string): string {
    Prefix(LongUrl(service, namespace, target), URL_MAX)
  }

  /** What dpumesh_write takes for path and query. */
  function UrlTarget(url: string): string {
    var found := After(url, "://");
    if found.None? then "/"
    else
      var p := SkipTo(found.value, '/');
      if p == "" then "/" else p
  }

  datatype Target = Target(path: string, query: string)

  function SplitTarget(target: string): Target {
    var q := SkipTo(target, '?');
    if q == "" then Target(target, "") else Target(Prefix(target[..|target| - |q|], 255), Prefix(q[1..], 511))
  }

  /** The name the sidecar routes by. */
  function ServiceName(url: string): string {
    var parts := Split(url, '/');
    if |parts| < 3 then "unknown" else Split(Split(parts[2], ':')[0], '.')[0]
  }

  // ----------------------------------------------------------------- a call

  /** Strings that identify a call and its ends; they do not influence its result. */
  datatype Names = Names(reqId: string, caller: string, callee: string)

  const HEADER_SIZE: nat := 4096

  function RequestHeader(url: string, names: Names): Header {
    var t := SplitTarget(UrlTarget(url));
    Header("GET", url, t.path, t.query, 0, names.reqId, names.caller, "")
  }

  /** The header as the writer's buffer holds it. */
  function WireHeader(h: Header): string {
    Written(h, HEADER_SIZE)
  }

  /** A field of the header as the sidecar reads it; a header that does not load has none. */
  function Loaded(json: string, key: string): string {
    var dict := JsonLoads.Loads(json);
    if dict.None? then "" else JsonLoads.GetOr(dict.value, key, "")
  }

  /** A field of the header; the model has no value for one that is missing. */
  function Field(json: string, key: string, outSize: nat): string
    requires outSize >= 1
  {
    var v := GetText(json, key, outSize);
    if v.None? then "" else v.value
  }

  /** What the called worker keeps of a request in order to answer it, as it reads them from the header. */
  datatype Origin = Origin(reqId: string, source: string)

  function OriginOf(json: string): Origin {
    Origin(Field(json, "req_id_str", 64), Field(json, "source_worker", 128))
  }

  /** The answer goes to where the request said it came from. */
  function ResponseHeader(status: int, origin: Origin, callee: string): Header {
    Header("", "", "", "", status, origin.reqId, callee, origin.source)
  }

  /** The request that the called worker's handler sees: the header's fields, printed as HTTP and parsed. */
  function Received(url: string, names: Names): Parse<Request> {
    var json := WireHeader(RequestHeader(url, names));
    ParseRequest(PrintRequest(Field(json, "method", 16), Field(json, "path", 256), Field(json, "query_string", 512),
      RequestBody(WireBody(""))))
  }

  /** The response that the caller's handler sees. */
  function Returned(reply: Reply, origin: Origin, callee: string): Parse<Response> {
    var status := GetInt(WireHeader(ResponseHeader(reply.status, origin, callee)), "status_code");
    ParseResponse(PrintUpstream(if status > 0 then status else 200, WireBody(reply.body)))
  }

  // ----------------------------------------------------------------- the services

  const NOT_FOUND: string := Prefix("{\"error\":\"not found\"}", 20)
  const MISSING_NAME: string := Prefix("{\"error\":\"missing name\"}", 23)
  const NAME_NOT_FOUND: string := Prefix("{\"error\":\"name not found\"}", 26)
  const MISSING_ID: string := Prefix("{\"error\":\"missing id\"}", 21)
  const ID_NOT_FOUND: string := Prefix("{\"error\":\"id not found\"}", 23)
  const BAD_ID: string := Prefix("{\"error\":\"bad id response\"}", 26)

  function IdBody(id: int): string {
    "{\"id\":" + (PrintInt(id) + "}")
  }

  function TruthText(b: bool): string {
    if b then "true" else "false"
  }

  function AttendBody(b: bool): string {
    "{\"attended\":" + (TruthText(b) + "}")
  }

  function IdService(ids: Store, r: Request): Reply {
    if r.line.method_ != "GET" || r.line.path != "/id" then Reply(404, NOT_FOUND)
    else
      var name := JsonUtil.QueryGet(r.line.query, "name", 64);
      if name.None? then Reply(400, MISSING_NAME)
      else
        var id := JsonUtil.Get(ids, name.value);
        if id.None? then Reply(404, NAME_NOT_FOUND) else Reply(200, Prefix(IdBody(id.value), 127))
  }

  function AttendService(attendance: Store, r: Request): Reply {
    if r.line.method_ != "GET" || r.line.path != "/attend" then Reply(404, NOT_FOUND)
    else
      var id := JsonUtil.QueryGet(r.line.query, "id", 32);
      if id.None? then Reply(400, MISSING_ID)
      else
        var attended := JsonUtil.Get(attendance, id.value);
        if attended.None? then Reply(404, ID_NOT_FOUND) else Reply(200, Prefix(AttendBody(attended.value != 0), 127))
  }

  /** The service the sidecar routes a request to. */
  function RoutedTo(url: string, names: Names): string {
    ServiceName(Loaded(WireHeader(RequestHeader(url, names)), "url"))
  }

  /** Whether the sidecar routes an answer back to the caller; without a destination it is the bridge's. */
  predicate RoutedBack(reply: Reply, origin: Origin, names: Names) {
    var dest := Loaded(WireHeader(ResponseHeader(reply.status, origin, names.callee)), "dest_worker");
    dest != "" && dest == names.caller
  }

  /** A call through the mesh: route by name, hand over, answer, route back. None: nothing ever comes back. */
  function Call(cfg: Config, ids: Store, attendance: Store, url: string, names: Names): Option<Response> {
    var service := RoutedTo(url, names);
    var request := Received(url, names);
    if !request.Done? || service !in {cfg.idService, cfg.attendService} then None
    else
      var reply :=
        if service == cfg.idService then IdService(ids, request.value) else AttendService(attendance, request.value);
      var origin := OriginOf(WireHeader(RequestHeader(url, names)));
      var response := Returned(reply, origin, names.callee);
      if response.Done? && RoutedBack(reply, origin, names) then Some(response.value) else None
  }

  // ----------------------------------------------------------------- the frontend

  datatype Stage = WaitingId | WaitingAttend
  datatype Context = Context(stage: Stage, name: string, id: int)
  /** What a handler does in the end: answer the client, or wait for another service. */
  datatype Action = Respond(reply: Reply) | Upstream(ctx: Context, url: string)

  function IdUrl(cfg: Config, name: string): string {
    Url(cfg.idService, cfg.namespace, "/id?name=" + name)
  }

  function AttendUrl(cfg: Config, id: int): string {
    Url(cfg.attendService, cfg.namespace, "/attend?id=" + PrintInt(id))
  }

  function FinalBody(name: string, id: int, attended: bool): string {
    "{\"name\":\"" + (name + ("\",\"id\":" + (PrintInt(id) + (",\"attended\":" + (TruthText(attended) + "}")))))
  }

  /** handle_request, when its allocation and its call succeed. */
  function OnRequest(cfg: Config, r: Request): Action {
    if r.line.method_ != "GET" || r.line.path != "/lookup" then Respond(Reply(404, NOT_FOUND))
    else
      var name := JsonUtil.QueryGet(r.line.query, "name", 64);
      if name.None? then Respond(Reply(400, MISSING_NAME))
      else Upstream(Context(WaitingId, name.value, 0), IdUrl(cfg, name.value))
  }

  /** handle_upstream_response, when its call succeeds. */
  function OnResponse(cfg: Config, ctx: Context, resp: Response): Action {
    if resp.status != 200 then Respond(Reply(resp.status, resp.body))
    else match ctx.stage
      case WaitingId =>
        var p := After(resp.body, Pattern("id"));
        if p.None? then Respond(Reply(502, BAD_ID))
        else
          var id := Atoi(p.value);
          Upstream(Context(WaitingAttend, ctx.name, id), AttendUrl(cfg, id))
      case WaitingAttend =>
        var attended := After(resp.body, "true").Some?;
        Respond(Reply(200, Prefix(FinalBody(ctx.name, ctx.id, attended), 255)))
  }

  type Callback = (Context, Response) -> Action
  type Caller = string -> Option<Response>

  /** Acting on a decision: at most two calls, then an answer, if the calls come back. */
  function Drive(action: Action, onResponse: Callback, calls: seq<Caller>): Option<Reply>
    decreases |calls|
  {
    match action
    case Respond(reply) => Some(reply)
    case Upstream(ctx, url) =>
      if calls == [] then None
      else
        var resp := calls[0](url);
        if resp.None? then None else Drive(onResponse(ctx, resp.value), onResponse, calls[1..])
  }

  function OnResponses(cfg: Config): (f: Callback)
    ensures forall ctx, resp :: f(ctx, resp) == OnResponse(cfg, ctx, resp)
  {
    (ctx, resp) => OnResponse(cfg, ctx, resp)
  }

  /** The calls a request may make, one after the other. */
  function Calls(cfg: Config, ids: Store, attendance: Store, first: Names, second: Names): (r: seq<Caller>)
    ensures |r| == 2
    ensures forall url :: r[0](url) == Call(cfg, ids, attendance, url, first)
    ensures forall url :: r[1](url) == Call(cfg, ids, attendance, url, second)
  {
    [url => Call(cfg, ids, attendance, url, first), url => Call(cfg, ids, attendance, url, second)]
  }

  /** The frontend's answer to a request. */
  function Serve(cfg: Config, ids: Store, attendance: Store, r: Request, first: Names, second: Names): Option<Reply> {
    Drive(OnRequest(cfg, r), OnResponses(cfg), Calls(cfg, ids, attendance, first, second))
  }

  // ----------------------------------------------------------------- what is required

  /** Printable, and free of what would end a field on the way. */
  predicate PlainName(name: string) {
    forall i | 0 <= i < |name| :: '!' <= name[i] <= '~' && name[i] !in "\"\\&"
  }

  /** A host label or a dotted namespace. */
  predicate PlainHost(s: string) {
    forall i | 0 <= i < |s| :: '!' <= s[i] <= '~' && s[i] !in "\"\\&/:?"
  }

  /** Names that a URL can carry, short enough that no URL is cut whatever the name or the id. */
  predicate PlainConfig(cfg: Config) {
    && |cfg.idService| + |cfg.namespace| <= 157 && |cfg.attendService| + |cfg.namespace| <= 207
    && PlainHost(cfg.idService) && Without(cfg.idService, '.')
    && PlainHost(cfg.attendService) && Without(cfg.attendService, '.')
    && PlainHost(cfg.namespace) && cfg.idService != cfg.attendService
  }

  /** Printable text that a JSON string can hold as it is. */
  predicate PlainNames(n: Names) {
    && PlainName(n.reqId) && PlainName(n.caller) && PlainName(n.callee) && n.caller != ""
    && |n.reqId| <= 127 && |n.caller| <= 127 && |n.callee| <= 127
  }

  predicate UrlFits(service: string, namespace: string, target: string) {
    |LongUrl(service, namespace, target)| <= URL_MAX
  }

  // ----------------------------------------------------------------- URLs taken apart

  lemma {:induction false} WithoutConcat(a: string, b: string, c: char)
    requires Without(a, c) && Without(b, c)
    ensures Without(a + b, c)
  {
  }

  lemma PlainWithout(s: string, c: char)
    requires PlainName(s) && (c < '!' || c > '~' || c in "\"\\&")
    ensures Without(s, c)
  {
  }

  lemma HostWithout(s: string, c: char)
    requires PlainHost(s) && c in "\"\\&/:?"
    ensures Without(s, c)
  {
  }

  function Host(service: string, namespace: string): string {
    service + (['.'] + (namespace + ".svc.cluster.local"))
  }

  lemma UrlShape(service: string, namespace: string, target: string)
    requires UrlFits(service, namespace, target)
    ensures Url(service, namespace, target) == "http" + ("://" + (Host(service, namespace) + target))
    ensures Url(service, namespace, target) == "http:" + (['/'] + ("" + (['/'] + (Host(service, namespace) + target))))
  {
  }

  lemma HostPlain(service: string, namespace: string, c: char)
    requires PlainHost(service) && PlainHost(namespace) && c in "\"\\&/:?"
    ensures Without(Host(service, namespace), c)
  {
    HostWithout(service, c);
    HostWithout(namespace, c);
    assert Without(".svc.cluster.local", c);
  }

  /** Path and query start at the first slash behind `://`; without one they are `/`. */
  lemma TargetOfUrl(scheme: string, host: string, target: string)
    requires Without(scheme, ':') && Without(host, '/') && (target == "" || target[0] == '/')
    ensures UrlTarget(scheme + ("://" + (host + target))) == if target == "" then "/" else target
  {
    var rest := host + target;
    AfterSkips(scheme, "://" + rest, "://");
    assert "://" <= "://" + rest && ("://" + rest)[3..] == rest;
    if target == "" {
      assert rest == host;
      SkipToNone(host, '/');
    } else {
      SkipToFinds(host, '/', target);
    }
  }

  /** ... and `/` too in a URL that has no `://`. */
  lemma TargetOfNoUrl(url: string)
    requires forall i :: !OccursAt(url, "://", i)
    ensures UrlTarget(url) == "/"
  {
    AfterIsFirst(url, "://");
  }

  lemma TargetFound(service: string, namespace: string, target: string)
    requires PlainHost(service) && PlainHost(namespace) && UrlFits(service, namespace, target)
    requires target == "" || target[0] == '/'
    ensures UrlTarget(Url(service, namespace, target)) == if target == "" then "/" else target
  {
    UrlShape(service, namespace, target);
    HostPlain(service, namespace, '/');
    assert Without("http", ':');
    TargetOfUrl("http", Host(service, namespace), target);
  }

  /** The name is what stands behind the second slash, up to the first dot, colon or slash. */
  lemma NameInUrl(a: string, b: string, name: string, rest: string)
    requires Without(a, '/') && Without(b, '/')
    requires Without(name, '/') && Without(name, ':') && Without(name, '.') && (rest == "" || rest[0] in "/:.")
    ensures ServiceName(a + (['/'] + (b + (['/'] + (name + rest))))) == name
  {
    SplitCons(b, '/', name + rest);
    SplitCons(a, '/', b + (['/'] + (name + rest)));
    UpTo(name, '/', rest);
    var host := Split(name + rest, '/')[0];
    var more := host[|name|..];
    assert host == name + more;
    UpTo(name, ':', more);
    var bare := Split(host, ':')[0];
    assert bare == name + bare[|name|..];
    UpTo(name, '.', bare[|name|..]);
  }

  /** The first piece begins with `name`, and is all of it if the separator or nothing follows. */
  lemma UpTo(name: string, c: char, rest: string)
    requires Without(name, c)
    ensures var piece := Split(name + rest, c)[0];
      && |piece| >= |name| && piece[..|name|] == name
      && (rest == "" || rest[0] == c ==> piece == name)
      && (rest != "" && rest[0] != c ==> |piece| > |name| && piece[|name|] == rest[0])
    decreases |name|
  {
    if name == "" {
      assert name + rest == rest;
    } else {
      ConsTail(name, rest);
      UpTo(name[1..], c, rest);
      var piece, tail := Split(name + rest, c)[0], Split(name[1..] + rest, c)[0];
      assert piece == [name[0]] + tail;
    }
  }

  /** A URL of fewer than three pieces names no service. */
  lemma NoNameInUrl(a: string, b: string)
    requires Without(a, '/') && Without(b, '/')
    ensures ServiceName(a) == "unknown" && ServiceName(a + (['/'] + b)) == "unknown"
  {
    SplitNone(a, '/');
    SplitNone(b, '/');
    SplitCons(a, '/', b);
  }

  /** The sidecar routes every call to the service the URL was built for. */
  lemma RoutedByName(service: string, namespace: string, target: string)
    requires PlainHost(service) && Without(service, '.') && PlainHost(namespace)
    requires UrlFits(service, namespace, target)
    ensures ServiceName(Url(service, namespace, target)) == service
  {
    UrlShape(service, namespace, target);
    HostWithout(service, '/');
    HostWithout(service, ':');
    assert Without("http:", '/') && Without("", '/');
    var rest := ['.'] + (namespace + (".svc.cluster.local" + target));
    assert Host(service, namespace) + target == service + rest;
    NameInUrl("http:", "", service, rest);
  }

  /** Path and query part at the first question mark, each cut to its buffer. */
  lemma TargetSplit(path: string, query: string)
    requires Without(path, '?')
    ensures SplitTarget(path + (['?'] + query)) == Target(Prefix(path, 255), Prefix(query, 511))
  {
    var target := path + (['?'] + query);
    SkipToFinds(path, '?', ['?'] + query);
    assert target[..|target| - |['?'] + query|] == path;
    assert (['?'] + query)[1..] == query;
  }

  /** Without one the whole target is the path, and the query is empty. */
  lemma TargetUnsplit(target: string)
    requires Without(target, '?')
    ensures SplitTarget(target) == Target(target, "")
  {
    SkipToNone(target, '?');
  }
}
