/** What the services answer to every request, as their clients read it: the status, and what json.loads makes of the
    body. */
module ChainAnswers {
  import opened Options
  import opened Text
  import opened HeaderJson
  import opened Http
  import opened ServiceChain
  import opened JsonLoads
  import JsonUtil

  datatype Told = Told(status: int, fields: map<string, Json>)

  /** The answer has this status, and its body is a JSON object of exactly these fields. */
  predicate Tells(reply: Reply, t: Told) {
    reply.status == t.status && Loads(reply.body) == Some(t.fields)
  }

  /** The answer is an error message whose closing brace is missing, because the length given for it is one short: it
      is no JSON. */
  predicate TellsCut(reply: Reply, status: int, message: string) {
    && reply.status == status
    && Loads(reply.body).None? && Loads(reply.body + "}") == Some(map["error" := JsonText(message)])
  }

  // ----------------------------------------------------------------- bodies read

  lemma TextValue(text: string, rest: string)
    requires AllLiteral(text)
    ensures ReadValue([QUOTE] + (text + ([QUOTE] + rest))) == Some(Read(JsonText(text), rest))
  {
    QuotedRead(text, rest);
  }

  lemma IntValue(n: int, rest: string)
    requires rest != "" && !IsDigit(rest[0])
    ensures var s := PrintInt(n) + rest;
      s != "" && !IsBlank(s[0]) && ReadValue(s) == Some(Read(JsonInt(n), rest))
  {
    NumberRead(n, rest);
    NoTruthBefore(n, rest);
    PrintedIsPlain(n);
    assert (PrintInt(n) + rest)[0] == PrintInt(n)[0];
  }

  lemma TruthValue(b: bool, rest: string)
    ensures var s := TruthText(b) + rest;
      s != "" && !IsBlank(s[0]) && ReadValue(s) == Some(Read(JsonTruth(b), rest))
  {
    var s := TruthText(b) + rest;
    assert s[..|TruthText(b)|] == TruthText(b) && s[|TruthText(b)|..] == rest;
  }

  lemma OneField(key: string, value: Json)
    ensures Dict([Member(key, value)]) == map[key := value]
  {
    assert [Member(key, value)][..0] == [];
  }

  lemma ErrorText(message: string)
    requires AllLiteral(message)
    ensures var s := Tight("error", [QUOTE] + (message + ([QUOTE] + "")));
      Loads("{" + s).None? && Loads("{" + Tight("error", [QUOTE] + (message + ([QUOTE] + "}")))) ==
        Some(map["error" := JsonText(message)])
  {
    TextValue(message, "");
    Unclosed("error", [QUOTE] + (message + ([QUOTE] + "")), JsonText(message));
    TextValue(message, "}");
    var text := Tight("error", [QUOTE] + (message + ([QUOTE] + "}")));
    TightLast("error", [QUOTE] + (message + ([QUOTE] + "}")), JsonText(message));
    ObjectLoads(text, [Member("error", JsonText(message))]);
    OneField("error", JsonText(message));
  }

  /** The error text a service prints. */
  function ErrorBody(message: string): string {
    "{\"error\":\"" + message + "\"}"
  }

  lemma ErrorBodyShape(message: string)
    ensures ErrorBody(message) == "{" + Tight("error", [QUOTE] + (message + ([QUOTE] + "}")))
    ensures var n := |ErrorBody(message)| - 1;
      ErrorBody(message)[..n] == "{" + Tight("error", [QUOTE] + (message + ([QUOTE] + "")))
  {
    var a := "{\"error\":\"";
    assert a == "{" + Tight("error", [QUOTE]);
    assert ErrorBody(message) == a + (message + "\"}");
    assert "\"}" == [QUOTE] + "}";
    assert ErrorBody(message) == "{" + Tight("error", [QUOTE] + (message + ([QUOTE] + "}")));
    assert ErrorBody(message)[..|ErrorBody(message)| - 1] == a + (message + "\"");
  }

  /** An error message cut before its last character is no JSON, and whole it is. */
  lemma ErrorRead(message: string)
    requires AllLiteral(message)
    ensures Loads(ErrorBody(message)) == Some(map["error" := JsonText(message)])
    ensures var cut := ErrorBody(message)[..|ErrorBody(message)| - 1];
      Loads(cut).None? && cut + "}" == ErrorBody(message)
  {
    ErrorText(message);
    ErrorBodyShape(message);
  }

  lemma CutIsTold(body: string, status: int, message: string)
    requires AllLiteral(message) && body + "}" == ErrorBody(message)
    ensures TellsCut(Reply(status, body), status, message)
  {
    ErrorRead(message);
    assert ErrorBody(message)[..|ErrorBody(message)| - 1] == body;
  }

  lemma WholeIsTold(body: string, status: int, message: string)
    requires AllLiteral(message) && body == ErrorBody(message)
    ensures Tells(Reply(status, body), Told(status, map["error" := JsonText(message)]))
  {
    ErrorRead(message);
  }

  lemma NotFoundPrinted(message: string)
    requires message == "not found"
    ensures AllLiteral(message) && NOT_FOUND + "}" == ErrorBody(message)
  {
  }

  lemma NotFoundIsCut(status: int)
    ensures TellsCut(Reply(status, NOT_FOUND), status, "not found")
  {
    NotFoundPrinted("not found");
    CutIsTold(NOT_FOUND, status, "not found");
  }

  lemma MissingNamePrinted(message: string)
    requires message == "missing name"
    ensures AllLiteral(message) && MISSING_NAME + "}" == ErrorBody(message)
  {
  }

  lemma MissingNameIsCut(status: int)
    ensures TellsCut(Reply(status, MISSING_NAME), status, "missing name")
  {
    MissingNamePrinted("missing name");
    CutIsTold(MISSING_NAME, status, "missing name");
  }

  lemma MissingIdPrinted(message: string)
    requires message == "missing id"
    ensures AllLiteral(message) && MISSING_ID + "}" == ErrorBody(message)
  {
  }

  lemma MissingIdIsCut(status: int)
    ensures TellsCut(Reply(status, MISSING_ID), status, "missing id")
  {
    MissingIdPrinted("missing id");
    CutIsTold(MISSING_ID, status, "missing id");
  }

  lemma IdNotFoundPrinted(message: string)
    requires message == "id not found"
    ensures AllLiteral(message) && ID_NOT_FOUND + "}" == ErrorBody(message)
  {
  }

  lemma IdNotFoundIsCut(status: int)
    ensures TellsCut(Reply(status, ID_NOT_FOUND), status, "id not found")
  {
    IdNotFoundPrinted("id not found");
    CutIsTold(ID_NOT_FOUND, status, "id not found");
  }

  lemma BadIdPrinted(message: string)
    requires message == "bad id response"
    ensures AllLiteral(message) && BAD_ID + "}" == ErrorBody(message)
  {
  }

  lemma BadIdIsCut(status: int)
    ensures TellsCut(Reply(status, BAD_ID), status, "bad id response")
  {
    BadIdPrinted("bad id response");
    CutIsTold(BAD_ID, status, "bad id response");
  }

  lemma NameNotFoundPrinted(message: string)
    requires message == "name not found"
    ensures AllLiteral(message) && NAME_NOT_FOUND == ErrorBody(message)
  {
  }

  lemma NameNotFoundIsWhole(status: int)
    ensures Tells(Reply(status, NAME_NOT_FOUND), Told(status, map["error" := JsonText("name not found")]))
  {
    NameNotFoundPrinted("name not found");
    WholeIsTold(NAME_NOT_FOUND, status, "name not found");
  }

  /** An object of one member, printed without white space. */
  lemma OneMember(key: string, s: string, value: Json)
    requires AllLiteral(key) && s != "" && !IsBlank(s[0]) && ReadValue(s) == Some(Read(value, "}"))
    ensures Loads("{" + Tight(key, s)) == Some(map[key := value])
  {
    TightLast(key, s, value);
    ObjectLoads(Tight(key, s), [Member(key, value)]);
    OneField(key, value);
  }

  lemma Keys(name: string, id: string, attended: string)
    requires name == "name" && id == "id" && attended == "attended"
    ensures AllLiteral(name) && AllLiteral(id) && AllLiteral(attended)
    ensures name != id && id != attended && name != attended
  {
  }

  lemma IdShape(key: string, id: int)
    requires key == "id"
    ensures IdBody(id) == "{" + Tight(key, PrintInt(id) + "}")
  {
    assert "{\"id\":" == "{" + Tight(key, "");
    assert "{" + Tight(key, "") + (PrintInt(id) + "}") == "{" + Tight(key, PrintInt(id) + "}");
  }

  lemma IdBodyRead(id: int)
    ensures Loads(IdBody(id)) == Some(map["id" := JsonInt(id)])
  {
    Keys("name", "id", "attended");
    IntValue(id, "}");
    OneMember("id", PrintInt(id) + "}", JsonInt(id));
    IdShape("id", id);
  }

  lemma AttendShape(key: string, b: bool)
    requires key == "attended"
    ensures AttendBody(b) == "{" + Tight(key, TruthText(b) + "}")
  {
    assert "{\"attended\":" == "{" + Tight(key, "");
    assert "{" + Tight(key, "") + (TruthText(b) + "}") == "{" + Tight(key, TruthText(b) + "}");
  }

  lemma AttendBodyRead(b: bool)
    ensures Loads(AttendBody(b)) == Some(map["attended" := JsonTruth(b)])
  {
    Keys("name", "id", "attended");
    TruthValue(b, "}");
    OneMember("attended", TruthText(b) + "}", JsonTruth(b));
    AttendShape("attended", b);
  }

  function FinalFields(name: string, id: int, attended: bool): map<string, Json> {
    map["name" := JsonText(name), "id" := JsonInt(id), "attended" := JsonTruth(attended)]
  }

  lemma ThreeFields(a: Member, b: Member, c: Member)
    ensures Dict([a] + ([b] + [c])) == map[a.key := a.value, b.key := b.value, c.key := c.value]
  {
    var all := [a] + ([b] + [c]);
    assert all[..2] == [a, b] && [a, b][..1] == [a] && [a][..0] == [];
    assert Dict([a, b]) == Dict([a])[b.key := b.value];
  }

  function Last(key: string, attended: bool): string {
    Tight(key, TruthText(attended) + "}")
  }

  function Second(key: string, id: int, last: string): string {
    Tight(key, PrintInt(id) + ([','] + last))
  }

  function First(key: string, name: string, second: string): string {
    Tight(key, [QUOTE] + (name + ([QUOTE] + ([','] + second))))
  }

  lemma AttendedPiece(key: string, rest: string)
    requires key == "attended"
    ensures ",\"attended\":" + rest == [','] + Tight(key, rest)
  {
  }

  lemma IdPiece(key: string, rest: string)
    requires key == "id"
    ensures "\",\"id\":" + rest == [QUOTE] + ([','] + Tight(key, rest))
  {
  }

  lemma NamePiece(key: string, rest: string)
    requires key == "name"
    ensures "{\"name\":\"" + rest == "{" + Tight(key, [QUOTE] + rest)
  {
  }

  lemma FinalShape(k1: string, k2: string, k3: string, name: string, id: int, attended: bool)
    requires k1 == "name" && k2 == "id" && k3 == "attended"
    ensures FinalBody(name, id, attended) == "{" + First(k1, name, Second(k2, id, Last(k3, attended)))
  {
    var last := TruthText(attended) + "}";
    AttendedPiece(k3, last);
    var tail := PrintInt(id) + ([','] + Tight(k3, last));
    IdPiece(k2, tail);
    NamePiece(k1, name + ([QUOTE] + ([','] + Tight(k2, tail))));
  }

  lemma MembersRead(k1: string, k2: string, k3: string, name: string, id: int, attended: bool)
    requires AllLiteral(k1) && AllLiteral(k2) && AllLiteral(k3) && AllLiteral(name)
    ensures ReadMembers(ReadMember, First(k1, name, Second(k2, id, Last(k3, attended)))) ==
      Some(Read([Member(k1, JsonText(name))] + ([Member(k2, JsonInt(id))] + [Member(k3, JsonTruth(attended))]), ""))
  {
    TruthValue(attended, "}");
    TightLast(k3, TruthText(attended) + "}", JsonTruth(attended));
    var last := Last(k3, attended);
    IntValue(id, [','] + last);
    TightOther(k2, PrintInt(id) + ([','] + last), JsonInt(id), last, [Member(k3, JsonTruth(attended))]);
    var second := Second(k2, id, last);
    TextValue(name, [','] + second);
    TightOther(k1, [QUOTE] + (name + ([QUOTE] + ([','] + second))), JsonText(name), second,
      [Member(k2, JsonInt(id))] + [Member(k3, JsonTruth(attended))]);
  }

  /** json.loads of the frontend's final body: the name, the id and the attendance, for every name that needs no
      escaping. */
  lemma FinalBodyRead(name: string, id: int, attended: bool)
    requires AllLiteral(name)
    ensures Loads(FinalBody(name, id, attended)) == Some(FinalFields(name, id, attended))
  {
    Keys("name", "id", "attended");
    MembersRead("name", "id", "attended", name, id, attended);
    FinalShape("name", "id", "attended", name, id, attended);
    var a, b, c := Member("name", JsonText(name)), Member("id", JsonInt(id)), Member("attended", JsonTruth(attended));
    ObjectLoads(First("name", name, Second("id", id, Last("attended", attended))), [a] + ([b] + [c]));
    ThreeFields(a, b, c);
  }

  /** What a string read from JSON text holds needs no escaping. */
  lemma {:induction false} PrefixIsLiteral(s: string)
    ensures AllLiteral(LiteralPrefix(s))
  {
    if s != "" && Literal(s[0]) { PrefixIsLiteral(s[1..]); }
  }

  predicate LiteralText(value: Json) {
    value.JsonText? ==> AllLiteral(value.text)
  }

  lemma MemberIsLiteral(s: string)
    requires ReadMember(s).Some?
    ensures LiteralText(ReadMember(s).value.value.value)
  {
    var v := SkipBlanks(SkipBlanks(ReadString(SkipBlanks(s)).value.rest)[1..]);
    if v[0] == QUOTE { PrefixIsLiteral(v[1..]); }
  }

  lemma {:induction false} MembersAreLiteral(s: string)
    requires ReadMembers(ReadMember, s).Some?
    ensures forall m | m in ReadMembers(ReadMember, s).value.value :: LiteralText(m.value)
    decreases |s|
  {
    MemberIsLiteral(s);
    var p := SkipBlanks(ReadMember(s).value.rest);
    if p[0] != '}' { MembersAreLiteral(p[1..]); }
  }

  lemma {:induction false} DictIsLiteral(members: seq<Member>)
    requires forall m | m in members :: LiteralText(m.value)
    ensures forall key | key in Dict(members) :: LiteralText(Dict(members)[key])
    decreases |members|
  {
    if members != [] {
      assert members[|members| - 1] in members;
      DictIsLiteral(members[..|members| - 1]);
    }
  }

  lemma LoadedIsLiteral(text: string, key: string)
    requires Loads(text).Some? && key in Loads(text).value
    ensures LiteralText(Loads(text).value[key])
  {
    var p := SkipBlanks(text);
    var q := SkipBlanks(p[1..]);
    if !(q != "" && q[0] == '}') {
      MembersAreLiteral(p[1..]);
      DictIsLiteral(ReadMembers(ReadMember, p[1..]).value.value);
    }
  }

  /** The frontend's final body says to json.loads what was meant, exactly for names that need no escaping. */
  lemma FinalBodyReadIff(name: string, id: int, attended: bool)
    ensures Loads(FinalBody(name, id, attended)) == Some(FinalFields(name, id, attended)) <==> AllLiteral(name)
  {
    if AllLiteral(name) {
      FinalBodyRead(name, id, attended);
    } else if Loads(FinalBody(name, id, attended)) == Some(FinalFields(name, id, attended)) {
      LoadedIsLiteral(FinalBody(name, id, attended), "name");
    }
  }

  // ----------------------------------------------------------------- the answer to every request

  predicate InRange(store: Store) {
    forall i | 0 <= i < |store| :: -INT_LIMIT <= store[i].value < INT_LIMIT
  }

  lemma {:induction false} GetInRange(store: Store, key: string)
    requires InRange(store) && JsonUtil.Get(store, key).Some?
    ensures -INT_LIMIT <= JsonUtil.Get(store, key).value < INT_LIMIT
  {
    if store[0].key != key { GetInRange(store[1..], key); }
  }

  lemma IdBodyFits(id: int)
    requires -INT_LIMIT <= id < INT_LIMIT
    ensures Prefix(IdBody(id), 127) == IdBody(id)
  {
    ShortInt(id);
  }

  /** The id service, for every request: 404 for another method or path, 400 without a name, 404 for an unknown name,
      and otherwise 200 with the id. */
  lemma IdServiceTells(ids: Store, r: Request)
    requires InRange(ids)
    ensures var reply, name := IdService(ids, r), JsonUtil.QueryGet(r.line.query, "name", 64);
      if r.line.method_ != "GET" || r.line.path != "/id" then TellsCut(reply, 404, "not found")
      else if name.None? then TellsCut(reply, 400, "missing name")
      else if JsonUtil.Get(ids, name.value).None? then
        Tells(reply, Told(404, map["error" := JsonText("name not found")]))
      else Tells(reply, Told(200, map["id" := JsonInt(JsonUtil.Get(ids, name.value).value)]))
  {
    var name := JsonUtil.QueryGet(r.line.query, "name", 64);
    if r.line.method_ != "GET" || r.line.path != "/id" { NotFoundIsCut(404); }
    else if name.None? { MissingNameIsCut(400); }
    else if JsonUtil.Get(ids, name.value).None? { NameNotFoundIsWhole(404); }
    else {
      GetInRange(ids, name.value);
      IdBodyFits(JsonUtil.Get(ids, name.value).value);
      IdBodyRead(JsonUtil.Get(ids, name.value).value);
    }
  }

  /** The attendance service likewise; any value other than 0 counts as attended. */
  lemma AttendServiceTells(attendance: Store, r: Request)
    ensures var reply, id := AttendService(attendance, r), JsonUtil.QueryGet(r.line.query, "id", 32);
      if r.line.method_ != "GET" || r.line.path != "/attend" then TellsCut(reply, 404, "not found")
      else if id.None? then TellsCut(reply, 400, "missing id")
      else if JsonUtil.Get(attendance, id.value).None? then TellsCut(reply, 404, "id not found")
      else Tells(reply, Told(200, map["attended" := JsonTruth(JsonUtil.Get(attendance, id.value).value != 0)]))
  {
    var id := JsonUtil.QueryGet(r.line.query, "id", 32);
    if r.line.method_ != "GET" || r.line.path != "/attend" { NotFoundIsCut(404); }
    else if id.None? { MissingIdIsCut(400); }
    else if JsonUtil.Get(attendance, id.value).None? { IdNotFoundIsCut(404); }
    else { AttendBodyRead(JsonUtil.Get(attendance, id.value).value != 0); }
  }

  /** The frontend turns a request away by itself, without a call, exactly when it is no GET of /lookup or has no
      name. */
  lemma FrontendTurnsAway(cfg: Config, ids: Store, attendance: Store, r: Request, first: Names, second: Names)
    ensures var action, reply := OnRequest(cfg, r), Serve(cfg, ids, attendance, r, first, second);
      if r.line.method_ != "GET" || r.line.path != "/lookup" then
        action.Respond? && reply == Some(action.reply) && TellsCut(action.reply, 404, "not found")
      else if JsonUtil.QueryGet(r.line.query, "name", 64).None? then
        action.Respond? && reply == Some(action.reply) && TellsCut(action.reply, 400, "missing name")
      else action.Upstream?
  {
    if r.line.method_ != "GET" || r.line.path != "/lookup" { NotFoundIsCut(404); }
    else { MissingNameIsCut(400); }
  }

  lemma FinalFits(name: string, id: int, attended: bool)
    requires |name| < 64 && -INT_LIMIT <= id < INT_LIMIT
    ensures Prefix(FinalBody(name, id, attended), 255) == FinalBody(name, id, attended)
  {
    ShortInt(id);
  }

  /** What the frontend makes of a service's response: another status than 200 is passed on with its body; an id
      response without an id is answered with 502, one with an id leads to the second call; an attendance response is
      answered with 200, the name, the id, and whether `true` occurs in it. */
  lemma FrontendGoesOn(cfg: Config, ctx: Context, resp: Response)
    requires |ctx.name| < 64 && -INT_LIMIT <= ctx.id < INT_LIMIT
    ensures var action := OnResponse(cfg, ctx, resp);
      if resp.status != 200 then action.Respond? && action.reply.status == resp.status && action.reply.body == resp.body
      else if ctx.stage.WaitingAttend? then
        && action.Respond? && action.reply.status == 200
        && (AllLiteral(ctx.name) <==>
              Tells(action.reply, Told(200, FinalFields(ctx.name, ctx.id, After(resp.body, "true").Some?))))
      else if After(resp.body, Pattern("id")).None? then
        action.Respond? && TellsCut(action.reply, 502, "bad id response")
      else
        && action.Upstream? && action.ctx.stage.WaitingAttend? && action.ctx.name == ctx.name
        && action.ctx.id == Atoi(After(resp.body, Pattern("id")).value) && action.url == AttendUrl(cfg, action.ctx.id)
  {
    BadIdIsCut(502);
    var attended := After(resp.body, "true").Some?;
    FinalFits(ctx.name, ctx.id, attended);
    FinalBodyReadIff(ctx.name, ctx.id, attended);
  }
}
