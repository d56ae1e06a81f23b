/** What Python's json.loads makes of a routing header, or of an answer to the client (sections 2 to 7 of RFC 8259).
    Modelled are objects whose values are strings without escapes, integers, truth values and empty objects; for any
    other text the model has no result. */
module JsonLoads {
  import opened Options
  import opened Text
  import opened HeaderJson

  datatype Json = JsonText(text: string) | JsonInt(n: int) | JsonTruth(truth: bool) | JsonEmpty

  predicate IsBlank(c: char) {
    c == ' ' || c == '\t' || c == '\n' || c == '\r'
  }

  function SkipBlanks(s: string): (r: string)
    ensures |r| <= |s|
  {
    if s != "" && IsBlank(s[0]) then SkipBlanks(s[1..]) else s
  }

  /** Characters a string may hold as they are. */
  predicate Literal(c: char) {
    c >= ' ' && c != QUOTE && c != BACKSLASH
  }

  predicate AllLiteral(s: string) {
    forall i | 0 <= i < |s| :: Literal(s[i])
  }

  function LiteralPrefix(s: string): (r: string)
    ensures |r| <= |s|
  {
    if s != "" && Literal(s[0]) then [s[0]] + LiteralPrefix(s[1..]) else ""
  }

  datatype Read<+T> = Read(value: T, rest: string)

  /** A string and what follows its closing quote. */
  function ReadString(s: string): (r: Option<Read<string>>)
    ensures r.Some? ==> |r.value.rest| < |s|
  {
    if s == "" || s[0] != QUOTE then None
    else
      var text := LiteralPrefix(s[1..]);
      var rest := s[1 + |text|..];
      if rest == "" || rest[0] != QUOTE then None else Some(Read(text, rest[1..]))
  }

  function DigitPrefix(s: string): (r: string)
    ensures |r| <= |s| && AllDigits(r)
  {
    if s != "" && IsDigit(s[0]) then [s[0]] + DigitPrefix(s[1..]) else ""
  }

  /** An integer: no leading zero, at least one digit. */
  function ReadNumber(s: string): (r: Option<Read<Json>>)
    ensures r.Some? ==> |r.value.rest| < |s|
  {
    var negative := s != "" && s[0] == '-';
    var body := if negative then s[1..] else s;
    var digits := DigitPrefix(body);
    if digits == "" || (digits[0] == '0' && |digits| > 1) then None
    else
      var n: int := ReadDigits(digits, 0);
      Some(Read(JsonInt(if negative then -n else n), body[|digits|..]))
  }

  function ReadValue(s: string): (r: Option<Read<Json>>)
    ensures r.Some? ==> |r.value.rest| < |s|
  {
    if s == "" then None
    else if s[0] == QUOTE then
      var t := ReadString(s);
      if t.None? then None else Some(Read(JsonText(t.value.value), t.value.rest))
    else if s[0] == '{' then
      var p := SkipBlanks(s[1..]);
      if p != "" && p[0] == '}' then Some(Read(JsonEmpty, p[1..])) else None
    else if "true" <= s then Some(Read(JsonTruth(true), s[4..]))
    else if "false" <= s then Some(Read(JsonTruth(false), s[5..]))
    else ReadNumber(s)
  }

  datatype Member = Member(key: string, value: Json)

  /** `"key": value` */
  function ReadMember(s: string): (r: Option<Read<Member>>)
    ensures r.Some? ==> |r.value.rest| < |s|
  {
    var key := ReadString(SkipBlanks(s));
    if key.None? then None
    else
      var colon := SkipBlanks(key.value.rest);
      if colon == "" || colon[0] != ':' then None
      else
        var v := ReadValue(SkipBlanks(colon[1..]));
        if v.None? then None else Some(Read(Member(key.value.value, v.value.value), v.value.rest))
  }

  /** The members up to the closing brace, over any reader of one member. */
  function ReadMembers(read: string -> Option<Read<Member>>, s: string): Option<Read<seq<Member>>>
    decreases |s|
  {
    var one := read(s);
    if one.None? then None
    else
      var p := SkipBlanks(one.value.rest);
      if p == "" || |p| > |s| then None
      else if p[0] == '}' then Some(Read([one.value.value], p[1..]))
      else if p[0] != ',' then None
      else
        var more := ReadMembers(read, p[1..]);
        if more.None? then None else Some(Read([one.value.value] + more.value.value, more.value.rest))
  }

  /** json.loads of an object; of members with one key the last counts. */
  function Loads(text: string): Option<map<string, Json>> {
    var p := SkipBlanks(text);
    if p == "" || p[0] != '{' then None
    else
      var q := SkipBlanks(p[1..]);
      if q != "" && q[0] == '}' then if SkipBlanks(q[1..]) == "" then Some(map[]) else None
      else
        var members := ReadMembers(ReadMember, p[1..]);
        if members.None? || SkipBlanks(members.value.rest) != "" then None else Some(Dict(members.value.value))
  }

  function Dict(members: seq<Member>): map<string, Json> {
    if members == [] then map[] else var m := members[|members| - 1]; Dict(members[..|members| - 1])[m.key := m.value]
  }

  /** A text field, or a default if it is missing or no text. */
  function GetOr(dict: map<string, Json>, key: string, default: string): string {
    if key in dict && dict[key].JsonText? then dict[key].text else default
  }

  // ----------------------------------------------------------------- printed entries

  lemma {:induction false} LiteralTaken(a: string, rest: string)
    requires AllLiteral(a) && rest != "" && rest[0] == QUOTE
    ensures LiteralPrefix(a + rest) == a
  {
    if a == "" {
      assert a + rest == rest;
    } else {
      ConsTail(a, rest);
      LiteralTaken(a[1..], rest);
    }
  }

  lemma QuotedRead(text: string, rest: string)
    requires AllLiteral(text)
    ensures ReadString([QUOTE] + (text + ([QUOTE] + rest))) == Some(Read(text, rest))
  {
    var s := [QUOTE] + (text + ([QUOTE] + rest));
    LiteralTaken(text, [QUOTE] + rest);
    assert s[1..] == text + ([QUOTE] + rest);
    assert s[1 + |text|..] == [QUOTE] + rest;
  }

  lemma {:induction false} DigitsTaken(a: string, rest: string)
    requires AllDigits(a) && (rest == "" || !IsDigit(rest[0]))
    ensures DigitPrefix(a + rest) == a
  {
    if a == "" {
      assert a + rest == rest;
    } else {
      ConsTail(a, rest);
      DigitsTaken(a[1..], rest);
    }
  }

  /** Printed numbers have no leading zero. */
  lemma {:induction false} NoLeadingZero(n: nat)
    ensures |PrintNat(n)| > 1 ==> PrintNat(n)[0] != '0'
    ensures n > 0 ==> PrintNat(n)[0] != '0'
  {
    if n >= 10 { NoLeadingZero(n / 10); }
  }

  lemma NumberRead(n: int, rest: string)
    requires rest != "" && !IsDigit(rest[0])
    ensures ReadNumber(PrintInt(n) + rest) == Some(Read(JsonInt(n), rest))
  {
    var a := if n < 0 then -n else n;
    var digits := PrintNat(a);
    NoLeadingZero(a);
    ReadPrinted(a);
    DigitsTaken(digits, rest);
    var s := PrintInt(n) + rest;
    if n < 0 {
      MinusFirst(digits, rest);
      assert s[1..] == digits + rest;
    } else {
      assert s[0] == digits[0];
    }
    assert (digits + rest)[|digits|..] == rest;
  }

  ghost predicate Loadable(e: Entry, value: Json) {
    && AllLiteral(e.key) && e.sep != "" && e.sep[0] in ",}"
    && match value
       case JsonText(t) => e.Quoted? && e.value == t && AllLiteral(t)
       case JsonInt(n) => e.Bare? && e.value == PrintInt(n)
       case JsonTruth(_) => false
       case JsonEmpty => e.Bare? && e.value == "{}"
  }

  lemma SpaceSkipped(s: string)
    requires s != "" && !IsBlank(s[0])
    ensures SkipBlanks([' '] + s) == s && SkipBlanks(s) == s
  {
    assert ([' '] + s)[1..] == s;
  }

  lemma ValueRead(e: Entry, value: Json, text: string)
    requires Loadable(e, value)
    ensures var s := (if e.Quoted? then [QUOTE] + (e.value + ([QUOTE] + (e.sep + text))) else e.value + (e.sep + text));
      s != "" && !IsBlank(s[0]) && ReadValue(s) == Some(Read(value, e.sep + text))
  {
    var rest := e.sep + text;
    assert rest[0] == e.sep[0];
    match value {
      case JsonText(t) => QuotedRead(t, rest);
      case JsonInt(n) =>
        NumberRead(n, rest);
        PrintedIsPlain(n);
        assert (PrintInt(n) + rest)[0] == PrintInt(n)[0];
        NoTruthBefore(n, rest);
      case JsonEmpty =>
        var s := "{}" + rest;
        assert s[0] == '{' && s[1..] == "}" + rest && ("}" + rest)[1..] == rest;
    }
  }

  lemma NoTruthBefore(n: int, rest: string)
    ensures !("true" <= PrintInt(n) + rest) && !("false" <= PrintInt(n) + rest)
  {
    PrintedIsPlain(n);
    assert (PrintInt(n) + rest)[0] == PrintInt(n)[0];
  }

  /** A key in front of a value that reads. */
  lemma MemberRead(key: string, s: string, value: Json, rest: string)
    requires AllLiteral(key) && s != "" && !IsBlank(s[0]) && ReadValue(s) == Some(Read(value, rest))
    ensures var p := [QUOTE] + (key + ([QUOTE] + ([':'] + ([' '] + s))));
      ReadMember(p) == Some(Read(Member(key, value), rest)) && ReadMember([' '] + p) == ReadMember(p)
  {
    var colon := [':'] + ([' '] + s);
    var p := [QUOTE] + (key + ([QUOTE] + colon));
    QuotedRead(key, colon);
    SpaceSkipped(p);
    SpaceSkipped(s);
    ColonRead(colon, s, value, rest);
    MemberOf(p, key, colon, value, rest);
  }

  lemma ColonRead(colon: string, s: string, value: Json, rest: string)
    requires colon == [':'] + ([' '] + s) && SkipBlanks([' '] + s) == s && ReadValue(s) == Some(Read(value, rest))
    ensures SkipBlanks(colon) == colon && colon != "" && colon[0] == ':'
    ensures ReadValue(SkipBlanks(colon[1..])) == Some(Read(value, rest))
  {
    assert colon[1..] == [' '] + s;
  }

  lemma MemberOf(p: string, key: string, colon: string, value: Json, rest: string)
    requires SkipBlanks(p) == p && SkipBlanks([' '] + p) == p && ReadString(p) == Some(Read(key, colon))
    requires SkipBlanks(colon) == colon && colon != "" && colon[0] == ':'
    requires ReadValue(SkipBlanks(colon[1..])) == Some(Read(value, rest))
    ensures ReadMember(p) == Some(Read(Member(key, value), rest)) && ReadMember([' '] + p) == ReadMember(p)
  {
  }

  lemma EntryText(e: Entry, text: string)
    ensures var s := (if e.Quoted? then [QUOTE] + (e.value + ([QUOTE] + (e.sep + text))) else e.value + (e.sep + text));
      PrintEntry(e, text) == [QUOTE] + (e.key + ([QUOTE] + ([':'] + ([' '] + s))))
  {
    if e.Quoted? {
      ColonSpace([QUOTE] + (e.value + ([QUOTE] + (e.sep + text))));
    } else {
      assert ": " + e.value + e.sep + text == [':'] + ([' '] + (e.value + (e.sep + text)));
    }
  }

  lemma ColonSpace(s: string)
    ensures ": " + s == [':'] + ([' '] + s)
  {
  }

  lemma EntryLoaded(e: Entry, value: Json, text: string)
    requires Loadable(e, value)
    ensures ReadMember(PrintEntry(e, text)) == Some(Read(Member(e.key, value), e.sep + text))
    ensures ReadMember([' '] + PrintEntry(e, text)) == Some(Read(Member(e.key, value), e.sep + text))
  {
    var s := (if e.Quoted? then [QUOTE] + (e.value + ([QUOTE] + (e.sep + text))) else e.value + (e.sep + text));
    ValueRead(e, value, text);
    MemberRead(e.key, s, value, e.sep + text);
    EntryText(e, text);
  }

  /** The reader takes the entry for this member, with or without a space in front. */
  ghost predicate Reads(read: string -> Option<Read<Member>>, e: Entry, m: Member) {
    forall text: string ::
      && read(PrintEntry(e, text)) == Some(Read(m, e.sep + text))
      && read([' '] + PrintEntry(e, text)) == Some(Read(m, e.sep + text))
  }

  /** Entries separated by commas and closed by a brace. */
  ghost predicate Separated(entries: seq<Entry>) {
    forall i | 0 <= i < |entries| :: entries[i].sep == if i == |entries| - 1 then "}" else ", "
  }

  lemma LastMember(read: string -> Option<Read<Member>>, s: string, m: Member, rest: string)
    requires read(s) == Some(Read(m, ['}'] + rest)) && |s| > |rest|
    ensures ReadMembers(read, s) == Some(Read([m], rest))
  {
    CloserSkipped('}', rest);
  }

  lemma CloserSkipped(c: char, rest: string)
    requires !IsBlank(c)
    ensures SkipBlanks([c] + rest) == [c] + rest && ([c] + rest)[0] == c && ([c] + rest)[1..] == rest
  {
  }

  lemma OtherMember(read: string -> Option<Read<Member>>, s: string, m: Member, next: string, more: Read<seq<Member>>)
    requires read(s) == Some(Read(m, [','] + next)) && |s| > |next|
    requires ReadMembers(read, next) == Some(more)
    ensures ReadMembers(read, s) == Some(Read([m] + more.value, more.rest))
  {
    CloserSkipped(',', next);
  }

  lemma EntryReads(read: string -> Option<Read<Member>>, e: Entry, m: Member, lead: string, text: string)
    requires Reads(read, e, m) && (lead == "" || lead == [' '])
    ensures read(lead + PrintEntry(e, text)) == Some(Read(m, e.sep + text))
    ensures |lead + PrintEntry(e, text)| > |e.sep + text|
  {
    assert "" + PrintEntry(e, text) == PrintEntry(e, text);
  }

  lemma LastEntry(read: string -> Option<Read<Member>>, e: Entry, m: Member, lead: string)
    requires Reads(read, e, m) && e.sep == "}" && (lead == "" || lead == [' '])
    ensures ReadMembers(read, lead + PrintEntry(e, "")) == Some(Read([m], ""))
  {
    EntryReads(read, e, m, lead, "");
    LastMember(read, lead + PrintEntry(e, ""), m, "");
  }

  lemma OtherEntry(read: string -> Option<Read<Member>>, e: Entry, m: Member, lead: string, text: string,
      more: seq<Member>)
    requires Reads(read, e, m) && e.sep == ", " && (lead == "" || lead == [' '])
    requires ReadMembers(read, [' '] + text) == Some(Read(more, ""))
    ensures ReadMembers(read, lead + PrintEntry(e, text)) == Some(Read([m] + more, ""))
  {
    EntryReads(read, e, m, lead, text);
    assert ", " + text == [','] + ([' '] + text);
    OtherMember(read, lead + PrintEntry(e, text), m, [' '] + text, Read(more, ""));
  }

  lemma {:induction false} MembersLoaded(read: string -> Option<Read<Member>>, entries: seq<Entry>,
      members: seq<Member>, lead: string)
    requires entries != [] && |members| == |entries| && Separated(entries) && (lead == "" || lead == [' '])
    requires forall i | 0 <= i < |entries| :: Reads(read, entries[i], members[i])
    ensures ReadMembers(read, lead + PrintEntries(entries, "")) == Some(Read(members, ""))
    decreases |entries|
  {
    assert Reads(read, entries[0], members[0]);
    assert members == [members[0]] + members[1..];
    if |entries| == 1 {
      assert PrintEntries(entries[1..], "") == "" && members == [members[0]];
      assert PrintEntries(entries, "") == PrintEntry(entries[0], "");
      LastEntry(read, entries[0], members[0], lead);
    } else {
      MembersLoaded(read, entries[1..], members[1..], [' ']);
      OtherEntry(read, entries[0], members[0], lead, PrintEntries(entries[1..], ""), members[1..]);
    }
  }

  // ----------------------------------------------------------------- the routing header

  function HeaderMembers(h: Header): seq<Member> {
    [Member("method", JsonText(h.method_)), Member("url", JsonText(h.url)), Member("path", JsonText(h.path)),
     Member("headers", JsonEmpty), Member("query_string", JsonText(h.query)), Member("remote_addr", JsonText("")),
     Member("status_code", JsonInt(h.status)), Member("req_id_str", JsonText(h.reqId)),
     Member("source_worker", JsonText(h.source)), Member("dest_worker", JsonText(h.dest))]
  }

  predicate LiteralHeader(h: Header) {
    && AllLiteral(h.method_) && AllLiteral(h.url) && AllLiteral(h.path) && AllLiteral(h.query)
    && AllLiteral(h.reqId) && AllLiteral(h.source) && AllLiteral(h.dest)
  }

  lemma LiteralKeys()
    ensures forall key | key in KEYS[..5] :: AllLiteral(key)
    ensures forall key | key in KEYS[5..] :: AllLiteral(key)
  {
  }

  lemma HeaderEntryLoadable(h: Header, i: nat)
    requires LiteralHeader(h) && i < 10
    ensures var e, m := HeaderEntries(h, "", "}")[i], HeaderMembers(h)[i]; e.key == m.key && Loadable(e, m.value)
  {
    LiteralKeys();
    assert HeaderEntries(h, "", "}")[i].key == KEYS[i];
  }

  lemma HeaderEntryReads(h: Header, i: nat)
    requires LiteralHeader(h) && i < 10
    ensures Reads(ReadMember, HeaderEntries(h, "", "}")[i], HeaderMembers(h)[i])
  {
    var e, m := HeaderEntries(h, "", "}")[i], HeaderMembers(h)[i];
    HeaderEntryLoadable(h, i);
    forall text: string
      ensures ReadMember(PrintEntry(e, text)) == Some(Read(m, e.sep + text))
      ensures ReadMember([' '] + PrintEntry(e, text)) == Some(Read(m, e.sep + text))
    {
      EntryLoaded(e, m.value, text);
    }
  }

  /** json.loads of a header whose fields need no escaping: exactly its fields. */
  lemma HeaderLoads(h: Header)
    requires LiteralHeader(h)
    ensures Loads(Serialize(h, "")) == Some(Dict(HeaderMembers(h)))
  {
    var entries := HeaderEntries(h, "", "}");
    forall i | 0 <= i < 10 ensures Reads(ReadMember, entries[i], HeaderMembers(h)[i]) { HeaderEntryReads(h, i); }
    MembersLoaded(ReadMember, entries, HeaderMembers(h), "");
    var text := PrintEntries(entries, "");
    assert "" + text == text;
    OpensWithQuote(entries);
    ObjectLoads(text, HeaderMembers(h));
  }

  lemma OpensWithQuote(entries: seq<Entry>)
    requires entries != []
    ensures PrintEntries(entries, "") != "" && PrintEntries(entries, "")[0] == QUOTE
  {
  }

  lemma ObjectLoads(text: string, members: seq<Member>)
    requires text != "" && text[0] == QUOTE && ReadMembers(ReadMember, text) == Some(Read(members, ""))
    ensures Loads("{" + text) == Some(Dict(members))
  {
    CloserSkipped('{', text);
    CloserSkipped(QUOTE, text[1..]);
    assert text == [QUOTE] + text[1..] && "{" + text == ['{'] + text;
  }

  // ----------------------------------------------------------------- objects printed without white space

  /** `"key":value` and what follows. */
  function Tight(key: string, rest: string): string {
    [QUOTE] + (key + ([QUOTE] + ([':'] + rest)))
  }

  lemma TightMember(key: string, s: string, value: Json, rest: string)
    requires AllLiteral(key) && s != "" && !IsBlank(s[0]) && ReadValue(s) == Some(Read(value, rest))
    ensures ReadMember(Tight(key, s)) == Some(Read(Member(key, value), rest))
  {
    var colon := [':'] + s;
    QuotedRead(key, colon);
    CloserSkipped(QUOTE, key + ([QUOTE] + colon));
    CloserSkipped(':', s);
    CloserSkipped(s[0], s[1..]);
    assert s == [s[0]] + s[1..];
  }

  /** A member in front of others. */
  lemma TightOther(key: string, s: string, value: Json, next: string, more: seq<Member>)
    requires AllLiteral(key) && s != "" && !IsBlank(s[0])
    requires ReadValue(s) == Some(Read(value, [','] + next)) && ReadMembers(ReadMember, next) == Some(Read(more, ""))
    ensures ReadMembers(ReadMember, Tight(key, s)) == Some(Read([Member(key, value)] + more, ""))
  {
    TightMember(key, s, value, [','] + next);
    OtherMember(ReadMember, Tight(key, s), Member(key, value), next, Read(more, ""));
  }

  /** The last member. */
  lemma TightLast(key: string, s: string, value: Json)
    requires AllLiteral(key) && s != "" && !IsBlank(s[0]) && ReadValue(s) == Some(Read(value, "}"))
    ensures ReadMembers(ReadMember, Tight(key, s)) == Some(Read([Member(key, value)], ""))
  {
    assert "}" == ['}'] + "";
    TightMember(key, s, value, ['}'] + "");
    LastMember(ReadMember, Tight(key, s), Member(key, value), "");
  }

  /** An object that ends behind its only member, without the closing brace, does not load. */
  lemma Unclosed(key: string, s: string, value: Json)
    requires AllLiteral(key) && s != "" && !IsBlank(s[0]) && ReadValue(s) == Some(Read(value, ""))
    ensures Loads("{" + Tight(key, s)).None?
  {
    TightMember(key, s, value, "");
    CloserSkipped('{', Tight(key, s));
    CloserSkipped(QUOTE, key + ([QUOTE] + ([':'] + s)));
    assert "{" + Tight(key, s) == ['{'] + Tight(key, s);
  }

  lemma {:induction false} DictAt(members: seq<Member>, i: nat)
    requires i < |members| && forall j | i < j < |members| :: members[j].key != members[i].key
    ensures members[i].key in Dict(members) && Dict(members)[members[i].key] == members[i].value
    decreases |members|
  {
    if i < |members| - 1 { DictAt(members[..|members| - 1], i); }
  }

  /** What the sidecar routes by. */
  lemma RoutingFields(h: Header)
    ensures GetOr(Dict(HeaderMembers(h)), "url", "") == h.url
    ensures GetOr(Dict(HeaderMembers(h)), "dest_worker", "") == h.dest
  {
    var members := HeaderMembers(h);
    forall i, j | 0 <= i < j < 10 ensures members[i].key != members[j].key {
      assert members[i].key == KEYS[i] && members[j].key == KEYS[j];
      KeysDiffer(i, j);
    }
    DictAt(members, 1);
    DictAt(members, 9);
  }
}
