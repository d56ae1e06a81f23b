/** The combined body of a bridge request, {"header": {...}, "body": "..."}: printed by Python's json.dumps,
    taken apart by a scanner that counts braces and undoes escaped quotes. */
module Case2 {
  import opened Options
  import opened Text
  import opened HeaderJson

  // ----------------------------------------------------------------- printing

  /** Characters that json.dumps prints as they are (section 7 of RFC 8259). */
  predicate Ordinary(c: char) {
    ' ' <= c <= '~' && c != QUOTE && c != BACKSLASH
  }

  predicate AllOrdinary(s: string) {
    forall i | 0 <= i < |s| :: Ordinary(s[i])
  }

  function HexDigit(d: nat): (c: char)
    requires d < 16
    ensures Ordinary(c) && c != '{' && c != '}'
  {
    if d < 10 then '0' + d as char else 'a' + (d - 10) as char
  }

  /** The four hexadecimal digits of \uXXXX. */
  function UnicodeEscape(n: nat): (r: string)
    requires n < 0x1_0000
    ensures |r| == 6 && r[0] == BACKSLASH && forall i | 1 <= i < 6 :: Ordinary(r[i]) && r[i] != '{' && r[i] != '}'
  {
    [BACKSLASH, 'u', HexDigit(n / 4096), HexDigit(n / 256 % 16), HexDigit(n / 16 % 16), HexDigit(n % 16)]
  }

  /** What json.dumps makes of a character that is neither ordinary nor a quote. */
  function EscapeOdd(c: char): (r: string)
    requires !Ordinary(c) && c != QUOTE
    ensures 2 <= |r| <= 12 && r[0] == BACKSLASH && Without(r, QUOTE) && Without(r, '{') && Without(r, '}')
    ensures c != BACKSLASH ==> r[|r| - 1] != BACKSLASH
  {
    if c == BACKSLASH then [BACKSLASH, BACKSLASH]
    else if c == '\n' then [BACKSLASH, 'n']
    else if c == '\r' then [BACKSLASH, 'r']
    else if c == '\t' then [BACKSLASH, 't']
    else if c == 8 as char then [BACKSLASH, 'b']
    else if c == 12 as char then [BACKSLASH, 'f']
    else if c as int < 0x1_0000 then UnicodeEscape(c as int)
    else
      var n := c as int - 0x1_0000;
      UnicodeEscape(0xD800 + n / 1024 % 1024) + UnicodeEscape(0xDC00 + n % 1024)
  }

  function EscapeChar(c: char): (r: string)
    ensures r != "" && |r| <= 12
  {
    if Ordinary(c) then [c] else if c == QUOTE then [BACKSLASH, QUOTE] else EscapeOdd(c)
  }

  function Escape(s: string): string {
    if s == "" then "" else EscapeChar(s[0]) + Escape(s[1..])
  }

  /** What follows the header object. */
  function BodyText(body: string): string {
    [QUOTE] + ("body" + ([QUOTE] + (": " + ([QUOTE] + (Escape(body) + [QUOTE, '}'])))))
  }

  /** The header's fields as json.dumps prints them. */
  function EscapeHeader(h: Header): Header {
    h.(method_ := Escape(h.method_), url := Escape(h.url), path := Escape(h.path), query := Escape(h.query),
       reqId := Escape(h.reqId), source := Escape(h.source), dest := Escape(h.dest))
  }

  /** The header object of a bridge request. */
  function HeaderText(h: Header, remoteAddr: string): string {
    Serialize(EscapeHeader(h), Escape(remoteAddr))
  }

  /** The entries of the combined text, given fields already escaped. */
  function CombinedEntries(h: Header, remoteAddr: string): seq<Entry> {
    [Bare("header", "{", "")] + HeaderEntries(h, remoteAddr, "}, ")
  }

  function CombinedWith(h: Header, remoteAddr: string, body: string): string {
    "{" + PrintEntries(CombinedEntries(h, remoteAddr), BodyText(body))
  }

  function Combined(h: Header, remoteAddr: string, body: string): string {
    CombinedWith(EscapeHeader(h), Escape(remoteAddr), body)
  }

  // ----------------------------------------------------------------- parsing

  /** Characters up to the brace that closes depth `d`. */
  function Closing(s: string, d: nat): (n: nat)
    ensures n <= |s|
  {
    if s == "" || d == 0 then 0
    else 1 + Closing(s[1..], if s[0] == '{' then d + 1 else if s[0] == '}' then d - 1 else d)
  }

  /** The copy loop: stops at a quote that is first or does not follow a backslash. */
  function Unescape(s: string, prev: char, first: bool, room: nat): string
    decreases |s|
  {
    if s == "" || room == 0 then ""
    else if s[0] == QUOTE && (first || prev != BACKSLASH) then ""
    else if s[0] == BACKSLASH && |s| > 1 && s[1] == QUOTE then [QUOTE] + Unescape(s[2..], QUOTE, false, room - 1)
    else [s[0]] + Unescape(s[1..], s[0], false, room - 1)
  }

  datatype Parsed = Parsed(header: string, body: string)

  /** parse_case2_body; None is the -1 result. */
  function Parse(text: string, headerSize: nat, bodySize: nat): Option<Parsed>
    requires headerSize >= 1 && bodySize >= 1
  {
    var found := After(text, Pattern("header"));
    if found.None? then None
    else
      var p := SkipSpaces(found.value);
      if p == "" || p[0] != '{' then None
      else
        var header := Prefix(p[..1 + Closing(p[1..], 1)], headerSize - 1);
        Some(Parsed(header, ParseBody(text, bodySize)))
  }

  function ParseBody(text: string, bodySize: nat): string
    requires bodySize >= 1
  {
    var found := After(text, Pattern("body"));
    if found.None? then ""
    else
      var p := SkipSpaces(found.value);
      if p != "" && p[0] == QUOTE then Unescape(p[1..], QUOTE, true, bodySize - 1) else ""
  }

  /** The brace-counting loop. */
  method CountBraces(start: string) returns (n: nat)
    requires start != "" && start[0] == '{'
    ensures n == 1 + Closing(start[1..], 1)
  {
    var depth: nat;
    depth, n := 1, 1;
    while n < |start| && depth > 0
      invariant 1 <= n <= |start|
      invariant n + Closing(start[n..], depth) == 1 + Closing(start[1..], 1)
    {
      if start[n] == '{' { depth := depth + 1; }
      else if start[n] == '}' { depth := depth - 1; }
      n := n + 1;
      assert start[n - 1..][1..] == start[n..];
    }
  }

  /** One turn of the loop adds one character to what it has. */
  lemma UnescapeStep(p: string, prev: char, first: bool, room: nat, body: string)
    requires p != "" && room > 0 && !(p[0] == QUOTE && (first || prev != BACKSLASH))
    ensures body + Unescape(p, prev, first, room) ==
      if p[0] == BACKSLASH && |p| > 1 && p[1] == QUOTE then
        (body + [QUOTE]) + Unescape(p[2..], QUOTE, false, room - 1)
      else (body + [p[0]]) + Unescape(p[1..], p[0], false, room - 1)
  {
  }

  /** The copy loop. */
  method CopyBody(text: string, room: nat) returns (body: string)
    ensures body == Unescape(text, QUOTE, true, room)
  {
    body := "";
    var p, prev := text, QUOTE;
    while p != "" && |body| < room && !(p[0] == QUOTE && (body == "" || prev != BACKSLASH))
      invariant |body| <= room
      invariant body + Unescape(p, prev, body == "", room - |body|) == Unescape(text, QUOTE, true, room)
      decreases |p|
    {
      UnescapeStep(p, prev, body == "", room - |body|, body);
      if p[0] == BACKSLASH && |p| > 1 && p[1] == QUOTE {
        body, prev, p := body + [QUOTE], QUOTE, p[2..];
      } else {
        body, prev, p := body + [p[0]], p[0], p[1..];
      }
    }
  }

  /** parse_case2_body with its loops. */
  method ScanCombined(text: string, headerSize: nat, bodySize: nat) returns (ok: bool, header: string, body: string)
    requires headerSize >= 1 && bodySize >= 1
    ensures ok == Parse(text, headerSize, bodySize).Some?
    ensures ok ==> Parsed(header, body) == Parse(text, headerSize, bodySize).value
  {
    ok, header, body := false, "", "";
    var found := After(text, Pattern("header"));
    if found.None? {
      return;
    }
    var start := SkipSpaces(found.value);
    if start == "" || start[0] != '{' {
      return;
    }
    var n := CountBraces(start);
    ok, header := true, Prefix(start[..n], headerSize - 1);
    found := After(text, Pattern("body"));
    if found.Some? {
      var p := SkipSpaces(found.value);
      if p != "" && p[0] == QUOTE {
        body := CopyBody(p[1..], bodySize - 1);
      }
    }
  }

  // ----------------------------------------------------------------- the body

  lemma TwoInFront(a: char, b: char, t: string)
    ensures ([a, b] + t)[0] == a && ([a, b] + t)[1] == b && |[a, b] + t| > 1
    ensures ([a, b] + t)[2..] == t && ([a, b] + t)[1..] == [b] + t
  {
  }

  lemma OneInFront(a: char, t: string)
    ensures ([a] + t)[0] == a && ([a] + t)[1..] == t && [a] + t != ""
  {
  }

  lemma EscapeCons(body: string, rest: string)
    requires body != ""
    ensures Escape(body) + rest == EscapeChar(body[0]) + (Escape(body[1..]) + rest)
  {
  }

  /** Characters that the copy loop gives back. */
  predicate Survives(c: char) {
    Ordinary(c) || c == QUOTE
  }

  predicate AllSurvive(s: string) {
    forall i | 0 <= i < |s| :: Survives(s[i])
  }

  /** The copy loop undoes the escaping of quotes and stops at the closing quote. */
  lemma {:induction false} UnescapeEscaped(body: string, rest: string, prev: char, first: bool, room: nat)
    requires AllSurvive(body) && (first || prev != BACKSLASH)
    requires rest != "" && rest[0] == QUOTE
    ensures Unescape(Escape(body) + rest, prev, first, room) == Prefix(body, room)
    decreases |body|
  {
    if body == "" {
      assert Escape(body) + rest == rest;
    } else if room > 0 {
      var tail := Escape(body[1..]) + rest;
      PrefixCons(body, room);
      EscapeCons(body, rest);
      assert Survives(body[0]);
      if body[0] == QUOTE {
        UnescapeEscaped(body[1..], rest, QUOTE, false, room - 1);
        TwoInFront(BACKSLASH, QUOTE, tail);
      } else {
        UnescapeEscaped(body[1..], rest, body[0], false, room - 1);
        OneInFront(body[0], tail);
      }
    }
  }

  /** Text without quotes that does not end in a backslash is copied as it is. */
  lemma {:induction false} CopiedRaw(e: string, rest: string, prev: char, first: bool, room: nat)
    requires e != "" && Without(e, QUOTE) && e[|e| - 1] != BACKSLASH && |e| <= room
    ensures Unescape(e + rest, prev, first, room) == e + Unescape(rest, e[|e| - 1], false, room - |e|)
    decreases |e|
  {
    ConsTail(e, rest);
    if |e| == 1 {
      assert e[1..] + rest == rest && e == [e[0]];
    } else {
      assert (e + rest)[1] == e[1];
      CopiedRaw(e[1..], rest, e[0], false, room - 1);
      assert e == [e[0]] + e[1..];
    }
  }

  /** What is copied of a body: quotes without their backslashes, every other escape as it was printed, and behind a
      last backslash the closing quote, with the brace after it. */
  function ReadBack(body: string): string {
    if body == "" then ""
    else if body == [BACKSLASH] then [BACKSLASH, QUOTE, '}']
    else (if body[0] == QUOTE then [QUOTE] else EscapeChar(body[0])) + ReadBack(body[1..])
  }

  /** A character that opens no escaped quote is copied. */
  lemma CopiedOne(c: char, t: string, prev: char, first: bool, room: nat)
    requires c != QUOTE && (c == BACKSLASH ==> t == "" || t[0] != QUOTE)
    ensures Unescape([c] + t, prev, first, room) == if room == 0 then "" else [c] + Unescape(t, c, false, room - 1)
  {
    OneInFront(c, t);
    if t != "" { assert ([c] + t)[1] == t[0]; }
  }

  lemma CutCons(c: char, t: string, n: nat)
    requires 0 < n <= |t| + 1
    ensures ([c] + t)[..n] == [c] + t[..n - 1]
  {
  }

  lemma {:induction false} CopiedPart(e: string, rest: string, prev: char, first: bool, room: nat)
    requires Without(e, QUOTE) && room < |e|
    ensures Unescape(e + rest, prev, first, room) == e[..room]
    decreases |e|
  {
    if room > 0 {
      var c, more := e[0], e[1..];
      assert e == [c] + more && e + rest == [c] + (more + rest);
      assert (more + rest)[0] == more[0] == e[1];
      CopiedOne(c, more + rest, prev, first, room);
      CopiedPart(more, rest, c, false, room - 1);
      CutCons(c, more, room);
    }
  }

  lemma CopiedCut(e: string, rest: string, prev: char, first: bool, room: nat)
    requires e != "" && Without(e, QUOTE) && e[|e| - 1] != BACKSLASH
    ensures Unescape(e + rest, prev, first, room) ==
      if room < |e| then e[..room] else e + Unescape(rest, e[|e| - 1], false, room - |e|)
  {
    if room < |e| { CopiedPart(e, rest, prev, first, room); } else { CopiedRaw(e, rest, prev, first, room); }
  }

  /** Two backslashes in front of no quote are copied. */
  lemma TwoCopied(tail: string, prev: char, first: bool, room: nat)
    requires tail != "" && tail[0] != QUOTE
    ensures Unescape([BACKSLASH, BACKSLASH] + tail, prev, first, room) ==
      if room < 2 then [BACKSLASH, BACKSLASH][..room]
      else [BACKSLASH, BACKSLASH] + Unescape(tail, BACKSLASH, false, room - 2)
  {
    var t := [BACKSLASH] + tail;
    assert [BACKSLASH, BACKSLASH] + tail == [BACKSLASH] + t;
    CopiedOne(BACKSLASH, t, prev, first, room);
    if room > 0 { CopiedOne(BACKSLASH, tail, BACKSLASH, false, room - 1); }
    if room == 1 { assert [BACKSLASH] + "" == [BACKSLASH, BACKSLASH][..1]; }
    if room >= 2 { TwoBackslashes(Unescape(tail, BACKSLASH, false, room - 2)); }
  }

  lemma TwoBackslashes(t: string)
    ensures [BACKSLASH] + ([BACKSLASH] + t) == [BACKSLASH, BACKSLASH] + t
  {
  }

  lemma PrefixAppend(a: string, b: string, n: nat)
    ensures Prefix(a + b, n) == if n < |a| then a[..n] else a + Prefix(b, n - |a|)
  {
  }

  lemma ReadBackCons(body: string)
    requires body != "" && body != [BACKSLASH]
    ensures ReadBack(body) == (if body[0] == QUOTE then [QUOTE] else EscapeChar(body[0])) + ReadBack(body[1..])
  {
  }

  /** For every body and every buffer, the copy loop gives exactly that. */
  lemma {:induction false} UnescapeIs(body: string, prev: char, first: bool, room: nat)
    requires body == "" ==> first || prev != BACKSLASH
    ensures Unescape(Escape(body) + [QUOTE, '}'], prev, first, room) == Prefix(ReadBack(body), room)
    decreases |body|, 1
  {
    if body == "" {
      assert Escape(body) + [QUOTE, '}'] == [QUOTE, '}'];
    } else if body[0] == BACKSLASH {
      BackslashIs(body, prev, first, room);
    } else if body[0] == QUOTE {
      QuoteIs(body, prev, first, room);
    } else {
      RawIs(body, prev, first, room);
    }
  }

  lemma {:induction false} QuoteIs(body: string, prev: char, first: bool, room: nat)
    requires body != "" && body[0] == QUOTE
    ensures Unescape(Escape(body) + [QUOTE, '}'], prev, first, room) == Prefix(ReadBack(body), room)
    decreases |body|, 0
  {
    var tail := Escape(body[1..]) + [QUOTE, '}'];
    EscapeCons(body, [QUOTE, '}']);
    TwoInFront(BACKSLASH, QUOTE, tail);
    ReadBackCons(body);
    PrefixAppend([QUOTE], ReadBack(body[1..]), room);
    if room > 0 { UnescapeIs(body[1..], QUOTE, false, room - 1); }
  }

  lemma {:induction false} RawIs(body: string, prev: char, first: bool, room: nat)
    requires body != "" && body[0] != QUOTE && body[0] != BACKSLASH
    ensures Unescape(Escape(body) + [QUOTE, '}'], prev, first, room) == Prefix(ReadBack(body), room)
    decreases |body|, 0
  {
    var e := EscapeChar(body[0]);
    EscapeCons(body, [QUOTE, '}']);
    CopiedCut(e, Escape(body[1..]) + [QUOTE, '}'], prev, first, room);
    ReadBackCons(body);
    PrefixAppend(e, ReadBack(body[1..]), room);
    if room >= |e| { UnescapeIs(body[1..], e[|e| - 1], false, room - |e|); }
  }

  lemma LastBackslash(prev: char, first: bool, room: nat)
    ensures Unescape([BACKSLASH, BACKSLASH] + [QUOTE, '}'], prev, first, room)
         == Prefix([BACKSLASH, QUOTE, '}'], room)
  {
    TwoInFront(BACKSLASH, BACKSLASH, [QUOTE, '}']);
    TwoInFront(BACKSLASH, QUOTE, ['}']);
    assert [BACKSLASH] + [QUOTE, '}'] == [BACKSLASH, QUOTE] + ['}'];
    if room > 0 { AfterBackslash(room - 1); }
    if 0 < room <= 3 { assert [BACKSLASH] + Prefix([QUOTE, '}'], room - 1) == Prefix([BACKSLASH, QUOTE, '}'], room); }
  }

  lemma AfterBackslash(room: nat)
    ensures Unescape([BACKSLASH, QUOTE] + ['}'], BACKSLASH, false, room) == Prefix([QUOTE, '}'], room)
  {
    TwoInFront(BACKSLASH, QUOTE, ['}']);
    assert ['}'][1..] == "";
    if room == 1 { assert Prefix([QUOTE, '}'], room) == [QUOTE]; }
    if room >= 2 { assert Unescape(['}'], QUOTE, false, room - 1) == ['}'] + Unescape("", '}', false, room - 2); }
  }

  lemma BackslashDoubles(body: string, rest: string)
    requires body != "" && body[0] == BACKSLASH
    ensures Escape(body) + rest == [BACKSLASH, BACKSLASH] + (Escape(body[1..]) + rest)
    ensures body[1..] != "" ==> ReadBack(body) == [BACKSLASH, BACKSLASH] + ReadBack(body[1..])
  {
    EscapeCons(body, rest);
    if body[1..] != "" { ReadBackCons(body); }
  }

  lemma NoQuoteFirst(body: string, rest: string)
    requires body != ""
    ensures Escape(body) + rest != "" && (Escape(body) + rest)[0] != QUOTE
  {
    EscapeCons(body, rest);
    assert (Escape(body) + rest)[0] == EscapeChar(body[0])[0];
  }

  lemma {:induction false} BackslashIs(body: string, prev: char, first: bool, room: nat)
    requires body != "" && body[0] == BACKSLASH
    ensures Unescape(Escape(body) + [QUOTE, '}'], prev, first, room) == Prefix(ReadBack(body), room)
    decreases |body|, 0
  {
    var rest := body[1..];
    BackslashDoubles(body, [QUOTE, '}']);
    if rest == "" {
      assert body == [BACKSLASH] && Escape(rest) + [QUOTE, '}'] == [QUOTE, '}'];
      LastBackslash(prev, first, room);
    } else {
      NoQuoteFirst(rest, [QUOTE, '}']);
      TwoCopied(Escape(rest) + [QUOTE, '}'], prev, first, room);
      PrefixAppend([BACKSLASH, BACKSLASH], ReadBack(rest), room);
      if room >= 2 { UnescapeIs(rest, BACKSLASH, false, room - 2); }
    }
  }

  lemma SurvivesCons(body: string)
    requires body != ""
    ensures AllSurvive(body) <==> Survives(body[0]) && AllSurvive(body[1..])
  {
    assert body == [body[0]] + body[1..];
  }

  /** With any other character the copy comes out longer than the body. */
  lemma {:induction false} UnescapeGrows(body: string, prev: char, first: bool, room: nat)
    requires room >= 12 * |body| + 3
    requires body != "" || first || prev != BACKSLASH
    ensures |Unescape(Escape(body) + [QUOTE, '}'], prev, first, room)| >= |body| + (if AllSurvive(body) then 0 else 1)
    decreases |body|, 0
  {
    if body != "" {
      var rest := body[1..];
      var tail := Escape(rest) + [QUOTE, '}'];
      assert body == [body[0]] + rest;
      EscapeCons(body, [QUOTE, '}']);
      SurvivesCons(body);
      if body[0] == QUOTE {
        TwoInFront(BACKSLASH, QUOTE, tail);
        UnescapeGrows(rest, QUOTE, false, room - 1);
      } else if body[0] == BACKSLASH {
        BackslashGrows(rest, prev, first, room);
      } else {
        RawGrows(body[0], rest, prev, first, room);
      }
    }
  }

  /** Any other character is copied as it was printed. */
  lemma {:induction false} RawGrows(c: char, rest: string, prev: char, first: bool, room: nat)
    requires c != QUOTE && c != BACKSLASH && room >= 12 * |rest| + 15
    ensures |Unescape(EscapeChar(c) + (Escape(rest) + [QUOTE, '}']), prev, first, room)|
         >= |rest| + 1 + (if Ordinary(c) && AllSurvive(rest) then 0 else 1)
    decreases |rest|, 1
  {
    var e := EscapeChar(c);
    CopiedRaw(e, Escape(rest) + [QUOTE, '}'], prev, first, room);
    UnescapeGrows(rest, e[|e| - 1], false, room - |e|);
  }

  /** A doubled backslash is copied as two, or eats the closing quote. */
  lemma {:induction false} BackslashGrows(rest: string, prev: char, first: bool, room: nat)
    requires room >= 12 * |rest| + 15
    ensures |Unescape([BACKSLASH, BACKSLASH] + (Escape(rest) + [QUOTE, '}']), prev, first, room)| >= |rest| + 2
    decreases |rest|, 1
  {
    var tail := Escape(rest) + [QUOTE, '}'];
    TwoInFront(BACKSLASH, BACKSLASH, tail);
    OneInFront(BACKSLASH, tail);
    if rest == "" {
      assert tail == [QUOTE, '}'];
      assert ([BACKSLASH] + tail)[2..] == ['}'];
    } else {
      EscapeCons(rest, [QUOTE, '}']);
      assert tail[0] == EscapeChar(rest[0])[0] != QUOTE;
      UnescapeGrows(rest, BACKSLASH, false, room - 2);
    }
  }

  /** The pieces of what follows the header object. */
  function BodyParts(body: string): seq<string> {
    ["body", ": "] + Split(Escape(body) + [QUOTE, '}'], QUOTE)
  }

  lemma BodyPartsJoin(body: string)
    ensures Tail(BodyParts(body)) == BodyText(body) && QuoteFree(BodyParts(body))
  {
    var text := Escape(body) + [QUOTE, '}'];
    var pieces := Split(text, QUOTE);
    JoinSplit(text);
    JoinCons(": ", pieces);
    JoinCons("body", [": "] + pieces);
    assert BodyParts(body) == ["body"] + ([": "] + pieces);
  }

  lemma CombinedIsPlain(h: Header, remoteAddr: string)
    requires GuardedHeader(h) && Guarded(remoteAddr)
    ensures PlainEntries(CombinedEntries(h, remoteAddr))
    ensures Locate(CombinedEntries(h, remoteAddr), "body") == None
    ensures Locate(CombinedEntries(h, remoteAddr), "header") == Some(CombinedEntries(h, remoteAddr))
  {
    HeaderIsPlain(h, remoteAddr, "}, ");
    assert PlainEntry(Bare("header", "{", ""));
    var entries := CombinedEntries(h, remoteAddr);
    assert forall i | 0 < i < |entries| :: entries[i] == HeaderEntries(h, remoteAddr, "}, ")[i - 1];
    LocateNone(entries, "body");
  }

  /** Behind the entries the first key is the body's. */
  lemma BodySought(body: string)
    ensures Seek([""] + BodyParts(body), "body") == Some([": "] + Split(Escape(body) + [QUOTE, '}'], QUOTE))
  {
    var more := BodyParts(body);
    SeekStep([""] + more, "body");
    assert ([""] + more)[2..] == [": "] + Split(Escape(body) + [QUOTE, '}'], QUOTE);
  }

  /** The search for the body finds the real key, not a header value. */
  lemma BodyFound(h: Header, remoteAddr: string, body: string)
    requires GuardedHeader(h) && Guarded(remoteAddr)
    ensures After(CombinedWith(h, remoteAddr, body), Pattern("body"))
         == Some([' '] + ([QUOTE] + (Escape(body) + [QUOTE, '}'])))
  {
    var text := Escape(body) + [QUOTE, '}'];
    BodyPartsJoin(body);
    CombinedIsPlain(h, remoteAddr);
    BodyKeyPlain();
    SearchEntries(CombinedEntries(h, remoteAddr), "{", BodyParts(body), "body");
    BodySought(body);
    PiecesBehindColon(text);
  }

  lemma BodyKeyPlain()
    ensures PlainKey("body")
  {
  }

  lemma PiecesBehindColon(text: string)
    ensures Join([": "] + Split(text, QUOTE))[1..] == [' '] + ([QUOTE] + text)
  {
    JoinSplit(text);
    JoinCons(": ", Split(text, QUOTE));
    AfterColon(text);
  }

  // ----------------------------------------------------------------- the header

  /** Text the brace counter passes over. */
  ghost predicate Neutral(a: string) {
    forall rest: string, d: nat | d >= 1 :: Closing(a + rest, d) == |a| + Closing(rest, d)
  }

  lemma {:induction false} FreeIsNeutral(a: string, rest: string, d: nat)
    requires Without(a, '{') && Without(a, '}') && d >= 1
    ensures Closing(a + rest, d) == |a| + Closing(rest, d)
  {
    if a == "" {
      assert a + rest == rest;
    } else {
      ConsTail(a, rest);
      FreeIsNeutral(a[1..], rest, d);
    }
  }

  lemma BraceFree(a: string)
    requires Without(a, '{') && Without(a, '}')
    ensures Neutral(a)
  {
    forall rest: string, d: nat | d >= 1 ensures Closing(a + rest, d) == |a| + Closing(rest, d) {
      FreeIsNeutral(a, rest, d);
    }
  }

  lemma Braces()
    ensures Neutral("{}")
  {
    forall rest: string, d: nat | d >= 1 ensures Closing("{}" + rest, d) == 2 + Closing(rest, d) {
      TwoInFront('{', '}', rest);
      OneInFront('}', rest);
    }
  }

  lemma NeutralConcat(a: string, b: string)
    requires Neutral(a) && Neutral(b)
    ensures Neutral(a + b)
  {
    forall rest: string, d: nat | d >= 1 ensures Closing(a + b + rest, d) == |a + b| + Closing(rest, d) {
      assert a + b + rest == a + (b + rest);
    }
  }

  ghost predicate NeutralEntry(e: Entry) {
    Neutral(e.key) && Neutral(e.value) && Neutral(e.sep)
  }

  lemma PrintedEntryNeutral(e: Entry, rest: string)
    requires NeutralEntry(e) && Neutral(rest)
    ensures Neutral(PrintEntry(e, rest))
  {
    BraceFree([QUOTE]);
    BraceFree(": ");
    NeutralConcat(e.sep, rest);
    if e.Quoted? {
      var a := [QUOTE] + (e.sep + rest);
      NeutralConcat([QUOTE], e.sep + rest);
      NeutralConcat(e.value, a);
      NeutralConcat([QUOTE], e.value + a);
      NeutralConcat(": ", [QUOTE] + (e.value + a));
      var b := ": " + ([QUOTE] + (e.value + a));
      NeutralConcat([QUOTE], b);
      NeutralConcat(e.key, [QUOTE] + b);
      NeutralConcat([QUOTE], e.key + ([QUOTE] + b));
    } else {
      NeutralConcat(": ", e.value);
      NeutralConcat(": " + e.value, e.sep);
      var b := ": " + e.value + e.sep + rest;
      NeutralConcat(": " + e.value + e.sep, rest);
      NeutralConcat([QUOTE], b);
      NeutralConcat(e.key, [QUOTE] + b);
      NeutralConcat([QUOTE], e.key + ([QUOTE] + b));
    }
  }

  lemma {:induction false} PrintedNeutral(entries: seq<Entry>)
    requires forall i | 0 <= i < |entries| :: NeutralEntry(entries[i])
    ensures Neutral(PrintEntries(entries, ""))
  {
    if entries == [] {
      BraceFree("");
    } else {
      PrintedNeutral(entries[1..]);
      PrintedEntryNeutral(entries[0], PrintEntries(entries[1..], ""));
    }
  }

  lemma Assoc(a: string, b: string, c: string)
    ensures a + (b + c) == (a + b) + c
  {
  }

  lemma EntryAppend(e: Entry, a: string, b: string)
    ensures PrintEntry(e, a + b) == PrintEntry(e, a) + b
  {
    var t1 := e.sep + a;
    Assoc(e.sep, a, b);
    if e.Quoted? {
      var t2 := [QUOTE] + t1;
      Assoc([QUOTE], t1, b);
      var t3 := e.value + t2;
      Assoc(e.value, t2, b);
      var t4 := [QUOTE] + t3;
      Assoc([QUOTE], t3, b);
      var t5 := ": " + t4;
      Assoc(": ", t4, b);
      KeyAppend(e.key, t5, b);
    } else {
      Assoc(": " + e.value + e.sep, a, b);
      KeyAppend(e.key, ": " + e.value + e.sep + a, b);
    }
  }

  lemma KeyAppend(key: string, t: string, b: string)
    ensures [QUOTE] + (key + ([QUOTE] + (t + b))) == ([QUOTE] + (key + ([QUOTE] + t))) + b
  {
    Assoc([QUOTE], t, b);
    Assoc(key, [QUOTE] + t, b);
    Assoc([QUOTE], key + ([QUOTE] + t), b);
  }

  lemma {:induction false} EntriesAppend(entries: seq<Entry>, a: string, b: string)
    ensures PrintEntries(entries, a + b) == PrintEntries(entries, a) + b
  {
    if entries != [] {
      EntriesAppend(entries[1..], a, b);
      EntryAppend(entries[0], PrintEntries(entries[1..], a), b);
    }
  }

  lemma {:induction false} EntriesSnoc(entries: seq<Entry>, e: Entry, rest: string)
    ensures PrintEntries(entries + [e], rest) == PrintEntries(entries, PrintEntry(e, rest))
  {
    if entries == [] {
      assert entries + [e] == [e];
      assert PrintEntries([e], rest) == PrintEntry(e, PrintEntries([e][1..], rest));
    } else {
      EntriesSnoc(entries[1..], e, rest);
      assert (entries + [e])[1..] == entries[1..] + [e];
      assert (entries + [e])[0] == entries[0];
    }
  }

  /** The closing punctuation of the last entry can be read as what follows it. */
  lemma CloseMoves(h: Header, remoteAddr: string, close: string, rest: string)
    ensures PrintEntries(HeaderEntries(h, remoteAddr, close), rest) == PrintEntries(HeaderEntries(h, remoteAddr, ""),
      "") + (close + rest)
  {
    var init := HeaderEntries(h, remoteAddr, "")[..9];
    var last, last' := Quoted("dest_worker", h.dest, close), Quoted("dest_worker", h.dest, "");
    assert HeaderEntries(h, remoteAddr, close) == init + [last];
    assert HeaderEntries(h, remoteAddr, "") == init + [last'];
    EntriesSnoc(init, last, rest);
    EntriesSnoc(init, last', "" + (close + rest));
    assert "" + (close + rest) == close + rest;
    EntriesAppend(HeaderEntries(h, remoteAddr, ""), "", close + rest);
  }

  ghost predicate BraceFreeHeader(h: Header) {
    forall s | s in [h.method_, h.url, h.path, h.query, h.reqId, h.source, h.dest] :: BraceFreeText(s)
  }

  lemma BraceFreeEntry(e: Entry)
    requires Without(e.key, '{') && Without(e.key, '}') && Without(e.sep, '{') && Without(e.sep, '}')
    requires (Without(e.value, '{') && Without(e.value, '}')) || e.value == "{}"
    ensures NeutralEntry(e)
  {
    BraceFree(e.key);
    BraceFree(e.sep);
    if e.value == "{}" { Braces(); } else { BraceFree(e.value); }
  }

  predicate BraceFreeText(s: string) {
    Without(s, '{') && Without(s, '}')
  }

  lemma BraceFreeKeys()
    ensures forall key | key in ["method", "url", "path", "headers", "query_string"] :: BraceFreeText(key)
    ensures forall key | key in ["remote_addr", "status_code", "req_id_str", "source_worker",
      "dest_worker"] :: BraceFreeText(key)
  {
  }

  lemma HeaderKeysBraceFree(h: Header, remoteAddr: string, i: nat)
    requires i < 10
    ensures var e := HeaderEntries(h, remoteAddr, "")[i]; BraceFreeText(e.key) && BraceFreeText(e.sep)
  {
    var e := HeaderEntries(h, remoteAddr, "")[i];
    BraceFreeKeys();
    if i < 5 {
      assert e.key in ["method", "url", "path", "headers", "query_string"];
    } else {
      assert e.key in ["remote_addr", "status_code", "req_id_str", "source_worker", "dest_worker"];
    }
    assert e.sep == ", " || e.sep == "";
  }

  lemma HeaderValuesBraceFree(h: Header, remoteAddr: string, i: nat)
    requires BraceFreeHeader(h) && BraceFreeText(remoteAddr) && i < 10
    ensures var e := HeaderEntries(h, remoteAddr, "")[i]; BraceFreeText(e.value) || e.value == "{}"
  {
    PrintedIsPlain(h.status);
    assert BraceFreeText(PrintInt(h.status));
  }

  lemma HeaderNeutral(h: Header, remoteAddr: string)
    requires BraceFreeHeader(h) && BraceFreeText(remoteAddr)
    ensures forall i | 0 <= i < 10 :: NeutralEntry(HeaderEntries(h, remoteAddr, "")[i])
  {
    forall i | 0 <= i < 10 ensures NeutralEntry(HeaderEntries(h, remoteAddr, "")[i]) {
      HeaderKeysBraceFree(h, remoteAddr, i);
      HeaderValuesBraceFree(h, remoteAddr, i);
      BraceFreeEntry(HeaderEntries(h, remoteAddr, "")[i]);
    }
  }

  /** The search for the header finds the object, and the brace counter its whole text. */
  lemma HeaderFound(h: Header, remoteAddr: string, body: string)
    requires GuardedHeader(h) && Guarded(remoteAddr)
    requires BraceFreeHeader(h) && BraceFreeText(remoteAddr)
    ensures var found := After(CombinedWith(h, remoteAddr, body), Pattern("header"));
      && found.Some?
      && var p := SkipSpaces(found.value);
         && p != "" && p[0] == '{'
         && p[..1 + Closing(p[1..], 1)] == Serialize(h, remoteAddr)
  {
    var entries := CombinedEntries(h, remoteAddr);
    var inner := HeaderEntries(h, remoteAddr, "}, ");
    var more := BodyParts(body);
    BodyPartsJoin(body);
    CombinedIsPlain(h, remoteAddr);
    assert PlainKey("header");
    SearchEntries(entries, "{", more, "header");
    assert entries[1..] == inner;
    PartsArePrinted(inner, ": " + "{" + "", more);
    var text := PrintEntries(inner, BodyText(body));
    ObjectFollows(text);
    var plain := PrintEntries(HeaderEntries(h, remoteAddr, ""), "");
    CloseMoves(h, remoteAddr, "}, ", BodyText(body));
    CloseMoves(h, remoteAddr, "}", "");
    HeaderNeutral(h, remoteAddr);
    PrintedNeutral(HeaderEntries(h, remoteAddr, ""));
    ObjectEnds(plain, "}, " + BodyText(body));
  }

  lemma ObjectFollows(text: string)
    ensures (": " + "{" + "" + text)[1..] == [' '] + (['{'] + text)
    ensures SkipSpaces([' '] + (['{'] + text)) == ['{'] + text
    ensures (['{'] + text)[1..] == text
  {
    OneInFront(' ', ['{'] + text);
    OneInFront('{', text);
  }

  lemma ObjectEnds(plain: string, rest: string)
    requires Neutral(plain) && rest != "" && rest[0] == '}'
    ensures var p := ['{'] + (plain + rest);
      p[1..] == plain + rest && p[..1 + Closing(plain + rest, 1)] == "{" + (plain + ("}" + ""))
  {
    assert Closing(rest, 1) == 1;
    var p := ['{'] + (plain + rest);
    assert p == "{" + (plain + "}") + rest[1..] by { assert rest == "}" + rest[1..]; }
  }

  lemma ParseWhenFound(text: string, headerSize: nat, bodySize: nat, header: string)
    requires headerSize >= 1 && bodySize >= 1
    requires var found := After(text, Pattern("header"));
      && found.Some?
      && var p := SkipSpaces(found.value); p != "" && p[0] == '{' && p[..1 + Closing(p[1..], 1)] == header
    ensures Parse(text, headerSize, bodySize) == Some(Parsed(Prefix(header, headerSize - 1), ParseBody(text, bodySize)))
  {
  }

  lemma BodyComesOut(h: Header, remoteAddr: string, body: string, bodySize: nat)
    requires GuardedHeader(h) && Guarded(remoteAddr) && bodySize >= 1
    ensures ParseBody(CombinedWith(h, remoteAddr, body), bodySize)
         == Unescape(Escape(body) + [QUOTE, '}'], QUOTE, true, bodySize - 1)
  {
    BodyFound(h, remoteAddr, body);
    AfterColon(Escape(body) + [QUOTE, '}']);
  }

  // ----------------------------------------------------------------- escaped text

  lemma SplitLonger(e: string, text: string)
    requires Without(e, QUOTE)
    ensures var r := Split(text, QUOTE); Split(e + text, QUOTE) == [e + r[0]] + r[1..]
    decreases |e|
  {
    var r := Split(text, QUOTE);
    if e == "" {
      assert e + text == text && e + r[0] == r[0] && [r[0]] + r[1..] == r;
    } else {
      ConsTail(e, text);
      SplitLonger(e[1..], text);
      assert [e[0]] + (e[1..] + r[0]) == e + r[0];
    }
  }

  /** json.dumps puts a backslash before every quote. */
  lemma {:induction false} EscapeIsGuarded(s: string)
    ensures Guarded(Escape(s))
  {
    if s != "" {
      var text := Escape(s[1..]);
      var r := Split(text, QUOTE);
      EscapeIsGuarded(s[1..]);
      if s[0] == QUOTE {
        SplitCons([BACKSLASH], QUOTE, text);
        assert [BACKSLASH, QUOTE] + text == [BACKSLASH] + ([QUOTE] + text);
      } else {
        SplitLonger(EscapeChar(s[0]), text);
      }
    }
  }

  lemma {:induction false} EscapeKeepsBracesOut(s: string)
    requires BraceFreeText(s)
    ensures BraceFreeText(Escape(s))
  {
    if s != "" { EscapeKeepsBracesOut(s[1..]); }
  }

  lemma HeaderIsGuarded(h: Header)
    ensures GuardedHeader(EscapeHeader(h))
  {
    EscapeIsGuarded(h.method_);
    EscapeIsGuarded(h.url);
    EscapeIsGuarded(h.path);
    EscapeIsGuarded(h.query);
    EscapeIsGuarded(h.reqId);
    EscapeIsGuarded(h.source);
    EscapeIsGuarded(h.dest);
  }

  lemma HeaderIsBraceFree(h: Header)
    requires BraceFreeHeader(h)
    ensures BraceFreeHeader(EscapeHeader(h))
  {
    EscapeKeepsBracesOut(h.method_);
    EscapeKeepsBracesOut(h.url);
    EscapeKeepsBracesOut(h.path);
    EscapeKeepsBracesOut(h.query);
    EscapeKeepsBracesOut(h.reqId);
    EscapeKeepsBracesOut(h.source);
    EscapeKeepsBracesOut(h.dest);
  }

  // ----------------------------------------------------------------- round trips

  /** Print and take apart, for every header without braces and every body: the header object's text comes back
      whole, cut to its buffer; a body of ordinary characters and quotes comes back exactly, cut to its own. */
  lemma CombinedRoundTrip(h: Header, remoteAddr: string, body: string, headerSize: nat, bodySize: nat)
    requires BraceFreeHeader(h) && BraceFreeText(remoteAddr) && headerSize >= 1 && bodySize >= 1
    ensures var text := Combined(h, remoteAddr, body);
      && Parse(text, headerSize, bodySize)
         == Some(Parsed(Prefix(HeaderText(h, remoteAddr), headerSize - 1), ParseBody(text, bodySize)))
      && (AllSurvive(body) ==> ParseBody(text, bodySize) == Prefix(body, bodySize - 1))
  {
    EscapedIsFine(h, remoteAddr);
    EscapedRoundTrip(EscapeHeader(h), Escape(remoteAddr), body, headerSize, bodySize);
    BodyComesOut(EscapeHeader(h), Escape(remoteAddr), body, bodySize);
    if AllSurvive(body) { UnescapeEscaped(body, [QUOTE, '}'], QUOTE, true, bodySize - 1); }
  }

  lemma EscapedIsFine(h: Header, remoteAddr: string)
    requires BraceFreeHeader(h) && BraceFreeText(remoteAddr)
    ensures GuardedHeader(EscapeHeader(h)) && BraceFreeHeader(EscapeHeader(h))
    ensures Guarded(Escape(remoteAddr)) && BraceFreeText(Escape(remoteAddr))
  {
    HeaderIsGuarded(h);
    EscapeIsGuarded(remoteAddr);
    HeaderIsBraceFree(h);
    EscapeKeepsBracesOut(remoteAddr);
  }

  lemma EscapedRoundTrip(h: Header, remoteAddr: string, body: string, headerSize: nat, bodySize: nat)
    requires GuardedHeader(h) && BraceFreeHeader(h) && Guarded(remoteAddr) && BraceFreeText(remoteAddr)
    requires headerSize >= 1 && bodySize >= 1
    ensures var text := CombinedWith(h, remoteAddr, body);
      Parse(text, headerSize, bodySize)
        == Some(Parsed(Prefix(Serialize(h, remoteAddr), headerSize - 1), ParseBody(text, bodySize)))
  {
    HeaderFound(h, remoteAddr, body);
    ParseWhenFound(CombinedWith(h, remoteAddr, body), headerSize, bodySize, Serialize(h, remoteAddr));
  }

  lemma BodyIsCopied(h: Header, remoteAddr: string, body: string, bodySize: nat)
    requires bodySize >= 1
    ensures ParseBody(Combined(h, remoteAddr, body), bodySize)
         == Unescape(Escape(body) + [QUOTE, '}'], QUOTE, true, bodySize - 1)
  {
    HeaderIsGuarded(h);
    EscapeIsGuarded(remoteAddr);
    BodyComesOut(EscapeHeader(h), Escape(remoteAddr), body, bodySize);
  }

  lemma CopiedIs(copied: string, body: string, room: nat)
    requires copied == Unescape(Escape(body) + [QUOTE, '}'], QUOTE, true, room)
    ensures copied == Prefix(ReadBack(body), room)
  {
    UnescapeIs(body, QUOTE, true, room);
  }

  /** For every header, body and buffer: the body that is read. */
  lemma BodyReadBack(h: Header, remoteAddr: string, body: string, bodySize: nat)
    requires bodySize >= 1
    ensures ParseBody(Combined(h, remoteAddr, body), bodySize) == Prefix(ReadBack(body), bodySize - 1)
  {
    BodyIsCopied(h, remoteAddr, body, bodySize);
    CopiedIs(ParseBody(Combined(h, remoteAddr, body), bodySize), body, bodySize - 1);
  }

  /** With room to spare, a body survives exactly when all its characters are printable ASCII other than the
      backslash, whatever the header. */
  lemma BodySurvivesIff(h: Header, remoteAddr: string, body: string, bodySize: nat)
    requires bodySize >= 12 * |body| + 4
    ensures ParseBody(Combined(h, remoteAddr, body), bodySize) == body <==> AllSurvive(body)
  {
    BodyIsCopied(h, remoteAddr, body, bodySize);
    if AllSurvive(body) {
      UnescapeEscaped(body, [QUOTE, '}'], QUOTE, true, bodySize - 1);
    } else {
      UnescapeGrows(body, QUOTE, true, bodySize - 1);
    }
  }

  /** With room to spare, what is read of a value printed whole is the value exactly when it is printable ASCII
      without quotes and backslashes. */
  lemma EscapedSurvivesIff(field: string, outSize: nat)
    requires outSize > 12 * |field|
    ensures Prefix(Split(Escape(field), QUOTE)[0], outSize - 1) == field <==> AllOrdinary(field)
  {
    EscapeLength(field);
    FirstPiece(Escape(field), QUOTE);
    var piece := Split(Escape(field), QUOTE)[0];
    if AllOrdinary(field) {
      OrdinaryUnchanged(field);
      QuoteFreeIsGuarded(field);
    } else if Without(field, QUOTE) {
      EscapeQuoteFree(field);
      QuoteFreeIsGuarded(Escape(field));
    }
  }

  lemma {:induction false} OrdinaryUnchanged(s: string)
    requires AllOrdinary(s)
    ensures Escape(s) == s && Without(s, QUOTE)
  {
    if s != "" {
      OrdinaryUnchanged(s[1..]);
      assert s == [s[0]] + s[1..];
    }
  }

  lemma {:induction false} EscapeQuoteFree(s: string)
    requires Without(s, QUOTE)
    ensures Without(Escape(s), QUOTE)
  {
    if s != "" { EscapeQuoteFree(s[1..]); }
  }

  lemma {:induction false} EscapeLength(s: string)
    ensures |s| <= |Escape(s)| <= 12 * |s|
    ensures !AllOrdinary(s) ==> |Escape(s)| > |s|
  {
    if s != "" {
      EscapeLength(s[1..]);
      assert s == [s[0]] + s[1..];
    }
  }
}
