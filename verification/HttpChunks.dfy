/** Parsing a growing buffer: when the first completed parse does not depend on how the bytes arrived. */
module HttpChunks {
  import opened Options
  import opened Text
  import opened Http

  // ----------------------------------------------------------------- the request line

  /** The copy loop ends inside `s`, at a stop character or at its limit. */
  predicate Stops(s: string, stops: string, n: nat)
    decreases |s| + n
  {
    n == 0 || (s != "" && (InSet(s[0], stops) || Stops(s[1..], stops, n - 1)))
  }

  lemma {:induction false} WordExtends(s: string, e: string, stops: string, n: nat)
    requires Stops(s, stops, n)
    ensures Word(s + e, stops, n) == Word(s, stops, n)
    ensures Drop(s + e, |Word(s, stops, n)|) == Drop(s, |Word(s, stops, n)|) + e
    ensures |Word(s, stops, n)| <= |s|
    decreases n
  {
    if n > 0 && !InSet(s[0], stops) {
      WordExtends(s[1..], e, stops, n - 1);
      ConsTail(s, e);
      var w := Word(s[1..], stops, n - 1);
      assert Drop(s, |w| + 1) == Drop(s[1..], |w|);
      assert Drop(s + e, |w| + 1) == Drop((s + e)[1..], |w|);
    } else {
      assert n > 0 ==> (s + e)[0] == s[0];
      assert (s + e)[0..] == s[0..] + e;
    }
  }

  /** A loop that ran past the end copies whatever arrives next. */
  lemma {:induction false} WordChanges(s: string, c: char, stops: string, n: nat)
    requires !Stops(s, stops, n) && !InSet(c, stops) && c != NUL
    ensures Word(s + [c], stops, n) != Word(s, stops, n)
    decreases |s|
  {
    if s == "" {
      assert s + [c] == [c];
    } else {
      WordChanges(s[1..], c, stops, n - 1);
      ConsTail(s, [c]);
      var w, w' := Word(s, stops, n), Word(s + [c], stops, n);
      assert w[1..] == Word(s[1..], stops, n - 1) && w'[1..] == Word(s[1..] + [c], stops, n - 1);
    }
  }

  predicate LineStops(s: string) {
    && Stops(s, METHOD_STOPS, 7)
    && Stops(AfterMethod(s), PATH_STOPS, 255)
    && AfterPath(s) != ""
    && (AfterPath(s)[0] == '?' ==> Stops(AfterPath(s)[1..], QUERY_STOPS, 511))
  }

  lemma {:induction false} SkipExtends(s: string, e: string)
    requires SkipSpaces(s) != "" || (e != "" && e[0] != ' ')
    ensures SkipSpaces(s + e) == SkipSpaces(s) + e
  {
    if s == "" {
      assert s + e == e;
    } else if s[0] == ' ' {
      ConsTail(s, e);
      SkipExtends(s[1..], e);
    } else {
      ConsTail(s, e);
    }
  }

  lemma MethodExtends(s: string, e: string)
    requires Stops(s, METHOD_STOPS, 7)
    requires AfterMethod(s) != "" || (e != "" && e[0] != ' ')
    ensures AfterMethod(s + e) == AfterMethod(s) + e
  {
    WordExtends(s, e, METHOD_STOPS, 7);
    SkipExtends(Drop(s, |Word(s, METHOD_STOPS, 7)|), e);
  }

  lemma PathExtends(s: string, e: string)
    requires Stops(s, METHOD_STOPS, 7) && Stops(AfterMethod(s), PATH_STOPS, 255)
    ensures AfterMethod(s + e) == AfterMethod(s) + e && AfterPath(s + e) == AfterPath(s) + e
    ensures RequestLine(s + e).path == RequestLine(s).path
  {
    MethodExtends(s, e);
    WordExtends(AfterMethod(s), e, PATH_STOPS, 255);
  }

  lemma LineExtends(s: string, e: string)
    requires LineStops(s)
    ensures RequestLine(s + e) == RequestLine(s)
  {
    WordExtends(s, e, METHOD_STOPS, 7);
    PathExtends(s, e);
    ConsTail(AfterPath(s), e);
    if AfterPath(s)[0] == '?' {
      WordExtends(AfterPath(s)[1..], e, QUERY_STOPS, 511);
    }
  }

  /** What to send to change a line that has not stopped. */
  function Nudge(s: string): string {
    var stopped := Stops(s, METHOD_STOPS, 7) && Stops(AfterMethod(s), PATH_STOPS, 255);
    if stopped && AfterPath(s) == "" then ['?', 'a'] else ['a']
  }

  lemma LineChanges(s: string)
    requires !LineStops(s)
    ensures RequestLine(s + Nudge(s)) != RequestLine(s)
  {
    if !Stops(s, METHOD_STOPS, 7) {
      WordChanges(s, 'a', METHOD_STOPS, 7);
    } else if !Stops(AfterMethod(s), PATH_STOPS, 255) {
      MethodExtends(s, ['a']);
      WordChanges(AfterMethod(s), 'a', PATH_STOPS, 255);
    } else {
      PathExtends(s, Nudge(s));
      QueryChanges(AfterPath(s));
    }
  }

  lemma QueryChanges(rest: string)
    requires rest == "" || (rest[0] == '?' && !Stops(rest[1..], QUERY_STOPS, 511))
    ensures Query(rest + if rest == "" then ['?', 'a'] else ['a']) != Query(rest)
  {
    if rest == "" {
      assert rest + ['?', 'a'] == ['?', 'a'] && ['?', 'a'][1..] == ['a'];
      assert Word(['a'], QUERY_STOPS, 511) != "";
    } else {
      ConsTail(rest, ['a']);
      WordChanges(rest[1..], 'a', QUERY_STOPS, 511);
    }
  }

  // ----------------------------------------------------------------- Content-Length

  predicate DigitsStop(t: string) {
    t != "" && (!IsDigit(t[0]) || DigitsStop(t[1..]))
  }

  /** Reading a number ends inside `t`. */
  predicate NumberStops(t: string) {
    t != "" &&
    if IsSpace(t[0]) then NumberStops(t[1..]) else DigitsStop(if t[0] in "+-" then t[1..] else t)
  }

  lemma {:induction false} DigitsExtend(t: string, e: string, acc: nat)
    requires DigitsStop(t)
    ensures ReadDigits(t + e, acc) == ReadDigits(t, acc)
    decreases |t|
  {
    ConsTail(t, e);
    if IsDigit(t[0]) { DigitsExtend(t[1..], e, 10 * acc + DigitValue(t[0])); }
  }

  lemma {:induction false} NumberExtends(t: string, e: string)
    requires NumberStops(t)
    ensures ReadInt(t + e) == ReadInt(t)
  {
    ConsTail(t, e);
    if IsSpace(t[0]) { NumberExtends(t[1..], e); }
    else if t[0] in "+-" { DigitsExtend(t[1..], e, 0); }
    else { DigitsExtend(t, e, 0); }
  }

  lemma {:induction false} DigitsChange(t: string, c: char, acc: nat)
    requires !DigitsStop(t) && IsDigit(c)
    ensures ReadDigits(t + [c], acc) == 10 * ReadDigits(t, acc) + DigitValue(c)
    decreases |t|
  {
    if t == "" {
      assert t + [c] == [c];
      var none := [c][1..];
      assert ReadDigits(none, 10 * acc + DigitValue(c)) == 10 * acc + DigitValue(c);
    } else {
      ConsTail(t, [c]);
      DigitsChange(t[1..], c, 10 * acc + DigitValue(t[0]));
    }
  }

  lemma {:induction false} NumberChanges(t: string)
    requires !NumberStops(t)
    ensures ReadInt(t + "1") == 10 * ReadInt(t) + 1 || ReadInt(t + "1") == 10 * ReadInt(t) - 1
  {
    if t == "" {
      assert t + "1" == "1";
      DigitsChange(t, '1', 0);
    } else {
      ConsTail(t, "1");
      if IsSpace(t[0]) { NumberChanges(t[1..]); }
      else if t[0] in "+-" { DigitsChange(t[1..], '1', 0); }
      else { DigitsChange(t, '1', 0); }
    }
  }

  lemma {:induction false} SpacesDoNotCount(t: string)
    ensures ReadInt(SkipSpaces(t)) == ReadInt(t)
  {
    if t != "" && t[0] == ' ' { SpacesDoNotCount(t[1..]); }
  }

  lemma FieldNameInLine(s: string, e: string, k: nat)
    requires k < |s| && s[k] == LF && k < 15
    ensures !NamesLength(s + e)
  {
    assert (s + e)[k] == LF;
    assert FIELD[k] != LF;
  }

  lemma NameExtends(s: string, e: string, n: nat)
    requires 0 < n <= |s| && s[n - 1] == LF
    ensures NamesLength(s + e) == NamesLength(s)
  {
    if |s| < 15 {
      FieldNameInLine(s, e, n - 1);
    } else {
      assert forall i | 0 <= i < 15 :: (s + e)[i] == s[i];
    }
  }

  /** A field name that starts in the header ends in it. */
  lemma {:induction false} LengthTextExtends(s: string, e: string, n: nat, lineStart: bool)
    requires n <= |s| && (n > 0 ==> s[n - 1] == LF)
    ensures LengthText(s + e, n, lineStart) ==
      var t := LengthText(s, n, lineStart); if t.None? then None else Some(t.value + e)
    decreases n
  {
    if n > 0 {
      NameExtends(s, e, n);
      ConsTail(s, e);
      LengthTextExtends(s[1..], e, n - 1, s[0] == LF);
      if NamesLength(s) {
        assert (s + e)[15..] == s[15..] + e;
      }
    }
  }

  predicate LengthStops(s: string, h: nat)
    requires h <= |s|
  {
    var t := LengthText(s, h, true);
    t.None? || NumberStops(t.value)
  }

  lemma EndsWithLineFeed(s: string)
    requires HeaderEnd(s).Some?
    ensures s[HeaderEnd(s).value - 1] == LF
  {
    HeaderEndIsFirst(s);
  }

  lemma LengthExtends(s: string, e: string, h: nat)
    requires h <= |s| && (h > 0 ==> s[h - 1] == LF) && LengthStops(s, h)
    ensures ContentLength(s + e, h) == ContentLength(s, h)
  {
    LengthTextExtends(s, e, h, true);
    var t := LengthText(s, h, true);
    if t.Some? {
      NumberExtends(t.value, e);
      SpacesDoNotCount(t.value);
      SpacesDoNotCount(t.value + e);
    }
  }

  lemma AtolChanges(v: int, w: int, a: string, b: string)
    requires ReadInt(a) == v && ReadInt(b) == w && (w == 10 * v + 1 || w == 10 * v - 1)
    requires Atol(a) <= BUFFER_MAX
    ensures Atol(b) != Atol(a)
  {
  }

  lemma LengthChanges(s: string, h: nat)
    requires h <= |s| && (h > 0 ==> s[h - 1] == LF) && !LengthStops(s, h) && ContentLength(s, h) <= BUFFER_MAX
    ensures ContentLength(s + "1", h) != ContentLength(s, h)
  {
    LengthTextExtends(s, "1", h, true);
    var t := LengthText(s, h, true).value;
    NumberChanges(t);
    SpacesDoNotCount(t);
    SpacesDoNotCount(t + "1");
    AtolChanges(ReadInt(t), ReadInt(t + "1"), SkipSpaces(t), SkipSpaces(t + "1"));
  }

  // ----------------------------------------------------------------- completed parses

  lemma HeaderEndExtends(s: string, e: string)
    requires HeaderEnd(s).Some?
    ensures HeaderEnd(s + e) == HeaderEnd(s)
  {
    HeaderEndOfPrefix(s + e, |s|);
    assert (s + e)[..|s|] == s;
  }

  /** Neither the request line nor the length runs out of the bytes received. */
  predicate Settled(s: string) {
    LineStops(s) && HeaderEnd(s).Some? && LengthStops(s, HeaderEnd(s).value)
  }

  lemma SettledExtends(s: string, e: string)
    requires ParseRequest(s).Done? && Settled(s)
    ensures ParseRequest(s + e) == ParseRequest(s)
  {
    var h := HeaderEnd(s).value;
    HeaderEndExtends(s, e);
    EndsWithLineFeed(s);
    LengthExtends(s, e, h);
    LineExtends(s, e);
    CompleteExtends(s, e, h, RequestLine(s), ContentLength(s, h));
  }

  lemma CompleteExtends(s: string, e: string, h: nat, line: Line, n: nat)
    requires h + n <= |s|
    ensures Complete(s + e, h, line, n) == Complete(s, h, line, n)
  {
    assert (s + e)[h..h + n] == s[h..h + n];
  }

  /** The byte that changes a completed parse. */
  function Spoiler(s: string): string {
    if !LineStops(s) then Nudge(s) else "1"
  }

  lemma UnsettledChanges(s: string)
    requires ParseRequest(s).Done? && !Settled(s) && |s| <= BUFFER_MAX
    ensures ParseRequest(s + Spoiler(s)) != ParseRequest(s)
  {
    var h := HeaderEnd(s).value;
    if !LineStops(s) {
      LineChanges(s);
    } else {
      HeaderEndExtends(s, "1");
      EndsWithLineFeed(s);
      LengthChanges(s, h);
    }
  }

  /** A completed parse survives every further byte exactly when the line and the length are settled. */
  lemma SettledIff(s: string)
    requires ParseRequest(s).Done? && |s| <= BUFFER_MAX
    ensures (forall e: string :: ParseRequest(s + e) == ParseRequest(s)) <==> Settled(s)
  {
    if Settled(s) {
      forall e: string ensures ParseRequest(s + e) == ParseRequest(s) { SettledExtends(s, e); }
    } else {
      UnsettledChanges(s);
    }
  }

  lemma HeadOf(t: string, h: nat, n: nat)
    requires HeaderEnd(t) == Some(h) && h <= n <= |t|
    ensures HeaderEnd(t[..n]) == Some(h) && t[..n] == t[..h] + t[h..n] && t[..h][h - 1] == LF
  {
    HeaderEndOfPrefix(t, n);
    EndsWithLineFeed(t);
  }

  /** Header plus body is where parsing completes: it says "need more" on exactly the shorter prefixes. */
  lemma CompletesAt(t: string, h: nat, n: nat)
    requires HeaderEnd(t) == Some(h) && LengthStops(t[..h], h) && n <= |t|
    ensures ParseRequest(t[..n]) == NeedMore <==> n < h + ContentLength(t[..h], h)
    ensures !ParseRequest(t[..n]).Bad?
  {
    if n < h {
      HeaderEndOfPrefix(t, n);
    } else {
      HeadOf(t, h, n);
      LengthExtends(t[..h], t[h..n], h);
    }
  }

  /** ... and on all others gives one and the same request. */
  lemma CompletesAlike(t: string, h: nat, n: nat)
    requires HeaderEnd(t) == Some(h) && LengthStops(t[..h], h) && LineStops(t[..h])
    requires h + ContentLength(t[..h], h) <= n <= |t|
    ensures Settled(t[..n]) && ParseRequest(t[..n]) == ParseRequest(t)
  {
    CompletesAt(t, h, n);
    HeadSettles(t, h, n);
    SettledPrefix(t, n);
  }

  lemma SettledPrefix(t: string, n: nat)
    requires n <= |t| && ParseRequest(t[..n]).Done? && Settled(t[..n])
    ensures ParseRequest(t) == ParseRequest(t[..n])
  {
    assert t == t[..n] + t[n..];
    SettledExtends(t[..n], t[n..]);
  }

  lemma HeadSettles(t: string, h: nat, n: nat)
    requires HeaderEnd(t) == Some(h) && LengthStops(t[..h], h) && LineStops(t[..h]) && h <= n <= |t|
    ensures Settled(t[..n])
  {
    HeadOf(t, h, n);
    StopsExtend(t[..h], t[h..n], h);
  }

  lemma {:induction false} WordStopsExtend(s: string, e: string, stops: string, n: nat)
    requires Stops(s, stops, n)
    ensures Stops(s + e, stops, n)
    decreases n
  {
    if n > 0 {
      ConsTail(s, e);
      if !InSet(s[0], stops) { WordStopsExtend(s[1..], e, stops, n - 1); }
    }
  }

  lemma {:induction false} DigitsStopExtend(t: string, e: string)
    requires DigitsStop(t)
    ensures DigitsStop(t + e)
  {
    ConsTail(t, e);
    if IsDigit(t[0]) { DigitsStopExtend(t[1..], e); }
  }

  lemma {:induction false} NumberStopsExtend(t: string, e: string)
    requires NumberStops(t)
    ensures NumberStops(t + e)
  {
    ConsTail(t, e);
    if IsSpace(t[0]) { NumberStopsExtend(t[1..], e); }
    else if t[0] in "+-" { DigitsStopExtend(t[1..], e); }
    else { DigitsStopExtend(t, e); }
  }

  lemma StopsExtend(head: string, more: string, h: nat)
    requires h == |head| && h > 0 && head[h - 1] == LF && LineStops(head) && LengthStops(head, h)
    ensures LineStops(head + more) && LengthStops(head + more, h)
  {
    WordStopsExtend(head, more, METHOD_STOPS, 7);
    PathExtends(head, more);
    WordStopsExtend(AfterMethod(head), more, PATH_STOPS, 255);
    ConsTail(AfterPath(head), more);
    if AfterPath(head)[0] == '?' { WordStopsExtend(AfterPath(head)[1..], more, QUERY_STOPS, 511); }
    LengthTextExtends(head, more, h, true);
    var t := LengthText(head, h, true);
    if t.Some? { NumberStopsExtend(t.value, more); }
  }

  // ----------------------------------------------------------------- segmentation

  /** What becomes of a connection: it waits for more, is closed, is answered 400, or a request is handed over. */
  datatype Reception = Waiting | Closed | Refused | HandedOver(request: Request)

  /** The state of a connection after a parse. */
  function Outcome(r: Parse<Request>): Reception {
    match r
    case NeedMore => Waiting
    case Bad => Refused
    case Done(request) => HandedOver(request)
  }

  /** One read callback. The socket offers some bytes, none at the end of the stream; read takes no more than the
      buffer has room for, and taking nothing closes the connection. */
  function OneRead(buf: string, offered: string): Reception
    requires |buf| <= BUFFER_MAX
  {
    var taken := Prefix(offered, BUFFER_MAX - |buf|);
    if taken == "" then Closed else Outcome(ParseRequest(buf + taken))
  }

  /** Successive reads. What a read leaves in the socket makes it readable again, and the buffer is then full. */
  function Receive(buf: string, offers: seq<string>): Reception
    requires |buf| <= BUFFER_MAX
    decreases |offers|
  {
    if offers == [] then Waiting
    else
      var r := OneRead(buf, offers[0]);
      if !r.Waiting? then r
      else if |buf| + |offers[0]| > BUFFER_MAX then Closed
      else Receive(buf + offers[0], offers[1..])
  }

  class Connection {
    var rbuf: string
    var closed: bool

    ghost predicate Valid()
      reads this
    {
      |rbuf| <= BUFFER_MAX
    }

    constructor ()
      ensures Valid() && rbuf == "" && !closed
    {
      rbuf, closed := "", false;
    }

    /** on_client_read_cb: append what read returned and parse, or close. */
    method OnRead(offered: string) returns (r: Reception)
      requires Valid() && !closed
      modifies this
      ensures Valid()
      ensures r == OneRead(old(rbuf), offered) && closed == r.Closed?
      ensures !closed ==> rbuf == old(rbuf) + Prefix(offered, BUFFER_MAX - |old(rbuf)|)
    {
      var room := BUFFER_MAX - |rbuf|;
      var taken := if |offered| <= room then offered else offered[..room];
      if taken == "" {
        closed := true;
        return Closed;
      }
      rbuf := rbuf + taken;
      var p := ReadRequest(rbuf);
      match p {
        case NeedMore => r := Waiting;
        case Bad => r := Refused;
        case Done(request) => r := HandedOver(request);
      }
    }

    /** The callback run for one offer after another, until the connection no longer waits. */
    method OnReads(offers: seq<string>) returns (r: Reception)
      requires Valid() && !closed
      modifies this
      ensures r == Receive(old(rbuf), offers)
    {
      var i := 0;
      while i < |offers|
        invariant 0 <= i <= |offers| && Valid() && !closed
        invariant Receive(rbuf, offers[i..]) == Receive(old(rbuf), offers)
      {
        var room := BUFFER_MAX - |rbuf|;
        r := OnRead(offers[i]);
        if !r.Waiting? {
          return;
        }
        if |offers[i]| > room {
          r := OnRead(offers[i][room..]);
          return;
        }
        assert offers[i..][1..] == offers[i + 1..];
        i := i + 1;
      }
      r := Waiting;
    }
  }

  function Concat(offers: seq<string>): string {
    if offers == [] then "" else offers[0] + Concat(offers[1..])
  }

  ghost predicate NonEmpty(offers: seq<string>) {
    forall i | 0 <= i < |offers| :: offers[i] != ""
  }

  /** `m` bytes of `t` are the first to complete a parse. */
  ghost predicate FirstComplete(t: string, m: nat) {
    && m <= |t|
    && ParseRequest(t[..m]).Done?
    && forall n: nat | n < m :: ParseRequest(t[..n]).NeedMore?
  }

  lemma ReadTakes(buf: string, offered: string, t: string, rest: string)
    requires |buf| <= BUFFER_MAX && t == buf + (offered + rest)
    ensures var n := if |buf| + |offered| <= BUFFER_MAX then |buf| + |offered| else BUFFER_MAX;
      n <= |t| && buf + Prefix(offered, BUFFER_MAX - |buf|) == t[..n]
  {
  }

  /** A read that reaches byte `m` hands over the request in the first `m`. */
  lemma ReadReaches(buf: string, offered: string, t: string, rest: string, m: nat)
    requires t == buf + (offered + rest) && |buf| < m <= BUFFER_MAX && m <= |buf| + |offered|
    requires m <= |t| && ParseRequest(t[..m]).Done? && Settled(t[..m])
    ensures OneRead(buf, offered) == Outcome(ParseRequest(t[..m]))
  {
    var n := if |buf| + |offered| <= BUFFER_MAX then |buf| + |offered| else BUFFER_MAX;
    ReadTakes(buf, offered, t, rest);
    assert t[..n] == t[..m] + t[m..n];
    SettledExtends(t[..m], t[m..n]);
  }

  /** A read that does not reach it waits. */
  lemma ReadFallsShort(buf: string, offered: string, t: string, rest: string, m: nat)
    requires t == buf + (offered + rest) && |buf| + |offered| < m <= BUFFER_MAX && offered != ""
    requires FirstComplete(t, m)
    ensures OneRead(buf, offered) == Waiting
  {
    ReadTakes(buf, offered, t, rest);
  }

  lemma {:induction false} ReceiveIsParse(buf: string, offers: seq<string>, t: string, m: nat)
    requires t == buf + Concat(offers) && |buf| < m <= BUFFER_MAX && NonEmpty(offers)
    requires FirstComplete(t, m) && Settled(t[..m])
    ensures Receive(buf, offers) == Outcome(ParseRequest(t[..m]))
    decreases |offers|
  {
    if offers != [] {
      var next, rest := buf + offers[0], Concat(offers[1..]);
      assert t == next + rest;
      if |next| < m {
        ReadFallsShort(buf, offers[0], t, rest, m);
        ReceiveIsParse(next, offers[1..], t, m);
      } else {
        ReadReaches(buf, offers[0], t, rest, m);
      }
    }
  }

  /** However the bytes are cut into reads, the request handed over is the one in the first `m` bytes, if these
      fit the buffer. */
  lemma SegmentationDoesNotMatter(offers: seq<string>, m: nat)
    requires NonEmpty(offers) && FirstComplete(Concat(offers), m) && Settled(Concat(offers)[..m]) && m <= BUFFER_MAX
    ensures Receive("", offers) == Outcome(ParseRequest(Concat(offers)[..m]))
  {
    assert "" + Concat(offers) == Concat(offers);
    assert ParseRequest("") == NeedMore;
    ReceiveIsParse("", offers, Concat(offers), m);
  }

  /** While no prefix that fits the buffer completes a parse, the connection waits, and is closed when more
      bytes come than fit. */
  lemma {:induction false} NeverComplete(buf: string, offers: seq<string>, t: string)
    requires t == buf + Concat(offers) && |buf| <= BUFFER_MAX && NonEmpty(offers)
    requires forall n: nat | n <= |t| && n <= BUFFER_MAX :: ParseRequest(t[..n]).NeedMore?
    ensures Receive(buf, offers) == if |t| > BUFFER_MAX then Closed else Waiting
    decreases |offers|
  {
    if offers == [] {
      assert t == buf;
    } else {
      var next := buf + offers[0];
      ReadTakes(buf, offers[0], t, Concat(offers[1..]));
      assert t == next + Concat(offers[1..]);
      if |next| <= BUFFER_MAX { NeverComplete(next, offers[1..], t); }
    }
  }

  /** A header the parser offers without running past it. */
  ghost predicate WellFormedHead(t: string) {
    HeaderEnd(t).Some? ==> var head := t[..HeaderEnd(t).value]; LineStops(head) && LengthStops(head, |head|)
  }

  /** Header plus body, once the header is there. */
  function Total(t: string): nat
    requires HeaderEnd(t).Some?
  {
    var h := HeaderEnd(t).value;
    h + ContentLength(t[..h], h)
  }

  /** For every well-formed header and every cutting into non-empty reads: the parse of the whole is handed over
      if and only if header and body are there and fit the buffer; otherwise the connection waits, or is closed
      if more bytes came than fit. */
  lemma WellFormedSegmentation(offers: seq<string>)
    requires NonEmpty(offers) && WellFormedHead(Concat(offers))
    ensures var t := Concat(offers);
      Receive("", offers) ==
        if HeaderEnd(t).Some? && Total(t) <= |t| && Total(t) <= BUFFER_MAX then Outcome(ParseRequest(t))
        else if |t| > BUFFER_MAX then Closed
        else Waiting
    ensures Receive("", offers).HandedOver? <==>
      var t := Concat(offers); HeaderEnd(t).Some? && Total(t) <= |t| && Total(t) <= BUFFER_MAX
  {
    var t := Concat(offers);
    assert t[..|t|] == t;
    if HeaderEnd(t).Some? && Total(t) <= |t| && Total(t) <= BUFFER_MAX {
      CompletesFirst(t);
      SegmentationDoesNotMatter(offers, Total(t));
      CompletesAlike(t, HeaderEnd(t).value, Total(t));
      CompletesAt(t, HeaderEnd(t).value, |t|);
    } else {
      forall n: nat | n <= |t| && n <= BUFFER_MAX ensures ParseRequest(t[..n]).NeedMore? {
        if HeaderEnd(t).Some? {
          CompletesAt(t, HeaderEnd(t).value, n);
        } else {
          HeaderEndOfPrefix(t, n);
        }
      }
      assert "" + t == t;
      NeverComplete("", offers, t);
    }
  }

  lemma CompletesFirst(t: string)
    requires WellFormedHead(t) && HeaderEnd(t).Some? && Total(t) <= |t|
    ensures FirstComplete(t, Total(t)) && Settled(t[..Total(t)])
  {
    var h, m := HeaderEnd(t).value, Total(t);
    CompletesAt(t, h, m);
    CompletesAlike(t, h, m);
    forall n: nat | n < m ensures ParseRequest(t[..n]).NeedMore? { CompletesAt(t, h, n); }
  }

  /** An unsettled request can be cut in two ways that hand over different requests. */
  lemma UnsettledSegmentationMatters(s: string)
    requires ParseRequest(s).Done? && !Settled(s) && |s + Spoiler(s)| <= BUFFER_MAX
    ensures Concat([s, Spoiler(s)]) == Concat([s + Spoiler(s)])
    ensures Receive("", [s, Spoiler(s)]) == Outcome(ParseRequest(s))
    ensures Receive("", [s, Spoiler(s)]) != Receive("", [s + Spoiler(s)])
  {
    var e := Spoiler(s);
    UnsettledChanges(s);
    assert [s, e][1..] == [e] && [e][1..] == [] && [s + e][1..] == [];
    assert Concat([e]) == e && Concat([s + e]) == s + e && Concat([s, e]) == s + Concat([e]);
    assert "" + s == s && "" + (s + e) == s + e;
    assert s != "";
    SingleRead(s + e);
  }

  lemma SingleRead(s: string)
    requires s != "" && |s| <= BUFFER_MAX
    ensures Receive("", [s]) == Outcome(ParseRequest(s))
  {
    assert "" + s == s && [s][1..] == [];
  }

  /** There are such requests: a blank line alone completes a parse, and one more byte changes its method. */
  lemma BlankLineIsUnsettled()
    ensures var s := [LF, LF]; ParseRequest(s).Done? && !Settled(s)
    ensures Receive("", [[LF, LF], ['a']]) != Receive("", [[LF, LF] + ['a']])
  {
    var s := [LF, LF];
    assert HeaderEnd(s) == Some(2);
    assert LengthText(s, 2, true) == None by {
      assert LengthText(s[1..], 1, true) == LengthText(s[1..][1..], 0, true);
    }
    BlankNeverStops(s);
    UnsettledSegmentationMatters(s);
  }

  lemma BlankNeverStops(s: string)
    requires s == [LF, LF]
    ensures !Stops(s, METHOD_STOPS, 7)
  {
    assert s[1..] == [LF] && s[1..][1..] == "";
    assert !Stops(s[1..][1..], METHOD_STOPS, 5);
    assert !Stops(s[1..], METHOD_STOPS, 6);
  }
}
