/** Requests and responses printed for the parser, and what it makes of them. */
module HttpRoundTrip {
  import opened Options
  import opened Text
  import opened Http

  const EOL: string := [CR, LF]

  /** Header lines, each with its line end, in front of `rest`. */
  function PrintLines(lines: seq<string>, rest: string): string {
    if lines == [] then rest else lines[0] + (EOL + PrintLines(lines[1..], rest))
  }

  /** %.*s stops at a NUL. */
  function UpToNul(body: string): string {
    TakeUntil(body, NUL, |body|)
  }

  predicate PlainLine(s: string) {
    s != "" && Without(s, CR) && Without(s, LF)
  }

  // ----------------------------------------------------------------- the blank line

  lemma {:induction false} LineSkipped(line: string, rest: string)
    requires line != "" && Without(line, CR) && Without(line, LF) && |rest| >= 3
    requires rest[0] == CR && rest[1] == LF && rest[2] != CR && rest[2] != LF
    ensures HeaderEnd(line + rest) ==
      var r := HeaderEnd(rest[2..]); if r.None? then None else Some(|line| + 2 + r.value)
  {
    ConsTail(line, rest);
    if |line| == 1 {
      assert line[1..] + rest == rest;
      assert rest[1..][1..] == rest[2..];
      assert HeaderEnd(rest[1..]) == var r := HeaderEnd(rest[2..]); if r.None? then None else Some(1 + r.value);
    } else {
      LineSkipped(line[1..], rest);
    }
  }

  lemma {:induction false} LastLine(line: string, rest: string)
    requires line != "" && Without(line, CR) && Without(line, LF) && |rest| >= 4
    requires rest[0] == CR && rest[1] == LF && rest[2] == CR && rest[3] == LF
    ensures HeaderEnd(line + rest) == Some(|line| + 4)
  {
    ConsTail(line, rest);
    if |line| == 1 {
      assert line[1..] + rest == rest;
    } else {
      LastLine(line[1..], rest);
    }
  }

  lemma EolInFront(t: string)
    ensures (EOL + t)[0] == CR && (EOL + t)[1] == LF && (EOL + t)[2..] == t && |EOL + t| == |t| + 2
  {
  }

  /** The header of printed lines ends behind the empty line. */
  lemma {:induction false} PrintedHeaderEnd(lines: seq<string>, body: string)
    requires lines != [] && forall i | 0 <= i < |lines| :: PlainLine(lines[i])
    ensures HeaderEnd(PrintLines(lines, EOL + body)) == Some(|PrintLines(lines, EOL)|)
    ensures PrintLines(lines, EOL + body) == PrintLines(lines, EOL) + body
  {
    var rest := PrintLines(lines[1..], EOL + body);
    EolInFront(rest);
    if |lines| == 1 {
      EolInFront(body);
      LastLine(lines[0], EOL + rest);
      assert lines[0] + (EOL + (EOL + body)) == lines[0] + (EOL + EOL) + body;
    } else {
      PrintedHeaderEnd(lines[1..], body);
      var next := lines[1];
      assert PlainLine(lines[1]);
      assert rest[0] == next[0];
      LineSkipped(lines[0], EOL + rest);
      assert lines[0] + (EOL + (PrintLines(lines[1..], EOL) + body)) == lines[0] + (EOL + PrintLines(lines[1..],
        EOL)) + body;
    }
  }

  // ----------------------------------------------------------------- Content-Length

  /** Inside a line no field name is looked for. */
  lemma {:induction false} LengthTextSkips(line: string, rest: string, n: nat)
    requires Without(line, LF) && n <= |rest| && n >= 2 && rest[0] == CR && rest[1] == LF
    ensures LengthText(line + rest, |line| + n, false) == LengthText(rest[2..], n - 2, true)
  {
    if line == "" {
      assert line + rest == rest;
      assert rest[1..][1..] == rest[2..];
    } else {
      ConsTail(line, rest);
      LengthTextSkips(line[1..], rest, n);
    }
  }

  lemma LengthTextLine(line: string, rest: string, n: nat)
    requires PlainLine(line) && n + 2 <= |EOL + rest| && !NamesLength(line + (EOL + rest))
    ensures LengthText(line + (EOL + rest), |line| + 2 + n, true) == LengthText(rest, n, true)
  {
    EolInFront(rest);
    ConsTail(line, EOL + rest);
    LengthTextSkips(line[1..], EOL + rest, n + 2);
  }

  /** The line differs from the field name at `k`. */
  predicate DiffersAt(line: string, k: nat) {
    k < 15 && k < |line| && Lower(line[k]) != FIELD[k]
  }

  ghost predicate OtherLine(line: string) {
    PlainLine(line) && exists k :: DiffersAt(line, k)
  }

  lemma NotTheLength(line: string, rest: string, k: nat)
    requires DiffersAt(line, k)
    ensures !NamesLength(line + rest)
  {
    assert (line + rest)[k] == line[k];
  }

  const LENGTH_NAME: string := "Content-Length:"

  lemma LengthNamed(rest: string)
    ensures NamesLength(LENGTH_NAME + rest) && (LENGTH_NAME + rest)[15..] == rest
  {
    var s := LENGTH_NAME + rest;
    assert forall i | 0 <= i < 15 :: s[i] == LENGTH_NAME[i] && Lower(LENGTH_NAME[i]) == FIELD[i];
  }

  lemma LengthRead(n: nat, rest: string)
    requires n < LONG_LIMIT && rest != "" && !IsDigit(rest[0])
    ensures Atol(SkipSpaces([' '] + (PrintInt(n) + rest))) == n
  {
    SpacedRoundTrip(n, rest);
    AtolOf(SkipSpaces([' '] + (PrintInt(n) + rest)), n);
  }

  function LengthLine(n: nat): string {
    LENGTH_NAME + ([' '] + PrintInt(n))
  }

  lemma LengthLinePlain(n: nat)
    ensures PlainLine(LengthLine(n))
  {
    PrintedIsPlain(n);
    assert Without(LENGTH_NAME, CR) && Without(LENGTH_NAME, LF);
  }

  /** The length printed on the line after `before` others is the one read. */
  lemma {:induction false} LengthFound(before: seq<string>, n: nat, rest: string, h: nat)
    requires forall i | 0 <= i < |before| :: OtherLine(before[i])
    requires n < LONG_LIMIT && h <= |PrintLines(before, LengthLine(n) + (EOL + rest))|
    requires h > |PrintLines(before, "")|
    ensures ContentLength(PrintLines(before, LengthLine(n) + (EOL + rest)), h) == n
    decreases |before|
  {
    var tail := LengthLine(n) + (EOL + rest);
    if before == [] {
      LengthLineText(n, rest);
      LengthNamed([' '] + (PrintInt(n) + (EOL + rest)));
      EolInFront(rest);
      LengthRead(n, EOL + rest);
    } else {
      var line, more := before[0], PrintLines(before[1..], tail);
      assert OtherLine(line);
      var k :| DiffersAt(line, k);
      NotTheLength(line, EOL + more, k);
      EolInFront(more);
      EolInFront(PrintLines(before[1..], ""));
      LengthTextLine(line, more, h - |line| - 2);
      LengthFound(before[1..], n, rest, h - |line| - 2);
    }
  }

  lemma LengthLineText(n: nat, rest: string)
    ensures LengthLine(n) + (EOL + rest) == LENGTH_NAME + ([' '] + (PrintInt(n) + (EOL + rest)))
  {
  }

  // ----------------------------------------------------------------- the request line

  predicate NoStops(a: string, stops: string) {
    forall i | 0 <= i < |a| :: !InSet(a[i], stops)
  }

  lemma {:induction false} WordTaken(a: string, rest: string, stops: string, n: nat)
    requires NoStops(a, stops) && |a| <= n && rest != "" && InSet(rest[0], stops)
    ensures Word(a + rest, stops, n) == a && Drop(a + rest, |a|) == rest
  {
    if a == "" {
      assert a + rest == rest;
    } else {
      ConsTail(a, rest);
      WordTaken(a[1..], rest, stops, n - 1);
    }
  }

  function QueryPart(query: string): string {
    if query == "" then "" else ['?'] + query
  }

  /** The request line as far as the parser reads it, and what follows. */
  function PrintTarget(method_: string, path: string, query: string, rest: string): string {
    method_ + ([' '] + (path + (QueryPart(query) + ([' '] + rest))))
  }

  /** Fields that fit and hold nothing the parser takes for a boundary. */
  predicate WellFormed(method_: string, path: string, query: string) {
    && |method_| <= 7 && NoStops(method_, [' ', CR, LF])
    && |path| <= 255 && NoStops(path, [' ', '?', CR, LF])
    && |query| <= 511 && NoStops(query, [' ', CR, LF])
    && (path != "" || query != "")
  }

  lemma TargetRead(method_: string, path: string, query: string, rest: string)
    requires WellFormed(method_, path, query)
    ensures RequestLine(PrintTarget(method_, path, query, rest)) == Line(method_, path, query)
  {
    var s := PrintTarget(method_, path, query, rest);
    var after := QueryPart(query) + ([' '] + rest);
    WordTaken(method_, [' '] + (path + after), METHOD_STOPS, 7);
    GapSkipped(path, query, rest);
    TargetEnds(query, rest);
    WordTaken(path, after, PATH_STOPS, 255);
    QueryRead(query, rest);
  }

  lemma TargetEnds(query: string, rest: string)
    ensures var after := QueryPart(query) + ([' '] + rest); after != "" && InSet(after[0], PATH_STOPS)
  {
    if query == "" { assert QueryPart(query) + ([' '] + rest) == [' '] + rest; }
  }

  lemma GapSkipped(path: string, query: string, rest: string)
    requires NoStops(path, PATH_STOPS) && (path != "" || query != "")
    ensures var text := path + (QueryPart(query) + ([' '] + rest)); SkipSpaces([' '] + text) == text
  {
    var text := path + (QueryPart(query) + ([' '] + rest));
    assert ([' '] + text)[1..] == text;
    if path != "" { assert text[0] == path[0]; } else { assert text[0] == '?'; }
  }

  lemma QueryRead(query: string, rest: string)
    requires |query| <= 511 && NoStops(query, [' ', CR, LF])
    ensures Query(QueryPart(query) + ([' '] + rest)) == query
  {
    if query != "" {
      assert (QueryPart(query) + ([' '] + rest))[1..] == query + ([' '] + rest);
      WordTaken(query, [' '] + rest, QUERY_STOPS, 511);
    } else {
      assert QueryPart(query) + ([' '] + rest) == [' '] + rest;
    }
  }

  // ----------------------------------------------------------------- request lines of any length

  /** A word longer than its buffer is cut, and what is left follows. */
  lemma {:induction false} WordCut(a: string, rest: string, stops: string, n: nat)
    requires NoStops(a, stops) && |a| > n
    ensures Word(a + rest, stops, n) == a[..n] && Drop(a + rest, n) == a[n..] + rest
  {
    ConsTail(a, rest);
    if n > 0 {
      WordCut(a[1..], rest, stops, n - 1);
      assert a[..n] == [a[0]] + a[1..][..n - 1];
    } else {
      assert a[0..] == a;
    }
  }

  predicate Blanks(gap: string) {
    forall i | 0 <= i < |gap| :: gap[i] == ' '
  }

  lemma {:induction false} BlanksSkipped(gap: string, text: string)
    requires Blanks(gap) && text != "" && text[0] != ' '
    ensures SkipSpaces(gap + text) == text
  {
    if gap == "" {
      assert gap + text == text;
    } else {
      ConsTail(gap, text);
      BlanksSkipped(gap[1..], text);
    }
  }

  /** A request line whatever its lengths: method, any number of blanks, target, and what follows. */
  function SpacedTarget(method_: string, gap: string, path: string, query: string, rest: string): string {
    method_ + (gap + (path + (QueryPart(query) + ([' '] + rest))))
  }

  lemma LongQueryRead(query: string, rest: string)
    requires NoStops(query, QUERY_STOPS)
    ensures Query(QueryPart(query) + ([' '] + rest)) == Prefix(query, 511)
  {
    var after := QueryPart(query) + ([' '] + rest);
    if query == "" {
      assert after == [' '] + rest;
    } else {
      assert after[1..] == query + ([' '] + rest);
      if |query| > 511 { WordCut(query, [' '] + rest, QUERY_STOPS, 511); }
      else { WordTaken(query, [' '] + rest, QUERY_STOPS, 511); }
    }
  }

  lemma LongPathRead(path: string, after: string)
    requires NoStops(path, PATH_STOPS) && |path| > 255
    ensures Word(path + after, PATH_STOPS, 255) == Prefix(path, 255) && Query(Drop(path + after, 255)) == ""
  {
    WordCut(path, after, PATH_STOPS, 255);
    assert (path[255..] + after)[0] == path[255];
    assert !InSet(path[255], PATH_STOPS);
  }

  lemma PathAndQuery(path: string, query: string, rest: string)
    requires NoStops(path, PATH_STOPS) && NoStops(query, QUERY_STOPS)
    ensures var text := path + (QueryPart(query) + ([' '] + rest));
      var w := Word(text, PATH_STOPS, 255);
      && w == Prefix(path, 255)
      && Query(Drop(text, |w|)) == if |path| <= 255 then Prefix(query, 511) else ""
  {
    var after := QueryPart(query) + ([' '] + rest);
    if |path| > 255 {
      LongPathRead(path, after);
    } else {
      TargetEnds(query, rest);
      WordTaken(path, after, PATH_STOPS, 255);
      LongQueryRead(query, rest);
    }
  }

  /** Path and query are cut to 255 and 511 characters; behind a path that was cut no query is read. */
  lemma LongTargetRead(method_: string, gap: string, path: string, query: string, rest: string)
    requires |method_| <= 7 && NoStops(method_, METHOD_STOPS) && gap != "" && Blanks(gap)
    requires NoStops(path, PATH_STOPS) && NoStops(query, QUERY_STOPS) && (path != "" || query != "")
    ensures RequestLine(SpacedTarget(method_, gap, path, query, rest)) ==
      Line(method_, Prefix(path, 255), if |path| <= 255 then Prefix(query, 511) else "")
  {
    var text := path + (QueryPart(query) + ([' '] + rest));
    WordTaken(method_, gap + text, METHOD_STOPS, 7);
    if path != "" { assert text[0] == path[0]; } else { assert text[0] == '?'; }
    BlanksSkipped(gap, text);
    PathAndQuery(path, query, rest);
  }

  /** What a method has beyond seven characters is taken for the path. */
  lemma LongMethodRead(method_: string, rest: string)
    requires |method_| > 7 && NoStops(method_, PATH_STOPS)
    ensures RequestLine(method_ + ([' '] + rest)) == Line(method_[..7], Prefix(method_[7..], 255), "")
  {
    assert NoStops(method_, METHOD_STOPS) by {
      forall i | 0 <= i < |method_| ensures !InSet(method_[i], METHOD_STOPS) { assert !InSet(method_[i], PATH_STOPS); }
    }
    WordCut(method_, [' '] + rest, METHOD_STOPS, 7);
    var left := method_[7..];
    assert (left + ([' '] + rest))[0] == method_[7] && !InSet(method_[7], PATH_STOPS);
    BlanksSkipped("", left + ([' '] + rest));
    assert "" + (left + ([' '] + rest)) == left + ([' '] + rest);
    assert QueryPart("") + ([' '] + rest) == [' '] + rest;
    PathAndQuery(left, "", rest);
  }

  // ----------------------------------------------------------------- whole messages

  lemma {:induction false} LinesAppend(a: seq<string>, b: seq<string>, rest: string)
    ensures PrintLines(a + b, rest) == PrintLines(a, PrintLines(b, rest))
  {
    if a == [] {
      assert a + b == b;
    } else {
      assert (a + b)[0] == a[0] && (a + b)[1..] == a[1..] + b;
      LinesAppend(a[1..], b, rest);
    }
  }

  lemma {:induction false} LinesLength(a: seq<string>, rest: string)
    ensures |PrintLines(a, rest)| == |PrintLines(a, "")| + |rest|
  {
    if a != [] { LinesLength(a[1..], rest); }
  }

  function Message(before: seq<string>, n: nat, after: seq<string>, content: string): string {
    PrintLines(before + ([LengthLine(n)] + after), EOL + content)
  }

  lemma MessageEnds(before: seq<string>, n: nat, after: seq<string>, content: string)
    requires forall i | 0 <= i < |before| :: PlainLine(before[i])
    requires forall i | 0 <= i < |after| :: PlainLine(after[i])
    ensures var s := Message(before, n, after, content);
      && |content| <= |s| && s[|s| - |content|..] == content
      && HeaderEnd(s) == Some(|s| - |content|)
  {
    var lines := before + ([LengthLine(n)] + after);
    LengthLinePlain(n);
    assert forall i | 0 <= i < |lines| :: PlainLine(lines[i]);
    PrintedHeaderEnd(lines, content);
  }

  lemma MessageSplit(before: seq<string>, n: nat, after: seq<string>, content: string)
    ensures var rest := PrintLines(after, EOL + content);
      && Message(before, n, after, content) == PrintLines(before, LengthLine(n) + (EOL + rest))
      && |Message(before, n, after, content)| - |content| > |PrintLines(before, "")|
  {
    var rest := PrintLines(after, EOL + content);
    LinesAppend(before, [LengthLine(n)] + after, EOL + content);
    var tail := [LengthLine(n)] + after;
    assert tail[0] == LengthLine(n) && tail[1..] == after;
    LinesLength(before, LengthLine(n) + (EOL + rest));
    LinesLength(after, EOL + content);
  }

  /** Whatever the lines around it, a message's header ends where its content begins, and its length is read. */
  lemma MessageRead(before: seq<string>, n: nat, after: seq<string>, content: string)
    requires forall i | 0 <= i < |before| :: OtherLine(before[i])
    requires forall i | 0 <= i < |after| :: PlainLine(after[i])
    requires n < LONG_LIMIT
    ensures var s := Message(before, n, after, content);
      && |content| <= |s| && s[|s| - |content|..] == content
      && HeaderEnd(s) == Some(|s| - |content|)
      && ContentLength(s, |s| - |content|) == n
  {
    assert forall i | 0 <= i < |before| :: OtherLine(before[i]) && PlainLine(before[i]);
    MessageEnds(before, n, after, content);
    MessageSplit(before, n, after, content);
    LengthFound(before, n, PrintLines(after, EOL + content), |Message(before, n, after, content)| - |content|);
  }

  lemma {:induction false} UpToNulShort(body: string, n: nat)
    requires |body| <= n
    ensures Without(body, NUL) ==> TakeUntil(body, NUL, n) == body
    ensures !Without(body, NUL) ==> |TakeUntil(body, NUL, n)| < |body|
  {
    if body != "" {
      UpToNulShort(body[1..], n - 1);
      assert body == [body[0]] + body[1..];
    }
  }

  lemma BodyRead(s: string, body: string)
    requires var c := UpToNul(body); |c| <= |s| && s[|s| - |c|..] == c
    ensures Body(s, |s| - |UpToNul(body)|, |body|) == if Without(body, NUL) then Some(Prefix(body, BODY_MAX)) else None
  {
    UpToNulShort(body, |body|);
    var c := UpToNul(body);
    if |c| == |body| {
      assert s[|s| - |c|..|s| - |c| + |body|] == c;
    }
  }

  /** How a message carrying `body` is framed. */
  ghost predicate Framed(s: string, body: string) {
    && HeaderEnd(s).Some?
    && ContentLength(s, HeaderEnd(s).value) == |body|
    && Body(s, HeaderEnd(s).value, |body|) == if Without(body, NUL) then Some(Prefix(body, BODY_MAX)) else None
  }

  lemma MessageFramed(before: seq<string>, after: seq<string>, body: string)
    requires forall i | 0 <= i < |before| :: OtherLine(before[i])
    requires forall i | 0 <= i < |after| :: PlainLine(after[i])
    requires |body| < LONG_LIMIT
    ensures Framed(Message(before, |body|, after, UpToNul(body)), body)
  {
    MessageRead(before, |body|, after, UpToNul(body));
    BodyRead(Message(before, |body|, after, UpToNul(body)), body);
  }

  /** What follows the first line. */
  function Remainder(more: seq<string>, n: nat, after: seq<string>, content: string): string {
    EOL + PrintLines(more + ([LengthLine(n)] + after), EOL + content)
  }

  lemma MessageOpens(first: string, more: seq<string>, n: nat, after: seq<string>, content: string)
    ensures Message([first] + more, n, after, content) == first + Remainder(more, n, after, content)
  {
    var lines := [first] + more + ([LengthLine(n)] + after);
    assert lines[0] == first && lines[1..] == more + ([LengthLine(n)] + after);
  }

  /** The request text that the mesh handler synthesizes from the fields it received. */
  function PrintRequest(method_: string, path: string, query: string, body: string): string {
    Message([FirstLine(method_, path, query), "Host: dpumesh"], |body|, [], UpToNul(body))
  }

  function FirstLine(method_: string, path: string, query: string): string {
    PrintTarget(method_, path, query, "HTTP/1.1")
  }

  lemma FirstLineOther(method_: string, path: string, query: string)
    requires WellFormed(method_, path, query)
    ensures OtherLine(FirstLine(method_, path, query))
  {
    var line := FirstLine(method_, path, query);
    assert line[|method_|] == ' ';
    assert FIELD[|method_|] != ' ';
    assert DiffersAt(line, |method_|);
    assert NoStops("HTTP/1.1", [CR, LF]);
    assert NoStops(QueryPart(query), [CR, LF]);
    assert NoStops(line, [CR, LF]);
  }

  lemma HostOther()
    ensures OtherLine("Host: dpumesh")
  {
    assert DiffersAt("Host: dpumesh", 0);
    assert NoStops("Host: dpumesh", [CR, LF]);
  }

  lemma TargetAppend(method_: string, path: string, query: string, a: string, b: string)
    ensures PrintTarget(method_, path, query, a) + b == PrintTarget(method_, path, query, a + b)
  {
  }

  /** Print a request and parse it: the same fields and body (cut to the parser's buffer) come back, except
      that a body with a NUL never completes. */
  lemma RequestRoundTrip(method_: string, path: string, query: string, body: string)
    requires WellFormed(method_, path, query) && |body| < INT_LIMIT
    requires |PrintRequest(method_, path, query, body)| <= BUFFER_MAX
    ensures ParseRequest(PrintRequest(method_, path, query, body)) ==
      if Without(body, NUL) then Done(Request(Line(method_, path, query), |body|, Prefix(body, BODY_MAX))) else NeedMore
  {
    var first, host := FirstLine(method_, path, query), "Host: dpumesh";
    FirstLineOther(method_, path, query);
    HostOther();
    MessageFramed([first, host], [], body);
    assert [first] + [host] == [first, host];
    MessageOpens(first, [host], |body|, [], UpToNul(body));
    var tail := Remainder([host], |body|, [], UpToNul(body));
    TargetAppend(method_, path, query, "HTTP/1.1", tail);
    TargetRead(method_, path, query, "HTTP/1.1" + tail);
  }

  // ----------------------------------------------------------------- responses

  function StatusLine(status: int, reason: string): string {
    "HTTP/1.1 " + (PrintInt(status) + ([' '] + reason))
  }

  function Reason(status: int): string {
    match status
    case 200 => "OK"
    case 400 => "Bad Request"
    case 404 => "Not Found"
    case 500 => "Internal Server Error"
    case _ => "Unknown"
  }

  /** The text synthesized for an upstream response. */
  function PrintUpstream(status: int, body: string): string {
    Message([StatusLine(status, "OK")], |body|, [], UpToNul(body))
  }

  /** http_format_response */
  function FormatResponse(status: int, body: string): string {
    Message([StatusLine(status, Reason(status)), "Content-Type: application/json"], |body|, ["Connection: close"],
      UpToNul(body))
  }

  lemma StatusLineOther(status: int, reason: string)
    requires Without(reason, CR) && Without(reason, LF)
    ensures OtherLine(StatusLine(status, reason))
  {
    var line := StatusLine(status, reason);
    assert DiffersAt(line, 0);
    PrintedIsPlain(status);
    assert NoStops("HTTP/1.1 ", [CR, LF]);
    assert NoStops(PrintInt(status), [CR, LF]);
    assert NoStops([' '] + reason, [CR, LF]);
    assert NoStops(line, [CR, LF]);
  }

  lemma ReasonPlain(status: int)
    ensures Without(Reason(status), CR) && Without(Reason(status), LF)
  {
  }

  lemma StatusRead(status: int, reason: string, tail: string)
    requires -INT_LIMIT <= status < INT_LIMIT
    ensures var s := StatusLine(status, reason) + tail; |s| >= 9 && Atoi(s[9..]) == status
  {
    var s := StatusLine(status, reason) + tail;
    var rest := [' '] + (reason + tail);
    BehindVersion(status, reason, tail);
    IntRoundTrip(status, rest);
    AtoiOf(s[9..], status);
  }

  lemma BehindVersion(status: int, reason: string, tail: string)
    ensures var s := StatusLine(status, reason) + tail;
      |s| >= 9 && s[9..] == PrintInt(status) + ([' '] + (reason + tail))
  {
  }

  /** Any message that opens with a status line. */
  lemma ResponseRead(status: int, reason: string, more: seq<string>, after: seq<string>, body: string)
    requires -INT_LIMIT <= status < INT_LIMIT && |body| < INT_LIMIT
    requires Without(reason, CR) && Without(reason, LF)
    requires forall i | 0 <= i < |more| :: OtherLine(more[i])
    requires forall i | 0 <= i < |after| :: PlainLine(after[i])
    ensures ParseResponse(Message([StatusLine(status, reason)] + more, |body|, after, UpToNul(body))) ==
      if Without(body, NUL) then Done(Response(status, |body|, Prefix(body, BODY_MAX))) else NeedMore
  {
    var line := StatusLine(status, reason);
    StatusLineOther(status, reason);
    MessageFramed([line] + more, after, body);
    MessageOpens(line, more, |body|, after, UpToNul(body));
    StatusRead(status, reason, Remainder(more, |body|, after, UpToNul(body)));
    LongEnough(status, reason, Remainder(more, |body|, after, UpToNul(body)));
  }

  lemma LongEnough(status: int, reason: string, tail: string)
    requires |tail| >= 1
    ensures |StatusLine(status, reason) + tail| >= 12
  {
  }

  lemma UpstreamRoundTrip(status: int, body: string)
    requires -INT_LIMIT <= status < INT_LIMIT && |body| < INT_LIMIT
    requires |PrintUpstream(status, body)| <= BUFFER_MAX
    ensures ParseResponse(PrintUpstream(status, body)) ==
      if Without(body, NUL) then Done(Response(status, |body|, Prefix(body, BODY_MAX))) else NeedMore
  {
    assert [StatusLine(status, "OK")] + [] == [StatusLine(status, "OK")];
    ReasonPlain(200);
    ResponseRead(status, "OK", [], [], body);
  }

  lemma FormattedRoundTrip(status: int, body: string)
    requires -INT_LIMIT <= status < INT_LIMIT && |body| < INT_LIMIT
    requires |FormatResponse(status, body)| <= BUFFER_MAX
    ensures ParseResponse(FormatResponse(status, body)) ==
      if Without(body, NUL) then Done(Response(status, |body|, Prefix(body, BODY_MAX))) else NeedMore
  {
    ReasonPlain(status);
    FormattedLines();
    assert [StatusLine(status, Reason(status))] + ["Content-Type: application/json"]
        == [StatusLine(status, Reason(status)), "Content-Type: application/json"];
    ResponseRead(status, Reason(status), ["Content-Type: application/json"], ["Connection: close"], body);
  }

  lemma FormattedLines()
    ensures OtherLine("Content-Type: application/json") && PlainLine("Connection: close")
  {
    assert DiffersAt("Content-Type: application/json", 8);
    assert NoStops("Content-Type: application/json", [CR, LF]);
  }

  // ----------------------------------------------------------------- empty bodies

  /** What the writer puts on the wire: an empty body travels as one NUL. */
  function WireBody(body: string): string {
    if body == "" then [NUL] else body
  }

  /** What the request side makes of it. */
  function RequestBody(wire: string): string {
    if wire == [NUL] then "" else wire
  }

  /** A request body survives the wire and the parser exactly when it is NUL-free; the encoding of the
      empty body is undone. */
  lemma RequestThroughTheWire(method_: string, path: string, query: string, body: string)
    requires WellFormed(method_, path, query) && |body| <= BODY_MAX
    requires |PrintRequest(method_, path, query, RequestBody(WireBody(body)))| <= BUFFER_MAX
    ensures var r := ParseRequest(PrintRequest(method_, path, query, RequestBody(WireBody(body))));
      r == Done(Request(Line(method_, path, query), |body|, body)) <==> Without(body, NUL)
  {
    var arrived := RequestBody(WireBody(body));
    RequestRoundTrip(method_, path, query, arrived);
    SameBody(ParseRequest(PrintRequest(method_, path, query, arrived)), Line(method_, path, query), body);
  }

  lemma SameBody(r: Parse<Request>, line: Line, body: string)
    requires |body| <= BODY_MAX
    requires var arrived := RequestBody(WireBody(body));
      r == if Without(arrived, NUL) then Done(Request(line, |arrived|, Prefix(arrived, BODY_MAX))) else NeedMore
    ensures r == Done(Request(line, |body|, body)) <==> Without(body, NUL)
  {
    if body == [NUL] { assert body[0] == NUL; }
  }

  /** A response body must also be non-empty: the one NUL that stands for an empty one is not undone, and
      the parse asks for more for ever. */
  lemma ResponseThroughTheWire(status: int, body: string)
    requires -INT_LIMIT <= status < INT_LIMIT && |body| <= BODY_MAX
    requires |PrintUpstream(status, WireBody(body))| <= BUFFER_MAX
    ensures ParseResponse(PrintUpstream(status, WireBody(body))) ==
      if body != "" && Without(body, NUL) then Done(Response(status, |body|, body)) else NeedMore
  {
    UpstreamRoundTrip(status, WireBody(body));
    assert body == "" ==> WireBody(body)[0] == NUL;
  }
}
