/** The incremental HTTP parser: header end, Content-Length, request line, body. A parse is repeated on a
    growing buffer until it says it is complete. The buffer is zeroed, so past its end a scan reads NUL. */
module Http {
  import opened Options
  import opened Text

  const CR: char := '\r'
  const LF: char := '\n'
  const NUL: char := 0 as char
  const FIELD: string := "content-length:"
  const BODY_MAX: nat := 4095
  const BUFFER_MAX: nat := 8191

  // ----------------------------------------------------------------- where the header ends

  /** find_header_end: the length of the header with its blank line. */
  function HeaderEnd(s: string): (r: Option<nat>)
    ensures r.Some? ==> 2 <= r.value <= |s|
  {
    if |s| < 2 then None
    else if |s| >= 4 && s[0] == CR && s[1] == LF && s[2] == CR && s[3] == LF then Some(4)
    else if s[0] == LF && s[1] == LF then Some(2)
    else
      var r := HeaderEnd(s[1..]);
      if r.None? then None else Some(r.value + 1)
  }

  method FindHeaderEnd(buf: string) returns (r: Option<nat>)
    ensures r == HeaderEnd(buf)
  {
    var i := 0;
    while i + 1 < |buf|
      invariant 0 <= i <= |buf|
      invariant HeaderEnd(buf) == var r := HeaderEnd(buf[i..]); if r.None? then None else Some(i + r.value)
    {
      if i + 3 < |buf| && buf[i] == CR && buf[i + 1] == LF && buf[i + 2] == CR && buf[i + 3] == LF {
        return Some(i + 4);
      }
      if buf[i] == LF && buf[i + 1] == LF {
        return Some(i + 2);
      }
      assert buf[i..][1..] == buf[i + 1..];
      i := i + 1;
    }
    return None;
  }

  /** A blank line ends at `k`, in either convention. */
  predicate BlankAt(s: string, k: nat)
    requires k <= |s|
  {
    || (k >= 2 && s[k - 2] == LF && s[k - 1] == LF)
    || (k >= 4 && s[k - 4] == CR && s[k - 3] == LF && s[k - 2] == CR && s[k - 1] == LF)
  }

  lemma BlankShift(s: string, k: nat)
    requires s != "" && k <= |s[1..]|
    ensures BlankAt(s[1..], k) ==> BlankAt(s, k + 1)
    ensures BlankAt(s, k + 1) && !BlankAt(s[1..], k) ==>
      k <= 3 && BlankAt(s[..k + 1], k + 1) && HeaderEnd(s) == Some(k + 1)
  {
  }

  /** The header ends at the first blank line, whichever convention it uses: the order in which the loop
      tries the two does not matter. */
  lemma {:induction false} HeaderEndIsFirst(s: string)
    ensures HeaderEnd(s).Some? ==> BlankAt(s, HeaderEnd(s).value)
    ensures forall k: nat | k <= |s| && BlankAt(s, k) :: HeaderEnd(s).Some? && HeaderEnd(s).value <= k
  {
    if |s| >= 2 {
      HeaderEndIsFirst(s[1..]);
      if HeaderEnd(s[1..]).Some? {
        BlankShift(s, HeaderEnd(s[1..]).value);
      }
      forall k: nat | k <= |s| && BlankAt(s, k) ensures HeaderEnd(s).Some? && HeaderEnd(s).value <= k {
        BlankShift(s, k - 1);
      }
    }
  }

  lemma BlankInPrefix(s: string, n: nat, k: nat)
    requires k <= n <= |s|
    ensures BlankAt(s[..n], k) == BlankAt(s, k)
  {
  }

  /** For every input: a prefix sees the header end exactly when it reaches it, and then sees the same one. */
  lemma HeaderEndOfPrefix(s: string, n: nat)
    requires n <= |s|
    ensures HeaderEnd(s[..n]) == if HeaderEnd(s).Some? && HeaderEnd(s).value <= n then HeaderEnd(s) else None
  {
    var p := s[..n];
    HeaderEndIsFirst(s);
    HeaderEndIsFirst(p);
    if HeaderEnd(p).Some? {
      BlankInPrefix(s, n, HeaderEnd(p).value);
    }
    if HeaderEnd(s).Some? && HeaderEnd(s).value <= n {
      BlankInPrefix(s, n, HeaderEnd(s).value);
    }
  }

  // ----------------------------------------------------------------- Content-Length

  function Lower(c: char): char {
    if 'A' <= c <= 'Z' then c + 32 as char else c
  }

  /** strncasecmp with the field name. */
  predicate NamesLength(s: string) {
    |s| >= 15 && forall i | 0 <= i < 15 :: Lower(s[i]) == FIELD[i]
  }

  /** What follows the field name, if one of the first `n` characters starts a line with it. */
  function LengthText(s: string, n: nat, lineStart: bool): (r: Option<string>)
    requires n <= |s|
  {
    if n == 0 then None
    else if lineStart && NamesLength(s) then Some(s[15..])
    else LengthText(s[1..], n - 1, s[0] == LF)
  }

  const CAPITAL_FIELD: string := "CONTENT-LENGTH:"

  /** The field's name, each letter small or capital. */
  predicate NamesInAnyCase(s: string) {
    |s| >= 15 && forall i | 0 <= i < 15 :: s[i] == FIELD[i] || s[i] == CAPITAL_FIELD[i]
  }

  lemma LowerIff(c: char, i: nat)
    requires i < 15
    ensures Lower(c) == FIELD[i] <==> c == FIELD[i] || c == CAPITAL_FIELD[i]
  {
  }

  /** The comparison takes the name in any mix of cases, and nothing else. */
  lemma NamesLengthIff(s: string)
    ensures NamesLength(s) <==> NamesInAnyCase(s)
  {
    forall i | 0 <= i < 15 && |s| >= 15
      ensures Lower(s[i]) == FIELD[i] <==> s[i] == FIELD[i] || s[i] == CAPITAL_FIELD[i]
    {
      LowerIff(s[i], i);
    }
  }

  /** A line that begins at `i` with the field's name. */
  predicate FieldAt(s: string, i: int, lineStart: bool) {
    0 <= i < |s| && (if i == 0 then lineStart else s[i - 1] == LF) && NamesInAnyCase(s[i..])
  }

  predicate FirstField(s: string, n: nat, lineStart: bool, text: string, i: int) {
    i < n && FieldAt(s, i, lineStart) && text == s[i + 15..] && forall j | 0 <= j < i :: !FieldAt(s, j, lineStart)
  }

  lemma FieldLater(s: string, i: int, lineStart: bool)
    requires s != "" && i > 0
    ensures FieldAt(s, i, lineStart) <==> FieldAt(s[1..], i - 1, s[0] == LF)
  {
    if i < |s| { assert s[i..] == s[1..][i - 1..]; }
  }

  /** The header's length is read behind the first line that begins with the field's name, in any mix of cases. */
  lemma {:induction false} LengthTextIsFirst(s: string, n: nat, lineStart: bool)
    requires n <= |s|
    ensures LengthText(s, n, lineStart).None? ==> forall i | i < n :: !FieldAt(s, i, lineStart)
    ensures LengthText(s, n, lineStart).Some? ==>
      exists i :: FirstField(s, n, lineStart, LengthText(s, n, lineStart).value, i)
  {
    if n > 0 {
      assert s[0..] == s;
      NamesLengthIff(s);
      if lineStart && NamesLength(s) {
        assert FirstField(s, n, lineStart, s[15..], 0);
      } else {
        LengthTextIsFirst(s[1..], n - 1, s[0] == LF);
        forall i | i > 0 ensures FieldAt(s, i, lineStart) <==> FieldAt(s[1..], i - 1, s[0] == LF) {
          FieldLater(s, i, lineStart);
        }
        if LengthText(s[1..], n - 1, s[0] == LF).Some? {
          var text := LengthText(s[1..], n - 1, s[0] == LF).value;
          var i :| FirstField(s[1..], n - 1, s[0] == LF, text, i);
          assert s[i + 16..] == s[1..][i + 15..];
          assert FirstField(s, n, lineStart, text, i + 1);
        }
      }
    }
  }

  function ContentLength(s: string, h: nat): (r: nat)
    requires h <= |s|
  {
    var text := LengthText(s, h, true);
    if text.None? then 0 else Atol(SkipSpaces(text.value))
  }

  method ParseContentLength(buf: string, hlen: nat) returns (n: nat)
    requires hlen <= |buf|
    ensures n == ContentLength(buf, hlen)
  {
    var p := 0;
    while p < hlen
      invariant 0 <= p <= hlen
      invariant LengthText(buf[p..], hlen - p, p == 0 || buf[p - 1] == LF) == LengthText(buf, hlen, true)
    {
      if (p == 0 || buf[p - 1] == LF) && NamesLength(buf[p..]) {
        p := p + 15;
        ghost var text := buf[p..];
        while p < |buf| && buf[p] == ' '
          invariant p <= |buf|
          invariant SkipSpaces(buf[p..]) == SkipSpaces(text)
        {
          assert buf[p..][1..] == buf[p + 1..];
          p := p + 1;
        }
        return Atol(buf[p..]);
      }
      assert buf[p..][1..] == buf[p + 1..];
      p := p + 1;
    }
    n := 0;
  }

  // ----------------------------------------------------------------- the request line

  predicate InSet(c: char, stops: string) {
    c in stops
  }

  /** while (*p not in stops && i < n) copy; past the end it copies NULs. */
  function Word(s: string, stops: string, n: nat): (w: string)
    ensures |w| <= n
    decreases |s| + n
  {
    if n == 0 || (s != "" && InSet(s[0], stops)) then ""
    else if s == "" then [NUL] + Word(s, stops, n - 1)
    else [s[0]] + Word(s[1..], stops, n - 1)
  }

  const METHOD_STOPS: string := " "
  const PATH_STOPS: string := [' ', '?', '\r']
  const QUERY_STOPS: string := [' ', '\r']

  datatype Line = Line(method_: string, path: string, query: string)

  function AfterMethod(s: string): string {
    SkipSpaces(Drop(s, |Word(s, METHOD_STOPS, 7)|))
  }

  function AfterPath(s: string): string {
    Drop(AfterMethod(s), |Word(AfterMethod(s), PATH_STOPS, 255)|)
  }

  function Query(rest: string): string {
    if rest != "" && rest[0] == '?' then Word(rest[1..], QUERY_STOPS, 511) else ""
  }

  function RequestLine(s: string): Line {
    Line(Word(s, METHOD_STOPS, 7), Word(AfterMethod(s), PATH_STOPS, 255), Query(AfterPath(s)))
  }

  /** One turn of the loop adds one character to what it has. */
  lemma WordStep(w: string, s: string, i: nat, stops: string, n: nat)
    requires i < n && (i >= |s| || !InSet(s[i], stops))
    ensures w + Word(Drop(s, i), stops, n - i) ==
      (w + [if i < |s| then s[i] else NUL]) + Word(Drop(s, i + 1), stops, n - (i + 1))
  {
    if i < |s| { assert Drop(s, i)[1..] == Drop(s, i + 1); }
  }

  method CopyWord(s: string, stops: string, n: nat) returns (w: string, rest: string)
    ensures w == Word(s, stops, n) && rest == Drop(s, |w|)
  {
    var i := 0;
    w := "";
    while i < n && (i >= |s| || !InSet(s[i], stops))
      invariant 0 <= i <= n && |w| == i
      invariant w + Word(Drop(s, i), stops, n - i) == Word(s, stops, n)
    {
      WordStep(w, s, i, stops, n);
      w := w + [if i < |s| then s[i] else NUL];
      i := i + 1;
    }
    rest := Drop(s, i);
  }

  method ReadLine(buf: string) returns (line: Line)
    ensures line == RequestLine(buf)
  {
    var word, p := CopyWord(buf, METHOD_STOPS, 7);
    ghost var gap := p;
    while p != "" && p[0] == ' '
      invariant SkipSpaces(p) == SkipSpaces(gap)
      decreases |p|
    {
      p := p[1..];
    }
    var path, query := "", "";
    path, p := CopyWord(p, PATH_STOPS, 255);
    if p != "" && p[0] == '?' {
      query, p := CopyWord(p[1..], QUERY_STOPS, 511);
    }
    line := Line(word, path, query);
  }

  // ----------------------------------------------------------------- parsing

  datatype Request = Request(line: Line, contentLength: nat, body: string)
  datatype Response = Response(status: int, contentLength: nat, body: string)
  datatype Parse<+T> = NeedMore | Bad | Done(value: T)

  /** The body if it is all there, cut to the receiving buffer. */
  function Body(s: string, h: nat, n: nat): (r: Option<string>)
    requires h <= |s|
  {
    if n == 0 then Some("")
    else if |s| - h < n then None
    else Some(Prefix(s[h..h + n], BODY_MAX))
  }

  function Complete(s: string, h: nat, line: Line, n: nat): (r: Parse<Request>)
    requires h <= |s|
    ensures r.Done? <==> |s| >= h + n
    ensures !r.Bad?
    ensures r.Done? ==> r.value.line == line && r.value.contentLength == n
  {
    var body := Body(s, h, n);
    if body.None? then NeedMore else Done(Request(line, n, body.value))
  }

  /** http_parse_request */
  function ParseRequest(s: string): (r: Parse<Request>) {
    var end := HeaderEnd(s);
    if end.None? then NeedMore else Complete(s, end.value, RequestLine(s), ContentLength(s, end.value))
  }

  /** http_parse_response */
  function ParseResponse(s: string): (r: Parse<Response>) {
    var end := HeaderEnd(s);
    if end.None? then NeedMore
    else if |s| < 12 then Bad
    else
      var n := ContentLength(s, end.value);
      var body := Body(s, end.value, n);
      if body.None? then NeedMore else Done(Response(Atoi(s[9..]), n, body.value))
  }

  /** A response whose header ends within twelve characters is the one thing that is refused. */
  lemma RefusedIff(s: string)
    ensures ParseResponse(s).Bad? <==> HeaderEnd(s).Some? && |s| < 12
    ensures !ParseRequest(s).Bad?
  {
  }

  method ReadRequest(buf: string) returns (r: Parse<Request>)
    ensures r == ParseRequest(buf)
  {
    var end := FindHeaderEnd(buf);
    if end.None? {
      return NeedMore;
    }
    var line := ReadLine(buf);
    var n := ParseContentLength(buf, end.value);
    var body := "";
    if n > 0 {
      if |buf| - end.value < n {
        return NeedMore;
      }
      var copy := if n < BODY_MAX + 1 then n else BODY_MAX;
      body := buf[end.value..end.value + copy];
      assert body == Prefix(buf[end.value..end.value + n], BODY_MAX);
    }
    return Done(Request(line, n, body));
  }

  method ReadResponse(buf: string) returns (r: Parse<Response>)
    ensures r == ParseResponse(buf)
  {
    var end := FindHeaderEnd(buf);
    if end.None? {
      return NeedMore;
    }
    if |buf| < 12 {
      return Bad;
    }
    var status := Atoi(buf[9..]);
    var n := ParseContentLength(buf, end.value);
    var body := "";
    if n > 0 {
      if |buf| - end.value < n {
        return NeedMore;
      }
      var copy := if n < BODY_MAX + 1 then n else BODY_MAX;
      body := buf[end.value..end.value + copy];
      assert body == Prefix(buf[end.value..end.value + n], BODY_MAX);
    }
    return Done(Response(status, n, body));
  }
}
