/** What a worker reads of a bridge request's header fields. The brace counter that cuts the header out of the
    combined text does not know of strings: a closing brace inside a value can end the header early. */
module Case2Fields {
  import opened Options
  import opened Text
  import opened HeaderJson
  import opened Case2

  // ----------------------------------------------------------------- braces in the values

  /** Closing braces minus opening ones. */
  function Surplus(s: string): int {
    if s == "" then 0 else (if s[0] == '}' then 1 else if s[0] == '{' then -1 else 0) + Surplus(s[1..])
  }

  /** No closing brace without its opening one, unless it is the last character. */
  ghost predicate StaysOpen(s: string) {
    forall k | 0 <= k < |s| :: Surplus(s[..k]) <= 0
  }

  /** The values of a bridge request's header, as the client sent them. */
  function Sent(h: Header, remoteAddr: string): seq<string> {
    [h.method_, h.url, h.path, "{}", h.query, remoteAddr, PrintInt(h.status), h.reqId, h.source, h.dest]
  }

  /** The values up to the `i`-th; a quote stands for the text in front of that one. */
  function UpTo(values: seq<string>, i: nat): (r: string)
    requires i < |values|
    ensures r != ""
  {
    if i == 0 then [QUOTE] + values[0] else values[0] + UpTo(values[1..], i - 1)
  }

  // ----------------------------------------------------------------- the counter

  /** The counter, at `d`, is positive in front of every character. */
  predicate Passes(s: string, d: nat) {
    s == "" || (d >= 1 && Passes(s[1..], if s[0] == '{' then d + 1 else if s[0] == '}' then d - 1 else d))
  }

  lemma {:induction false} ClosingReaches(s: string, d: nat, n: nat)
    requires n <= |s|
    ensures Closing(s, d) >= n <==> Passes(s[..n], d)
  {
    if n > 0 {
      assert s[..n][1..] == s[1..][..n - 1];
      if d > 0 { ClosingReaches(s[1..], if s[0] == '{' then d + 1 else if s[0] == '}' then d - 1 else d, n - 1); }
    }
  }

  /** The counter stops behind a closing brace. */
  lemma {:induction false} ClosingAtBrace(s: string, d: nat)
    requires d >= 1 && Closing(s, d) < |s|
    ensures Closing(s, d) >= 1 && s[Closing(s, d) - 1] == '}'
  {
    var d' := if s[0] == '{' then d + 1 else if s[0] == '}' then d - 1 else d;
    if d' >= 1 { ClosingAtBrace(s[1..], d'); }
  }

  lemma {:induction false} PassesIff(s: string, d: nat)
    ensures Passes(s, d) <==> forall k | 0 <= k < |s| :: Surplus(s[..k]) < d
  {
    if s != "" {
      var d' := if s[0] == '{' then d + 1 else if s[0] == '}' then d - 1 else d;
      assert Surplus(s[..0]) == 0;
      if d >= 1 {
        PassesIff(s[1..], d');
        forall k | 1 <= k < |s| ensures Surplus(s[..k]) < d <==> Surplus(s[1..][..k - 1]) < d' {
          assert s[..k][1..] == s[1..][..k - 1];
        }
        assert forall k | 0 <= k < |s| - 1 :: s[1..][..k] == s[1..][..(k + 1) - 1];
        if forall k | 0 <= k < |s| :: Surplus(s[..k]) < d {
          forall k | 0 <= k < |s[1..]| ensures Surplus(s[1..][..k]) < d' { assert Surplus(s[..k + 1]) < d; }
        }
      }
    }
  }

  /** Two texts on which the counter fares alike. */
  ghost predicate Alike(a: string, b: string) {
    forall d: nat :: Passes(a, d) <==> Passes(b, d)
  }

  lemma {:induction false} BraceFreePasses(a: string, t: string, d: nat)
    requires BraceFreeText(a) && t != ""
    ensures Passes(a + t, d) <==> Passes(t, d)
  {
    if a == "" {
      assert a + t == t;
    } else {
      ConsTail(a, t);
      BraceFreePasses(a[1..], t, d);
    }
  }

  lemma AlikeBehind(a: string, t: string, t': string)
    requires BraceFreeText(a) && t != "" && Alike(t, t')
    ensures Alike(a + t, t')
  {
    forall d: nat ensures Passes(a + t, d) <==> Passes(t', d) { BraceFreePasses(a, t, d); }
  }

  lemma {:induction false} EscapePasses(s: string, t: string, t': string, d: nat)
    requires t != "" && t' != "" && Alike(t, t')
    ensures Passes(Escape(s) + t, d) <==> Passes(s + t', d)
    decreases |s|
  {
    if s == "" {
      assert Escape(s) + t == t && s + t' == t';
    } else {
      var rest := Escape(s[1..]) + t;
      EscapeCons(s, t);
      ConsTail(s, t');
      if s[0] == '{' || s[0] == '}' {
        OneInFront(s[0], rest);
        if d >= 1 { EscapePasses(s[1..], t, t', if s[0] == '{' then d + 1 else d - 1); }
      } else {
        EscapePasses(s[1..], t, t', d);
        BraceFreePasses(EscapeChar(s[0]), rest, d);
      }
    }
  }

  lemma AlikeEscaped(s: string, t: string, t': string)
    requires t != "" && t' != "" && Alike(t, t')
    ensures Alike(Escape(s) + t, s + t')
  {
    forall d: nat ensures Passes(Escape(s) + t, d) <==> Passes(s + t', d) { EscapePasses(s, t, t', d); }
  }

  // ----------------------------------------------------------------- the printed header

  /** The entries up to the last character of the `i`-th value. */
  function PrintUpTo(entries: seq<Entry>, i: nat): (r: string)
    requires i < |entries|
    ensures r != ""
  {
    var e := entries[0];
    if i == 0 then [QUOTE] + (e.key + ([QUOTE] + (": " + ([QUOTE] + e.value))))
    else PrintEntry(e, PrintUpTo(entries[1..], i - 1))
  }

  /** What follows that value. */
  function Behind(entries: seq<Entry>, i: nat, rest: string): (r: string)
    requires i < |entries|
    ensures r != "" && r[0] == QUOTE
  {
    [QUOTE] + (entries[i].sep + PrintEntries(entries[i + 1..], rest))
  }

  lemma {:induction false} PrintedSplit(entries: seq<Entry>, i: nat, rest: string)
    requires i < |entries| && entries[i].Quoted?
    ensures PrintEntries(entries, rest) == PrintUpTo(entries, i) + Behind(entries, i, rest)
  {
    var e := entries[0];
    if i == 0 {
      var more := Behind(entries, 0, rest);
      Assoc([QUOTE], e.value, more);
      KeyAppend(e.key, ": " + ([QUOTE] + e.value), more);
      Assoc(": ", [QUOTE] + e.value, more);
    } else {
      PrintedSplit(entries[1..], i - 1, rest);
      assert entries[1..][i - 1 + 1..] == entries[i + 1..];
      EntryAppend(e, PrintUpTo(entries[1..], i - 1), Behind(entries, i, rest));
    }
  }

  /** The value is the end of the text up to it. */
  lemma {:induction false} ValueLast(entries: seq<Entry>, i: nat)
    requires i < |entries|
    ensures |PrintUpTo(entries, i)| >= |entries[i].value|
  {
    if i > 0 { ValueLast(entries[1..], i - 1); }
  }

  /** Entries that print these values, escaped, and have no braces elsewhere. */
  ghost predicate Prints(entries: seq<Entry>, values: seq<string>) {
    && |entries| == |values|
    && forall j | 0 <= j < |entries| ::
         && entries[j].value == Escape(values[j]) && BraceFreeText(entries[j].key)
         && (j < |entries| - 1 ==> BraceFreeText(entries[j].sep))
  }

  lemma PunctuationBraceFree()
    ensures BraceFreeText([QUOTE]) && BraceFreeText(": ")
  {
  }

  lemma LastAlike(e: Entry, value: string)
    requires e.value == Escape(value) && BraceFreeText(e.key)
    ensures Alike([QUOTE] + (e.key + ([QUOTE] + (": " + ([QUOTE] + e.value)))), [QUOTE] + value)
  {
    PunctuationBraceFree();
    assert e.value + "" == e.value && value + "" == value;
    var t, t' := [QUOTE] + e.value, [QUOTE] + value;
    QuoteThenValue(value);
    AlikeBehind(": ", t, t');
    AlikeBehind([QUOTE], ": " + t, t');
    AlikeBehind(e.key, [QUOTE] + (": " + t), t');
    AlikeBehind([QUOTE], e.key + ([QUOTE] + (": " + t)), t');
  }

  lemma {:induction false} EscapeAlone(s: string, d: nat)
    ensures Passes(Escape(s), d) <==> Passes(s, d)
  {
    if s != "" {
      EscapeAlone(s[1..], if s[0] == '{' then d + 1 else if s[0] == '}' && d > 0 then d - 1 else d);
      if s[0] == '{' || s[0] == '}' { OneInFront(s[0], Escape(s[1..])); }
      else if s[1..] == "" { assert Escape(s) == EscapeChar(s[0]); BraceFreeAlone(EscapeChar(s[0]), d); }
      else { EscapeNonEmpty(s[1..]); BraceFreePasses(EscapeChar(s[0]), Escape(s[1..]), d); }
    }
  }

  lemma EscapeNonEmpty(s: string)
    requires s != ""
    ensures Escape(s) != ""
  {
  }

  lemma {:induction false} BraceFreeAlone(a: string, d: nat)
    requires BraceFreeText(a) && a != ""
    ensures Passes(a, d) <==> d >= 1
  {
    if |a| > 1 { BraceFreeAlone(a[1..], d); }
  }

  lemma QuoteThenValue(value: string)
    ensures Alike([QUOTE] + Escape(value), [QUOTE] + value)
  {
    forall d: nat ensures Passes([QUOTE] + Escape(value), d) <==> Passes([QUOTE] + value, d) {
      EscapeAlone(value, d);
      OneInFront(QUOTE, Escape(value));
      OneInFront(QUOTE, value);
    }
  }

  lemma EntryAlike(e: Entry, value: string, t: string, t': string)
    requires e.value == Escape(value) && BraceFreeText(e.key) && BraceFreeText(e.sep)
    requires t != "" && t' != "" && Alike(t, t')
    ensures Alike(PrintEntry(e, t), value + t')
  {
    AlikeBehind(e.sep, t, t');
    if e.Quoted? { QuotedAlike(e, value, e.sep + t, t'); } else { BareAlike(e, value, t, t'); }
  }

  lemma QuotedAlike(e: Entry, value: string, t: string, t': string)
    requires e.value == Escape(value) && BraceFreeText(e.key) && t != "" && t' != "" && Alike(t, t')
    ensures Alike([QUOTE] + (e.key + ([QUOTE] + (": " + ([QUOTE] + (e.value + ([QUOTE] + t)))))), value + t')
  {
    PunctuationBraceFree();
    AlikeBehind([QUOTE], t, t');
    AlikeEscaped(value, [QUOTE] + t, t');
    AlikeBehind([QUOTE], e.value + ([QUOTE] + t), value + t');
    KeyAlike(e.key, [QUOTE] + (e.value + ([QUOTE] + t)), value + t');
  }

  lemma BareAlike(e: Entry, value: string, t: string, t': string)
    requires e.value == Escape(value) && BraceFreeText(e.key) && e.Bare?
    requires t != "" && t' != "" && Alike(e.sep + t, t')
    ensures Alike(PrintEntry(e, t), value + t')
  {
    AlikeEscaped(value, e.sep + t, t');
    KeyAlike(e.key, e.value + (e.sep + t), value + t');
    assert ": " + e.value + e.sep + t == ": " + (e.value + (e.sep + t));
  }

  lemma KeyAlike(key: string, t: string, t': string)
    requires BraceFreeText(key) && t != "" && Alike(t, t')
    ensures Alike([QUOTE] + (key + ([QUOTE] + (": " + t))), t')
  {
    PunctuationBraceFree();
    AlikeBehind(": ", t, t');
    AlikeBehind([QUOTE], ": " + t, t');
    AlikeBehind(key, [QUOTE] + (": " + t), t');
    AlikeBehind([QUOTE], key + ([QUOTE] + (": " + t)), t');
  }

  lemma RestPrints(entries: seq<Entry>, values: seq<string>)
    requires Prints(entries, values) && |entries| > 1
    ensures Prints(entries[1..], values[1..])
    ensures entries[0].value == Escape(values[0]) && BraceFreeText(entries[0].key) && BraceFreeText(entries[0].sep)
  {
  }

  lemma OnAlike(entries: seq<Entry>, values: seq<string>, i: nat)
    requires 0 < i < |entries| == |values| && Alike(PrintUpTo(entries[1..], i - 1), UpTo(values[1..], i - 1))
    requires entries[0].value == Escape(values[0]) && BraceFreeText(entries[0].key) && BraceFreeText(entries[0].sep)
    ensures Alike(PrintUpTo(entries, i), UpTo(values, i))
  {
    EntryAlike(entries[0], values[0], PrintUpTo(entries[1..], i - 1), UpTo(values[1..], i - 1));
  }

  /** On the printed header the counter fares as on the values alone. */
  lemma {:induction false} PrintedAlike(entries: seq<Entry>, values: seq<string>, i: nat)
    requires Prints(entries, values) && i < |entries|
    ensures Alike(PrintUpTo(entries, i), UpTo(values, i))
  {
    if i == 0 {
      LastAlike(entries[0], values[0]);
    } else {
      RestPrints(entries, values);
      PrintedAlike(entries[1..], values[1..], i - 1);
      OnAlike(entries, values, i);
    }
  }

  // ----------------------------------------------------------------- searching a text that was cut

  /** What is left of the suffix `rest` of `s` when only `n` characters are. */
  function CutSuffix(s: string, rest: string, n: nat): Option<string> {
    var at := |s| - |rest|;
    if 0 <= at <= n <= |s| then Some(s[at..n]) else None
  }

  /** Cutting a text keeps the first match if all of it is kept, and leaves no other. */
  lemma {:induction false} AfterOfPrefix(s: string, n: nat, pat: string)
    requires n <= |s|
    ensures var found := After(s, pat);
      After(s[..n], pat) == if found.None? then None else CutSuffix(s, found.value, n)
    ensures After(s, pat).Some? ==> |After(s, pat).value| + |pat| <= |s|
  {
    if |s| >= |pat| {
      if pat <= s {
        if n >= |pat| {
          assert pat <= s[..n] && s[..n][|pat|..] == s[|pat|..n];
        }
      } else {
        if n > 0 {
          assert s[..n][1..] == s[1..][..n - 1];
          AfterOfPrefix(s[1..], n - 1, pat);
        } else {
          AfterOfPrefix(s[1..], 0, pat);
        }
        PrefixMatches(s, n, pat);
        var found := After(s[1..], pat);
        if found.Some? && |s| - |found.value| <= n {
          assert s[1..][|s| - 1 - |found.value|..n - 1] == s[|s| - |found.value|..n];
        }
      }
    }
  }

  lemma PrefixMatches(s: string, n: nat, pat: string)
    requires n <= |s|
    ensures pat <= s[..n] ==> pat <= s
  {
    assert s == s[..n] + s[n..];
  }

  /** Whatever follows the closing quote, the value is taken up to its first quote. */
  lemma PieceOf(v: string, x: string, n: nat)
    requires x == "" || x[0] == QUOTE
    ensures TakeUntil(v + x, QUOTE, n) == Prefix(Split(v, QUOTE)[0], n)
  {
    var first := Split(v, QUOTE)[0];
    FirstPiece(v, QUOTE);
    var rest := v[|first|..] + x;
    assert v + x == first + rest;
    assert rest != "" ==> rest[0] == QUOTE;
    TakeUntilStops(first, rest, QUOTE, n);
  }

  /** A field of a header text of which only the first `n` characters are left; `start` is where its value starts. */
  function CutField(value: string, start: int, n: nat, outSize: nat): Option<string>
    requires outSize >= 1
  {
    if n < start then None else Some(Prefix(Split(Prefix(value, n - start), QUOTE)[0], outSize - 1))
  }

  /** What is read behind a key. */
  function QuotedAt(s: string, outSize: nat): Option<string>
    requires outSize >= 1
  {
    var p := SkipSpaces(s);
    if p != "" && p[0] == QUOTE then Some(TakeUntil(p[1..], QUOTE, outSize - 1)) else None
  }

  lemma GetTextIs(json: string, key: string, outSize: nat)
    requires outSize >= 1
    ensures var found := After(json, Pattern(key));
      GetText(json, key, outSize) == if found.None? then None else QuotedAt(found.value, outSize)
  {
  }

  lemma ReadsCut(text: string, key: string, v: string, rest: string, n: nat, outSize: nat)
    requires outSize >= 1 && n <= |text| && rest != "" && rest[0] == QUOTE
    requires After(text, Pattern(key)) == Some([' '] + ([QUOTE] + (v + rest)))
    ensures |v| + |rest| <= |text|
    ensures GetText(text[..n], key, outSize) == CutField(v, |text| - |v| - |rest|, n, outSize)
  {
    AfterOfPrefix(text, n, Pattern(key));
    AfterIsSuffix(text, Pattern(key));
    GetTextIs(text[..n], key, outSize);
    LeftOfSuffix(text, v, rest, [' '] + ([QUOTE] + (v + rest)), n, outSize);
  }

  /** What is read of the suffix behind the key, if it is left at all. */
  lemma LeftOfSuffix(text: string, v: string, rest: string, found: string, n: nat, outSize: nat)
    requires outSize >= 1 && n <= |text| && rest != "" && rest[0] == QUOTE && found == [' '] + ([QUOTE] + (v + rest))
    requires |found| <= |text| && found == text[|text| - |found|..]
    ensures var left := CutSuffix(text, found, n);
      (if left.None? then None else QuotedAt(left.value, outSize))
        == CutField(v, |text| - |v| - |rest|, n, outSize)
  {
    var at := |text| - |found|;
    if at <= n {
      assert text[at..n] == found[..n - at];
      CutValue(v, rest, n - at, outSize);
    }
  }

  lemma {:induction false} AfterIsSuffix(s: string, pat: string)
    ensures var found := After(s, pat);
      found.Some? ==> |found.value| <= |s| && found.value == s[|s| - |found.value|..]
  {
    if |s| >= |pat| && !(pat <= s) && s != "" { AfterIsSuffix(s[1..], pat); }
  }

  lemma CutValue(v: string, rest: string, n: nat, outSize: nat)
    requires outSize >= 1 && n <= 2 + |v| + |rest| && rest != "" && rest[0] == QUOTE
    ensures QuotedAt(([' '] + ([QUOTE] + (v + rest)))[..n], outSize) == CutField(v, 2, n, outSize)
  {
    var found := [' '] + ([QUOTE] + (v + rest));
    if n < 2 {
      TooShortToRead(found[..n], outSize);
    } else {
      var left := (v + rest)[..n - 2];
      assert found[..n] == [' '] + ([QUOTE] + left);
      AfterColon(left);
      LeftPiece(v, rest, n - 2, outSize - 1);
    }
  }

  lemma TooShortToRead(s: string, outSize: nat)
    requires outSize >= 1 && |s| < 2 && (s == "" || s[0] == ' ')
    ensures QuotedAt(s, outSize) == None
  {
    if s != "" {
      assert s[1..] == "";
      assert SkipSpaces(s) == SkipSpaces(s[1..]) == "";
    }
  }

  lemma LeftPiece(v: string, rest: string, m: nat, n: nat)
    requires m <= |v| + |rest| && rest != "" && rest[0] == QUOTE
    ensures TakeUntil((v + rest)[..m], QUOTE, n) == Prefix(Split(Prefix(v, m), QUOTE)[0], n)
  {
    if m <= |v| {
      assert (v + rest)[..m] == Prefix(v, m) + "";
      PieceOf(Prefix(v, m), "", n);
    } else {
      assert (v + rest)[..m] == v + rest[..m - |v|];
      PieceOf(v, rest[..m - |v|], n);
    }
  }

  // ----------------------------------------------------------------- the header object

  function Printed(h: Header, remoteAddr: string): (r: seq<Entry>)
    ensures |r| == 10
  {
    HeaderEntries(EscapeHeader(h), Escape(remoteAddr), "}, ")
  }

  /** The combined text from the header's opening brace on. */
  function Object(h: Header, remoteAddr: string, body: string): string {
    ['{'] + PrintEntries(Printed(h, remoteAddr), BodyText(body))
  }

  predicate TextField(i: nat) {
    i < 10 && i != 3 && i != 6
  }

  lemma EntryValue(h: Header, remoteAddr: string, close: string, j: nat)
    requires j < 10
    ensures HeaderEntries(h, remoteAddr, close)[j].value == Sent(h, remoteAddr)[j]
  {
  }

  lemma EmptyEscaped()
    ensures Escape("{}") == "{}"
  {
    OrdinaryUnchanged("{}");
  }

  lemma StatusEscaped(n: int)
    ensures Escape(PrintInt(n)) == PrintInt(n)
  {
    PrintedIsPlain(n);
    OrdinaryUnchanged(PrintInt(n));
  }

  lemma SentEscaped(h: Header, h': Header, remoteAddr: string, remoteAddr': string, escape: string -> string, j: nat)
    requires j < 10 && h'.method_ == escape(h.method_) && h'.url == escape(h.url) && h'.path == escape(h.path)
    requires h'.query == escape(h.query) && h'.reqId == escape(h.reqId) && h'.source == escape(h.source)
    requires h'.dest == escape(h.dest) && remoteAddr' == escape(remoteAddr)
    requires h'.status == h.status && escape("{}") == "{}" && escape(PrintInt(h.status)) == PrintInt(h.status)
    ensures Sent(h', remoteAddr')[j] == escape(Sent(h, remoteAddr)[j])
  {
  }

  lemma PrintedValue(h: Header, remoteAddr: string, j: nat)
    requires j < 10
    ensures Printed(h, remoteAddr)[j].value == Escape(Sent(h, remoteAddr)[j])
  {
    EntryValue(EscapeHeader(h), Escape(remoteAddr), "}, ", j);
    EmptyEscaped();
    StatusEscaped(h.status);
    SentEscaped(h, EscapeHeader(h), remoteAddr, Escape(remoteAddr), Escape, j);
  }

  lemma PrintedPunctuation(h: Header, remoteAddr: string, j: nat)
    requires j < 10
    ensures var e := Printed(h, remoteAddr)[j]; BraceFreeText(e.key) && (j < 9 ==> BraceFreeText(e.sep))
  {
    HeaderKeysBraceFree(EscapeHeader(h), Escape(remoteAddr), j);
  }

  lemma PrintedValues(h: Header, remoteAddr: string)
    ensures Prints(Printed(h, remoteAddr), Sent(h, remoteAddr))
  {
    forall j: nat | j < 10
      ensures var e := Printed(h, remoteAddr)[j];
        e.value == Escape(Sent(h, remoteAddr)[j]) && BraceFreeText(e.key) && (j < 9 ==> BraceFreeText(e.sep))
    {
      PrintedValue(h, remoteAddr, j);
      PrintedPunctuation(h, remoteAddr, j);
    }
  }

  lemma TextEntry(h: Header, remoteAddr: string, i: nat)
    requires TextField(i)
    ensures Printed(h, remoteAddr)[i].Quoted? && Printed(h, remoteAddr)[i].key == KEYS[i]
  {
  }

  // ----------------------------------------------------------------- what the worker finds

  /** The search for the header always finds the object. */
  lemma ObjectFound(h: Header, remoteAddr: string, body: string)
    ensures var found := After(Combined(h, remoteAddr, body), Pattern("header"));
      found.Some? && SkipSpaces(found.value) == Object(h, remoteAddr, body)
  {
    var h', addr := EscapeHeader(h), Escape(remoteAddr);
    var entries, more := CombinedEntries(h', addr), BodyParts(body);
    BodyPartsJoin(body);
    HeaderIsGuarded(h);
    EscapeIsGuarded(remoteAddr);
    CombinedIsPlain(h', addr);
    assert PlainKey("header");
    SearchEntries(entries, "{", more, "header");
    assert entries[1..] == Printed(h, remoteAddr);
    PartsArePrinted(entries[1..], ": " + "{" + "", more);
    ObjectFollows(PrintEntries(entries[1..], BodyText(body)));
  }

  /** The header text that the worker cuts out. */
  function Kept(h: Header, remoteAddr: string, body: string, headerSize: nat): (r: string)
    requires headerSize >= 1
    ensures r <= Object(h, remoteAddr, body)
  {
    var text := Object(h, remoteAddr, body);
    Prefix(text[..1 + Closing(text[1..], 1)], headerSize - 1)
  }

  lemma KeptIsParsed(h: Header, remoteAddr: string, body: string, headerSize: nat, bodySize: nat)
    requires headerSize >= 1 && bodySize >= 1
    ensures var parsed := Parse(Combined(h, remoteAddr, body), headerSize, bodySize);
      parsed.Some? && parsed.value.header == Kept(h, remoteAddr, body, headerSize)
  {
    ObjectFound(h, remoteAddr, body);
  }

  /** Where a field's value starts in the header text, and where it ends. */
  function FieldEnd(h: Header, remoteAddr: string, i: nat): nat
    requires i < 10
  {
    1 + |PrintUpTo(Printed(h, remoteAddr), i)|
  }

  function FieldStart(h: Header, remoteAddr: string, i: nat): int
    requires i < 10
  {
    FieldEnd(h, remoteAddr, i) - |Escape(Sent(h, remoteAddr)[i])|
  }

  /** The object up to the end of a field, and the rest. */
  lemma ObjectSplit(h: Header, remoteAddr: string, body: string, i: nat) returns (rest: string)
    requires TextField(i)
    ensures Object(h, remoteAddr, body) == ['{'] + (PrintUpTo(Printed(h, remoteAddr), i) + rest)
    ensures rest != "" && rest[0] == QUOTE
    ensures After(Object(h, remoteAddr, body), Pattern(KEYS[i]))
         == Some([' '] + ([QUOTE] + (Escape(Sent(h, remoteAddr)[i]) + rest)))
  {
    var entries, more := Printed(h, remoteAddr), BodyParts(body);
    rest := Behind(entries, i, BodyText(body));
    TextEntry(h, remoteAddr, i);
    PrintedSplit(entries, i, BodyText(body));
    FieldFound(h, remoteAddr, body, i);
    PrintedValue(h, remoteAddr, i);
  }

  /** The search for a field's key finds that field, even in front of everything else. */
  lemma FieldFound(h: Header, remoteAddr: string, body: string, i: nat)
    requires TextField(i)
    ensures var e := Printed(h, remoteAddr)[i];
      After(Object(h, remoteAddr, body), Pattern(KEYS[i]))
         == Some([' '] + ([QUOTE] + (e.value + Behind(Printed(h, remoteAddr), i, BodyText(body)))))
  {
    var entries, more := Printed(h, remoteAddr), BodyParts(body);
    HeaderIsGuarded(h);
    EscapeIsGuarded(remoteAddr);
    HeaderIsPlain(EscapeHeader(h), Escape(remoteAddr), "}, ");
    HeaderKeysDistinct(EscapeHeader(h), Escape(remoteAddr), "}, ");
    KeyIsPlain(i);
    TextEntry(h, remoteAddr, i);
    LocateAt(entries, KEYS[i], i);
    BodyPartsJoin(body);
    SearchEntries(entries, "{", more, KEYS[i]);
    FollowingText(entries, i, more);
  }

  lemma FollowingText(entries: seq<Entry>, i: nat, more: seq<string>)
    requires i < |entries| && entries[i].Quoted?
    ensures Join(Following(entries[i..], more)) != ""
    ensures Join(Following(entries[i..], more))[1..]
         == [' '] + ([QUOTE] + (entries[i].value + Behind(entries, i, Tail(more))))
  {
    var e := entries[i];
    var rest := Parts(entries[i + 1..], e.sep, more);
    assert entries[i..][1..] == entries[i + 1..] && entries[i..][0] == e;
    PartsArePrinted(entries[i + 1..], e.sep, more);
    ValueJoined(e.value, rest);
    AfterColon(e.value + ([QUOTE] + Join(rest)));
  }

  lemma CounterReaches(text: string, upTo: string, rest: string)
    requires text == ['{'] + (upTo + rest)
    ensures 1 + Closing(text[1..], 1) >= 1 + |upTo| <==> Passes(upTo, 1)
  {
    OneInFront('{', upTo + rest);
    assert text[1..][..|upTo|] == upTo;
    ClosingReaches(text[1..], 1, |upTo|);
  }

  /** The counter leaves a field whole exactly when no closing brace shuts the header before its last character. */
  lemma KeptReaches(h: Header, remoteAddr: string, body: string, headerSize: nat, i: nat)
    requires TextField(i) && headerSize >= 1
    ensures |Kept(h, remoteAddr, body, headerSize)| >= FieldEnd(h, remoteAddr, i) <==>
      StaysOpen(UpTo(Sent(h, remoteAddr), i)) && FieldEnd(h, remoteAddr, i) < headerSize
  {
    var text := Object(h, remoteAddr, body);
    var upTo := PrintUpTo(Printed(h, remoteAddr), i);
    var rest := ObjectSplit(h, remoteAddr, body, i);
    CounterReaches(text, upTo, rest);
    PrintedValues(h, remoteAddr);
    PrintedAlike(Printed(h, remoteAddr), Sent(h, remoteAddr), i);
    PassesIff(UpTo(Sent(h, remoteAddr), i), 1);
  }

  lemma KeptFieldRead(h: Header, remoteAddr: string, body: string, headerSize: nat, i: nat, outSize: nat)
    requires TextField(i) && headerSize >= 1 && outSize >= 1
    ensures var kept := Kept(h, remoteAddr, body, headerSize);
      GetText(kept, KEYS[i], outSize)
        == CutField(Escape(Sent(h, remoteAddr)[i]), FieldStart(h, remoteAddr, i), |kept|, outSize)
  {
    var rest := ObjectSplit(h, remoteAddr, body, i);
    ReadsPrefix(Object(h, remoteAddr, body), Kept(h, remoteAddr, body, headerSize), KEYS[i],
      Escape(Sent(h, remoteAddr)[i]), PrintUpTo(Printed(h, remoteAddr), i), rest, FieldStart(h, remoteAddr, i),
      outSize);
  }

  lemma ReadsPrefix(text: string, kept: string, key: string, v: string, upTo: string, rest: string, start: int,
      outSize: nat)
    requires start == 1 + |upTo| - |v|
    requires outSize >= 1 && kept <= text && text == ['{'] + (upTo + rest) && rest != "" && rest[0] == QUOTE
    requires After(text, Pattern(key)) == Some([' '] + ([QUOTE] + (v + rest)))
    ensures GetText(kept, key, outSize) == CutField(v, start, |kept|, outSize)
  {
    assert kept == text[..|kept|] && start == |text| - |v| - |rest|;
    ReadsCut(text, key, v, rest, |kept|, outSize);
  }

  /** For every bridge request and every field: the worker reads the field as json.dumps printed it, as far as the
      cut header reaches, up to its first quote and cut to the buffer; if the header ends before the value it finds
      nothing. The header reaches the field's end exactly when no closing brace shuts it before and it fits. */
  lemma HeaderFieldsRead(h: Header, remoteAddr: string, body: string, headerSize: nat, bodySize: nat, i: nat,
      outSize: nat)
    requires TextField(i) && headerSize >= 1 && bodySize >= 1 && outSize >= 1
    ensures var parsed := Parse(Combined(h, remoteAddr, body), headerSize, bodySize);
      && parsed.Some?
      && var kept := parsed.value.header;
         && GetText(kept, KEYS[i], outSize)
              == CutField(Escape(Sent(h, remoteAddr)[i]), FieldStart(h, remoteAddr, i), |kept|, outSize)
         && (|kept| >= FieldEnd(h, remoteAddr, i) <==>
               StaysOpen(UpTo(Sent(h, remoteAddr), i)) && FieldEnd(h, remoteAddr, i) < headerSize)
  {
    KeptIsParsed(h, remoteAddr, body, headerSize, bodySize);
    KeptFieldRead(h, remoteAddr, body, headerSize, i, outSize);
    KeptReaches(h, remoteAddr, body, headerSize, i);
  }

  // ----------------------------------------------------------------- which fields survive

  predicate AllBackslash(s: string) {
    forall i | 0 <= i < |s| :: s[i] == BACKSLASH
  }

  lemma PrefixTail(s: string, x: string)
    requires s != "" && s <= x
    ensures s[0] == x[0] && s[1..] <= x[1..]
  {
  }

  lemma RunShift(b: string, e: string)
    requires b != "" && AllBackslash(b)
    ensures var b' := b[1..] + [BACKSLASH, BACKSLASH];
      b' != "" && AllBackslash(b') && (b + ([BACKSLASH, BACKSLASH] + e))[1..] == b' + e
  {
  }

  lemma EscapeStep(s: string)
    requires s != ""
    ensures Escape(s) == EscapeChar(s[0]) + Escape(s[1..])
  {
  }

  /** Text that begins its own escaped form, shifted by backslashes, is all backslashes. */
  lemma {:induction false} BackslashRun(b: string, s: string)
    requires b != "" && AllBackslash(b) && s <= b + Escape(s)
    ensures AllBackslash(s) && AllBackslash(Escape(s))
    decreases |s|
  {
    if s != "" {
      PrefixTail(s, b + Escape(s));
      EscapeStep(s);
      RunShift(b, Escape(s[1..]));
      assert EscapeChar(s[0]) == [BACKSLASH, BACKSLASH];
      BackslashRun(b[1..] + [BACKSLASH, BACKSLASH], s[1..]);
    }
  }

  /** A text that is not ordinary begins its own escaped form only if both end in backslashes. */
  lemma {:induction false} OwnPrefix(s: string)
    requires s <= Escape(s) && !AllOrdinary(s)
    ensures forall k | |s| - 1 <= k < |Escape(s)| :: Escape(s)[k] == BACKSLASH
    decreases |s|
  {
    PrefixTail(s, Escape(s));
    EscapeStep(s);
    OrdinaryCons(s);
    if Ordinary(s[0]) {
      assert Escape(s)[1..] == Escape(s[1..]);
      OwnPrefix(s[1..]);
      TailBackslashes(s, Escape(s));
    } else {
      OddStart(s);
    }
  }

  lemma OddStart(s: string)
    requires s != "" && s <= Escape(s) && !Ordinary(s[0])
    ensures AllBackslash(Escape(s))
  {
    var e := Escape(s[1..]);
    PrefixTail(s, Escape(s));
    EscapeStep(s);
    assert EscapeChar(s[0]) == [BACKSLASH, BACKSLASH];
    assert Escape(s)[1..] == [BACKSLASH] + e;
    BackslashRun([BACKSLASH], s[1..]);
  }

  lemma OrdinaryCons(s: string)
    requires s != ""
    ensures AllOrdinary(s) <==> Ordinary(s[0]) && AllOrdinary(s[1..])
  {
    assert s == [s[0]] + s[1..];
  }

  lemma TailBackslashes(s: string, e: string)
    requires s != "" && e != "" && s[1..] != ""
    requires forall k | |s[1..]| - 1 <= k < |e[1..]| :: e[1..][k] == BACKSLASH
    ensures forall k | |s| - 1 <= k < |e| :: e[k] == BACKSLASH
  {
    forall k | |s| - 1 <= k < |e| ensures e[k] == BACKSLASH { assert e[k] == e[1..][k - 1]; }
  }

  predicate EndsAtBrace(value: string, m: int) {
    0 < m < |value| ==> value[m - 1] == '}'
  }

  /** Cutting a printed value at a closing brace leaves something other than the value. */
  lemma CutDiffers(field: string, m: nat, outSize: nat)
    requires m < |Escape(field)| && outSize > 12 * |field| && EndsAtBrace(Escape(field), m)
    ensures Prefix(Split(Prefix(Escape(field), m), QUOTE)[0], outSize - 1) != field
  {
    var t := Prefix(Escape(field), m);
    var piece := Split(t, QUOTE)[0];
    FirstPiece(t, QUOTE);
    EscapeLength(field);
    if Prefix(piece, outSize - 1) == field {
      assert piece == field;
      if AllOrdinary(field) {
        OrdinaryUnchanged(field);
      } else {
        assert field <= Escape(field);
        OwnPrefix(field);
      }
    }
  }

  /** The brace that shuts the header is the last character kept. */
  lemma KeptEndsInBrace(h: Header, remoteAddr: string, body: string, headerSize: nat)
    requires headerSize >= 1
    requires var n := |Kept(h, remoteAddr, body, headerSize)|; n < headerSize - 1 && n < |Object(h, remoteAddr, body)|
    ensures var kept := Kept(h, remoteAddr, body, headerSize); kept != "" && kept[|kept| - 1] == '}'
  {
    ClosingAtBrace(Object(h, remoteAddr, body)[1..], 1);
  }

  /** What is read of a value that starts at `start` in a kept text of `n` characters; if the text ends inside it, it
      ends at a closing brace. */
  ghost predicate ReadsField(got: Option<string>, field: string, start: int, n: nat, outSize: nat)
    requires outSize >= 1
  {
    got == CutField(Escape(field), start, n, outSize) && EndsAtBrace(Escape(field), n - start)
  }

  lemma FieldIsRead(h: Header, remoteAddr: string, body: string, headerSize: nat, i: nat, outSize: nat)
    requires TextField(i) && headerSize > FieldEnd(h, remoteAddr, i) && outSize >= 1
    ensures var kept := Kept(h, remoteAddr, body, headerSize);
      ReadsField(GetText(kept, KEYS[i], outSize), Sent(h, remoteAddr)[i], FieldStart(h, remoteAddr, i), |kept|, outSize)
  {
    KeptFieldRead(h, remoteAddr, body, headerSize, i, outSize);
    KeptValue(h, remoteAddr, body, headerSize, i);
  }

  lemma ReadSurvivesIff(got: Option<string>, field: string, start: int, n: nat, outSize: nat)
    requires outSize > 12 * |field| && ReadsField(got, field, start, n, outSize)
    ensures got == Some(field) <==> AllOrdinary(field) && n >= start + |Escape(field)|
  {
    CutFieldIs(field, start, n, outSize);
  }

  /** With room to spare, a field of a bridge request is read as the client sent it if and only if it is printable
      ASCII without quotes and backslashes and no closing brace shuts the header before its last character. */
  lemma FieldSurvivesIff(h: Header, remoteAddr: string, body: string, headerSize: nat, bodySize: nat, i: nat,
      outSize: nat)
    requires TextField(i) && bodySize >= 1
    requires headerSize > FieldEnd(h, remoteAddr, i) && outSize > 12 * |Sent(h, remoteAddr)[i]|
    ensures var parsed := Parse(Combined(h, remoteAddr, body), headerSize, bodySize);
      var field := Sent(h, remoteAddr)[i];
      && parsed.Some?
      && (GetText(parsed.value.header, KEYS[i], outSize) == Some(field) <==>
            AllOrdinary(field) && StaysOpen(UpTo(Sent(h, remoteAddr), i)))
  {
    KeptIsParsed(h, remoteAddr, body, headerSize, bodySize);
    KeptReaches(h, remoteAddr, body, headerSize, i);
    FieldIsRead(h, remoteAddr, body, headerSize, i, outSize);
    var kept := Kept(h, remoteAddr, body, headerSize);
    ReadSurvivesIff(GetText(kept, KEYS[i], outSize), Sent(h, remoteAddr)[i], FieldStart(h, remoteAddr, i), |kept|,
      outSize);
  }

  /** Reading a value that was cut, if at all, behind a closing brace gives the value exactly when it is ordinary and
      was not cut. */
  lemma CutFieldIs(field: string, start: int, n: nat, outSize: nat)
    requires outSize > 12 * |field| && EndsAtBrace(Escape(field), n - start)
    ensures CutField(Escape(field), start, n, outSize) == Some(field) <==>
      AllOrdinary(field) && n >= start + |Escape(field)|
  {
    if n >= start + |Escape(field)| { WholeFieldIs(field, start, n, outSize); }
    else { CutFieldIsNot(field, start, n, outSize); }
  }

  lemma WholeFieldIs(field: string, start: int, n: nat, outSize: nat)
    requires outSize > 12 * |field| && n >= start + |Escape(field)|
    ensures CutField(Escape(field), start, n, outSize) == Some(field) <==> AllOrdinary(field)
  {
    NotCut(Escape(field), start, n, outSize);
    EscapedSurvivesIff(field, outSize);
  }

  lemma CutFieldIsNot(field: string, start: int, n: nat, outSize: nat)
    requires outSize > 12 * |field| && n < start + |Escape(field)| && EndsAtBrace(Escape(field), n - start)
    ensures CutField(Escape(field), start, n, outSize) != Some(field)
  {
    if n >= start { CutFieldDiffers(field, start, n, n - start, outSize); }
  }

  lemma CutFieldDiffers(field: string, start: int, n: nat, m: nat, outSize: nat)
    requires outSize > 12 * |field| && n == start + m && m < |Escape(field)| && EndsAtBrace(Escape(field), m)
    ensures CutField(Escape(field), start, n, outSize) != Some(field)
  {
    CutDiffers(field, m, outSize);
    CutFieldAt(Escape(field), start, n, m, outSize);
  }

  lemma CutFieldAt(value: string, start: int, n: nat, m: nat, outSize: nat)
    requires outSize >= 1 && n == start + m
    ensures CutField(value, start, n, outSize) == Some(Prefix(Split(Prefix(value, m), QUOTE)[0], outSize - 1))
  {
  }

  lemma NotCut(value: string, start: int, n: nat, outSize: nat)
    requires outSize >= 1 && n >= start + |value|
    ensures CutField(value, start, n, outSize) == Some(Prefix(Split(value, QUOTE)[0], outSize - 1))
  {
  }

  /** A header that ends inside a value ends at a closing brace there. */
  lemma KeptValue(h: Header, remoteAddr: string, body: string, headerSize: nat, i: nat)
    requires TextField(i) && headerSize > FieldEnd(h, remoteAddr, i)
    ensures EndsAtBrace(Escape(Sent(h, remoteAddr)[i]),
      |Kept(h, remoteAddr, body, headerSize)| - FieldStart(h, remoteAddr, i))
  {
    var kept, start := Kept(h, remoteAddr, body, headerSize), FieldStart(h, remoteAddr, i);
    var rest := ObjectSplit(h, remoteAddr, body, i);
    UpToEnds(Printed(h, remoteAddr), i);
    PrintedValue(h, remoteAddr, i);
    if start < |kept| < FieldEnd(h, remoteAddr, i) { KeptEndsInBrace(h, remoteAddr, body, headerSize); }
    KeptEndsInside(kept, Object(h, remoteAddr, body), PrintUpTo(Printed(h, remoteAddr), i), rest,
      Escape(Sent(h, remoteAddr)[i]), start);
  }

  lemma KeptEndsInside(kept: string, text: string, upTo: string, rest: string, value: string, start: int)
    requires kept <= text && text == ['{'] + (upTo + rest) && EndsIn(upTo, value) && start == 1 + |upTo| - |value|
    requires start < |kept| < start + |value| ==> kept[|kept| - 1] == '}'
    ensures EndsAtBrace(value, |kept| - start)
  {
    if start < |kept| < start + |value| {
      var at := |kept| - 1;
      assert kept[at] == text[at] == (upTo + rest)[at - 1] == upTo[at - 1];
    }
  }

  ghost predicate EndsIn(s: string, tail: string) {
    |s| >= |tail| && s[|s| - |tail|..] == tail
  }

  lemma {:induction false} UpToEnds(entries: seq<Entry>, i: nat)
    requires i < |entries|
    ensures EndsIn(PrintUpTo(entries, i), entries[i].value)
  {
    if i == 0 {
      FirstEnds(entries[0]);
    } else {
      UpToEnds(entries[1..], i - 1);
      EntryEnds(entries[0], PrintUpTo(entries[1..], i - 1), entries[i].value);
    }
  }

  lemma FirstEnds(e: Entry)
    ensures EndsIn([QUOTE] + (e.key + ([QUOTE] + (": " + ([QUOTE] + e.value)))), e.value)
  {
    assert EndsIn(e.value, e.value);
    KeyEnds(e.key, [QUOTE] + e.value, e.value);
  }

  lemma AppendEnds(a: string, b: string, tail: string)
    requires EndsIn(b, tail)
    ensures EndsIn(a + b, tail)
  {
  }

  lemma KeyEnds(key: string, text: string, tail: string)
    requires EndsIn(text, tail)
    ensures EndsIn([QUOTE] + (key + ([QUOTE] + (": " + text))), tail)
  {
    AppendEnds(": ", text, tail);
    AppendEnds([QUOTE], ": " + text, tail);
    AppendEnds(key, [QUOTE] + (": " + text), tail);
    AppendEnds([QUOTE], key + ([QUOTE] + (": " + text)), tail);
  }

  lemma EntryEnds(e: Entry, text: string, tail: string)
    requires EndsIn(text, tail)
    ensures EndsIn(PrintEntry(e, text), tail)
  {
    EntryAppend(e, "", text);
    assert "" + text == text;
    AppendEnds(PrintEntry(e, ""), text, tail);
  }

  lemma {:induction false} InOrder(entries: seq<Entry>, i: nat, j: nat)
    requires i < j < |entries| && entries[i].Quoted? && entries[j].Quoted?
    ensures |PrintUpTo(entries, i)| + |entries[j].value| <= |PrintUpTo(entries, j)|
  {
    if i == 0 { ValueLast(entries[1..], j - 1); } else { InOrder(entries[1..], i - 1, j - 1); }
  }

  /** Once a field has shut the header, no later field is found, whatever the sizes. */
  lemma LaterFieldsLost(h: Header, remoteAddr: string, body: string, headerSize: nat, bodySize: nat, i: nat, j: nat,
      outSize: nat)
    requires TextField(i) && TextField(j) && i < j && headerSize >= 1 && bodySize >= 1 && outSize >= 1
    requires !StaysOpen(UpTo(Sent(h, remoteAddr), i))
    ensures var parsed := Parse(Combined(h, remoteAddr, body), headerSize, bodySize);
      parsed.Some? && GetText(parsed.value.header, KEYS[j], outSize) == None
  {
    HeaderFieldsRead(h, remoteAddr, body, headerSize, bodySize, i, outSize);
    HeaderFieldsRead(h, remoteAddr, body, headerSize, bodySize, j, outSize);
    TextEntry(h, remoteAddr, i);
    TextEntry(h, remoteAddr, j);
    InOrder(Printed(h, remoteAddr), i, j);
    PrintedValue(h, remoteAddr, j);
  }

  // ----------------------------------------------------------------- a brace in the path

  lemma BraceFreeConcat(a: string, b: string)
    requires BraceFreeText(a) && BraceFreeText(b)
    ensures BraceFreeText(a + b)
  {
  }

  lemma EntryBraceFree(e: Entry, rest: string)
    requires e.Quoted? && BraceFreeText(e.key) && BraceFreeText(e.value) && BraceFreeText(e.sep) && BraceFreeText(rest)
    ensures BraceFreeText(PrintEntry(e, rest))
  {
    PunctuationBraceFree();
    BraceFreeConcat(e.sep, rest);
    BraceFreeConcat([QUOTE], e.sep + rest);
    BraceFreeConcat(e.value, [QUOTE] + (e.sep + rest));
    KeyBraceFree(e.key, e.value + ([QUOTE] + (e.sep + rest)));
  }

  lemma KeyBraceFree(key: string, rest: string)
    requires BraceFreeText(key) && BraceFreeText(rest)
    ensures BraceFreeText([QUOTE] + (key + ([QUOTE] + (": " + ([QUOTE] + rest)))))
  {
    PunctuationBraceFree();
    BraceFreeConcat([QUOTE], rest);
    BraceFreeConcat(": ", [QUOTE] + rest);
    BraceFreeConcat([QUOTE], ": " + ([QUOTE] + rest));
    BraceFreeConcat(key, [QUOTE] + (": " + ([QUOTE] + rest)));
    BraceFreeConcat([QUOTE], key + ([QUOTE] + (": " + ([QUOTE] + rest))));
  }

  /** Adding to a value adds to the text up to its end. */
  lemma {:induction false} UpToGrows(entries: seq<Entry>, entries': seq<Entry>, i: nat, more: string)
    requires i < |entries| == |entries'| && entries[..i] == entries'[..i] && entries[i].key == entries'[i].key
    requires entries'[i].value == entries[i].value + more
    ensures PrintUpTo(entries', i) == PrintUpTo(entries, i) + more
  {
    if i == 0 {
      var e := entries[0];
      Assoc([QUOTE], e.value, more);
      Assoc(": ", [QUOTE] + e.value, more);
      KeyAppend(e.key, ": " + ([QUOTE] + e.value), more);
    } else {
      assert entries[1..][..i - 1] == entries[..i][1..] && entries'[1..][..i - 1] == entries'[..i][1..];
      assert entries[0] == entries[..i][0] == entries'[..i][0] == entries'[0];
      UpToGrows(entries[1..], entries'[1..], i - 1, more);
      EntryAppend(entries[0], PrintUpTo(entries[1..], i - 1), more);
    }
  }

  lemma {:induction false} EscapeConcat(a: string, b: string)
    ensures Escape(a + b) == Escape(a) + Escape(b)
  {
    if a == "" {
      assert a + b == b;
    } else {
      ConsTail(a, b);
      EscapeConcat(a[1..], b);
    }
  }

  lemma BraceEscaped(b: string)
    ensures Escape("}" + b) == "}" + Escape(b)
  {
    OneInFront('}', b);
  }

  /** A path with a closing brace in the middle. */
  ghost predicate Braced(h: Header, a: string, b: string) {
    h.path == a + ("}" + b) && b != "" && BraceFreeText(h.method_) && BraceFreeText(h.url) && BraceFreeText(a)
  }

  lemma FrontEntries(h: Header, remoteAddr: string)
    ensures var entries := Printed(h, remoteAddr);
      && entries[0] == Quoted("method", Escape(h.method_), ", ") && entries[1] == Quoted("url", Escape(h.url), ", ")
      && entries[2] == Quoted("path", Escape(h.path), ", ")
  {
  }

  lemma FrontKeys()
    ensures BraceFreeText("method") && BraceFreeText("url") && BraceFreeText("path") && BraceFreeText(", ")
  {
  }

  function PathEntry(path: string): string {
    [QUOTE] + ("path" + ([QUOTE] + (": " + ([QUOTE] + path))))
  }

  lemma FrontText(h: Header, remoteAddr: string)
    ensures PrintUpTo(Printed(h, remoteAddr), 2)
         == PrintEntry(Quoted("method", Escape(h.method_), ", "), PrintEntry(Quoted("url", Escape(h.url), ", "),
              PathEntry(Escape(h.path))))
  {
    var entries := Printed(h, remoteAddr);
    FrontEntries(h, remoteAddr);
    assert PrintUpTo(entries, 2) == PrintEntry(entries[0], PrintUpTo(entries[1..], 1));
    assert PrintUpTo(entries[1..], 1) == PrintEntry(entries[1], PrintUpTo(entries[1..][1..], 0));
    assert entries[1..][1..][0] == entries[2];
  }

  lemma FrontBraceFree(h: Header, remoteAddr: string)
    requires BraceFreeText(h.method_) && BraceFreeText(h.url) && BraceFreeText(h.path)
    ensures BraceFreeText(PrintUpTo(Printed(h, remoteAddr), 2))
  {
    FrontText(h, remoteAddr);
    EscapeKeepsBracesOut(h.method_);
    EscapeKeepsBracesOut(h.url);
    EscapeKeepsBracesOut(h.path);
    FrontTextBraceFree(Escape(h.method_), Escape(h.url), Escape(h.path));
  }

  lemma FrontTextBraceFree(method_: string, url: string, path: string)
    requires BraceFreeText(method_) && BraceFreeText(url) && BraceFreeText(path)
    ensures BraceFreeText(PrintEntry(Quoted("method", method_, ", "), PrintEntry(Quoted("url", url, ", "),
      PathEntry(path))))
  {
    FrontKeys();
    KeyBraceFree("path", path);
    EntryBraceFree(Quoted("url", url, ", "), PathEntry(path));
    EntryBraceFree(Quoted("method", method_, ", "), PrintEntry(Quoted("url", url, ", "), PathEntry(path)));
  }

  lemma BracedFront(h: Header, remoteAddr: string, a: string, b: string)
    requires Braced(h, a, b)
    ensures var front := PrintUpTo(Printed(h.(path := a), remoteAddr), 2);
      BraceFreeText(front) && PrintUpTo(Printed(h, remoteAddr), 2) == front + ("}" + Escape(b))
  {
    var h0 := h.(path := a);
    FrontEntries(h, remoteAddr);
    FrontEntries(h0, remoteAddr);
    FrontBraceFree(h0, remoteAddr);
    EscapeConcat(a, "}" + b);
    BraceEscaped(b);
    UpToGrows(Printed(h0, remoteAddr), Printed(h, remoteAddr), 2, "}" + Escape(b));
  }

  lemma ClosedAt(front: string, tail: string)
    requires BraceFreeText(front) && tail != "" && tail[0] == '}'
    ensures Closing(front + tail, 1) == |front| + 1
  {
    FreeIsNeutral(front, tail, 1);
    assert Closing(tail, 1) == 1 + Closing(tail[1..], 0);
  }

  lemma ShutAt(text: string, front: string, b: string, rest: string)
    requires BraceFreeText(front) && text == ['{'] + ((front + ("}" + b)) + rest)
    ensures text[..1 + Closing(text[1..], 1)] == ['{'] + (front + "}")
  {
    var tail := "}" + (b + rest);
    assert text == ['{'] + (front + tail);
    OneInFront('{', front + tail);
    ClosedAt(front, tail);
  }

  lemma BracedKept(h: Header, remoteAddr: string, body: string, headerSize: nat, a: string, b: string)
    requires Braced(h, a, b) && headerSize > FieldEnd(h, remoteAddr, 2)
    ensures |Kept(h, remoteAddr, body, headerSize)| == FieldEnd(h, remoteAddr, 2) - |Escape(b)|
  {
    var front := PrintUpTo(Printed(h.(path := a), remoteAddr), 2);
    var rest := ObjectSplit(h, remoteAddr, body, 2);
    BracedFront(h, remoteAddr, a, b);
    ShutAt(Object(h, remoteAddr, body), front, Escape(b), rest);
  }

  /** A closing brace inside the path shuts the header there: what follows it in the path is lost, and every later
      field with it. */
  lemma BraceCutsPath(h: Header, remoteAddr: string, body: string, headerSize: nat, bodySize: nat, a: string, b: string,
      outSize: nat, j: nat)
    requires Braced(h, a, b) && headerSize > FieldEnd(h, remoteAddr, 2) && bodySize >= 1 && |a| + 1 < outSize
    requires TextField(j) && j > 2
    ensures var parsed := Parse(Combined(h, remoteAddr, body), headerSize, bodySize);
      && parsed.Some?
      && (AllOrdinary(a) ==> GetText(parsed.value.header, "path", outSize) == Some(a + "}"))
      && GetText(parsed.value.header, KEYS[j], outSize) == None
  {
    KeptIsParsed(h, remoteAddr, body, headerSize, bodySize);
    if AllOrdinary(a) { CutPathRead(h, remoteAddr, body, headerSize, a, b, outSize); }
    BracedShut(h, remoteAddr, a, b);
    LaterFieldsLost(h, remoteAddr, body, headerSize, bodySize, 2, j, outSize);
  }

  lemma {:induction false} SurplusConcat(a: string, b: string)
    ensures Surplus(a + b) == Surplus(a) + Surplus(b)
  {
    if a == "" {
      assert a + b == b;
    } else {
      ConsTail(a, b);
      SurplusConcat(a[1..], b);
    }
  }

  lemma {:induction false} BraceFreeSurplus(a: string)
    requires BraceFreeText(a)
    ensures Surplus(a) == 0
  {
    if a != "" { BraceFreeSurplus(a[1..]); }
  }

  lemma BracedShut(h: Header, remoteAddr: string, a: string, b: string)
    requires Braced(h, a, b)
    ensures !StaysOpen(UpTo(Sent(h, remoteAddr), 2))
  {
    var values := Sent(h, remoteAddr);
    var front := h.method_ + (h.url + ([QUOTE] + a));
    assert values[1..][1..][0] == h.path;
    assert UpTo(values[1..][1..], 0) == [QUOTE] + h.path;
    assert UpTo(values[1..], 1) == h.url + ([QUOTE] + h.path);
    assert UpTo(values, 2) == h.method_ + (h.url + ([QUOTE] + h.path)) == front + "}" + b;
    BraceFreeConcat([QUOTE], a);
    BraceFreeConcat(h.url, [QUOTE] + a);
    BraceFreeConcat(h.method_, h.url + ([QUOTE] + a));
    BraceFreeSurplus(front);
    SurplusConcat(front, "}");
    assert UpTo(values, 2)[..|front| + 1] == front + "}" && Surplus("}") == 1;
  }

  lemma CutPathRead(h: Header, remoteAddr: string, body: string, headerSize: nat, a: string, b: string, outSize: nat)
    requires Braced(h, a, b) && headerSize > FieldEnd(h, remoteAddr, 2) && AllOrdinary(a) && |a| + 1 < outSize
    ensures GetText(Kept(h, remoteAddr, body, headerSize), "path", outSize) == Some(a + "}")
  {
    KeptFieldRead(h, remoteAddr, body, headerSize, 2, outSize);
    BracedKept(h, remoteAddr, body, headerSize, a, b);
    PathIsThird(h, remoteAddr);
    EscapedPath(a, b);
    CutFieldAt(Escape(h.path), FieldStart(h, remoteAddr, 2), |Kept(h, remoteAddr, body, headerSize)|, |a| + 1, outSize);
    CutAtBrace(a, Escape(b), outSize);
  }

  lemma PathIsThird(h: Header, remoteAddr: string)
    ensures Sent(h, remoteAddr)[2] == h.path && KEYS[2] == "path"
  {
  }

  lemma EscapedPath(a: string, b: string)
    requires AllOrdinary(a)
    ensures Escape(a + ("}" + b)) == a + ("}" + Escape(b))
  {
    EscapeConcat(a, "}" + b);
    BraceEscaped(b);
    OrdinaryUnchanged(a);
  }

  lemma CutAtBrace(a: string, b: string, outSize: nat)
    requires AllOrdinary(a) && |a| + 1 < outSize
    ensures Prefix(Split(Prefix(a + ("}" + b), |a| + 1), QUOTE)[0], outSize - 1) == a + "}"
  {
    assert Prefix(a + ("}" + b), |a| + 1) == a + "}";
    QuoteFreeIsGuarded(a + "}");
  }

  /** The length of the header up to the path's last character. */
  lemma PathEnd(h: Header, remoteAddr: string)
    ensures FieldEnd(h, remoteAddr, 2) == 35 + |Escape(h.method_)| + |Escape(h.url)| + |Escape(h.path)|
  {
    FrontText(h, remoteAddr);
  }

  /** For one, the path "}b" is read as "}", and the request id is not found. */
  lemma BraceShutsHeader(remoteAddr: string, body: string, bodySize: nat)
    requires bodySize >= 1
    ensures var h := Header("GET", "u", "}b", "", 0, "", "", "");
      var parsed := Parse(Combined(h, remoteAddr, body), 4096, bodySize);
      && AllOrdinary(h.path) && parsed.Some?
      && GetText(parsed.value.header, "path", 256) == Some("}")
      && GetText(parsed.value.header, "req_id_str", 256) == None
  {
    var h := Header("GET", "u", "}b", "", 0, "", "", "");
    PathEnd(h, remoteAddr);
    EscapeLength(h.method_);
    EscapeLength(h.url);
    EscapeLength(h.path);
    assert Braced(h, "", "b") && "" + "}" == "}" && KEYS[7] == "req_id_str";
    BraceCutsPath(h, remoteAddr, body, 4096, bodySize, "", "b", 256, 7);
  }
}
