/** The routing header: a JSON object printed with unescaped strings and read back by searching for
    `"key":`. */
module HeaderJson {
  import opened Options
  import opened Text

  // ----------------------------------------------------------------- the scanner

  function Pattern(key: string): string {
    [QUOTE] + key + [QUOTE, ':']
  }

  /** json_get_str: the quoted text after the first `"key":`, cut to the buffer; None is the -1 result. */
  function GetText(json: string, key: string, outSize: nat): Option<string>
    requires outSize >= 1
  {
    var found := After(json, Pattern(key));
    if found.None? then None
    else
      var p := SkipSpaces(found.value);
      if p != "" && p[0] == QUOTE then Some(TakeUntil(p[1..], QUOTE, outSize - 1)) else None
  }

  /** json_get_int: 0 when the key is missing. */
  function GetInt(json: string, key: string): int {
    var found := After(json, Pattern(key));
    if found.None? then 0 else Atoi(SkipSpaces(found.value))
  }

  /** The pointer loops of json_get_str, one character at a time. */
  method ScanText(json: string, key: string, outSize: nat) returns (ok: bool, out: string)
    requires outSize >= 1
    ensures ok == GetText(json, key, outSize).Some?
    ensures ok ==> out == GetText(json, key, outSize).value && |out| < outSize
  {
    out := "";
    var found := After(json, Pattern(key));
    if found.None? {
      return false, out;
    }
    var p := found.value;
    while p != "" && p[0] == ' '
      invariant SkipSpaces(p) == SkipSpaces(found.value)
      decreases |p|
    {
      p := p[1..];
    }
    if p == "" || p[0] != QUOTE {
      return false, out;
    }
    p := p[1..];
    ghost var text := p;
    while p != "" && p[0] != QUOTE && |out| < outSize - 1
      invariant |out| <= outSize - 1
      invariant out + TakeUntil(p, QUOTE, outSize - 1 - |out|) == TakeUntil(text, QUOTE, outSize - 1)
      decreases |p|
    {
      out := out + [p[0]];
      p := p[1..];
    }
    ok := true;
  }

  // ----------------------------------------------------------------- text cut at its quotes

  /** The text whose pieces between quotes are `parts`. */
  function Join(parts: seq<string>): string {
    if parts == [] then ""
    else if |parts| == 1 then parts[0]
    else parts[0] + [QUOTE] + Join(parts[1..])
  }

  predicate QuoteFree(parts: seq<string>) {
    forall i | 0 <= i < |parts| :: Without(parts[i], QUOTE)
  }

  /** The pieces from the first one that follows the piece `key` and begins with a colon. */
  function Seek(parts: seq<string>, key: string): Option<seq<string>> {
    if |parts| < 3 then None
    else if parts[1] == key && parts[2] != "" && parts[2][0] == ':' then Some(parts[2..])
    else Seek(parts[1..], key)
  }

  /** A key followed by a quote is a prefix exactly when it is the whole first piece. */
  lemma KeyPrefix(parts: seq<string>, key: string)
    requires parts != [] && QuoteFree(parts) && Without(key, QUOTE)
    ensures key + [QUOTE] <= Join(parts) <==> parts[0] == key && |parts| >= 2
    ensures key + [QUOTE] <= Join(parts) ==> Join(parts)[|key| + 1..] == Join(parts[1..])
  {
    var s := Join(parts);
    var first := parts[0];
    if |parts| >= 2 {
      assert s == first + [QUOTE] + Join(parts[1..]);
      assert s[|first|] == QUOTE;
    }
    if key + [QUOTE] <= s {
      assert s[|key|] == (key + [QUOTE])[|key|] == QUOTE;
      assert forall i | 0 <= i < |key| :: s[i] == (key + [QUOTE])[i] == key[i];
      assert |parts| >= 2;
      assert |key| == |first|;
      assert key == s[..|key|] == first;
    }
  }

  lemma ColonPrefix(parts: seq<string>)
    requires parts != []
    ensures ":" <= Join(parts) <==> parts[0] != "" && parts[0][0] == ':'
  {
  }

  /** Searching for `"key":` is walking over the pieces: values cannot be mistaken for keys, nor can text
      that straddles one. */
  lemma {:induction false} SeekIsSearch(parts: seq<string>, key: string)
    requires parts != [] && QuoteFree(parts) && Without(key, QUOTE)
    ensures After(Join(parts), Pattern(key)).Some? <==> Seek(parts, key).Some?
    ensures Seek(parts, key).Some? ==>
      Join(Seek(parts, key).value) != "" && After(Join(parts), Pattern(key)).value == Join(Seek(parts, key).value)[1..]
    decreases |parts|
  {
    var pat := Pattern(key);
    if |parts| == 1 {
      AfterSkips(parts[0], "", pat);
      assert parts[0] + "" == parts[0];
    } else {
      var rest := Join(parts[1..]);
      AfterSkips(parts[0], [QUOTE] + rest, pat);
      assert Join(parts) == parts[0] + ([QUOTE] + rest);
      MatchAtQuote(parts[1..], key);
      assert ([QUOTE] + rest)[1..] == rest;
      SeekIsSearch(parts[1..], key);
      if pat <= [QUOTE] + rest {
        assert parts[1..][1..] == parts[2..];
      } else if |parts| == 2 {
        assert Seek(parts[1..], key) == None;
      }
    }
  }

  lemma PrefixSplit(a: string, b: string, t: string)
    ensures a + b <= t <==> a <= t && b <= t[|a|..]
    ensures a + b <= t ==> t[|a + b|..] == t[|a|..][|b|..]
  {
    if a + b <= t {
      assert a == t[..|a|] by { assert (a + b)[..|a|] == a; }
      assert b == t[|a|..][..|b|] by { assert (a + b)[|a|..] == b; }
    }
  }

  lemma PatternSplit(key: string, tail: string)
    ensures var here := [QUOTE] + tail;
      && (Pattern(key) <= here <==> key + [QUOTE] <= tail && ":" <= tail[|key| + 1..])
      && (Pattern(key) <= here ==> here[|Pattern(key)|..] == tail[|key| + 1..][1..])
  {
    var here := [QUOTE] + tail;
    assert Pattern(key) == [QUOTE] + (key + [QUOTE] + ":");
    PrefixSplit([QUOTE], key + [QUOTE] + ":", here);
    assert here[1..] == tail;
    PrefixSplit(key + [QUOTE], ":", tail);
  }

  /** Whether the pattern stands right at a quote. */
  lemma MatchAtQuote(parts: seq<string>, key: string)
    requires parts != [] && QuoteFree(parts) && Without(key, QUOTE)
    ensures var here := [QUOTE] + Join(parts);
      && (Pattern(key) <= here <==> |parts| >= 2 && parts[0] == key && parts[1] != "" && parts[1][0] == ':')
      && (Pattern(key) <= here ==> Join(parts[1..]) != "" && here[|Pattern(key)|..] == Join(parts[1..])[1..])
  {
    var tail := Join(parts);
    PatternSplit(key, tail);
    KeyPrefix(parts, key);
    if key + [QUOTE] <= tail {
      ColonPrefix(parts[1..]);
      assert tail[|key| + 1..] == Join(parts[1..]);
      assert parts[1..][0] == parts[1];
    }
  }

  // ----------------------------------------------------------------- printed entries

  /** `"key": "value"` or `"key": value`, and the punctuation up to the next key. */
  datatype Entry = Quoted(key: string, value: string, sep: string) | Bare(key: string, value: string, sep: string)

  /** An entry in front of `rest`. */
  function PrintEntry(e: Entry, rest: string): string {
    if e.Quoted? then [QUOTE] + (e.key + ([QUOTE] + (": " + ([QUOTE] + (e.value + ([QUOTE] + (e.sep + rest)))))))
    else [QUOTE] + (e.key + ([QUOTE] + (": " + e.value + e.sep + rest)))
  }

  function PrintEntries(entries: seq<Entry>, rest: string): string {
    if entries == [] then rest else PrintEntry(entries[0], PrintEntries(entries[1..], rest))
  }

  /** The pieces between quotes of `before`, the printed entries, and `more` pieces. */
  function Parts(entries: seq<Entry>, before: string, more: seq<string>): (r: seq<string>)
    ensures r != [] && r[0] == before
  {
    if entries == [] then [before] + more
    else
      var e := entries[0];
      if e.Quoted? then [before, e.key, ": "] + (Split(e.value, QUOTE) + Parts(entries[1..], e.sep, more))
      else [before, e.key] + Parts(entries[1..], ": " + e.value + e.sep, more)
  }

  /** `more` pieces, each after a quote. */
  function Tail(more: seq<string>): string {
    if more == [] then "" else [QUOTE] + Join(more)
  }

  lemma JoinCons(a: string, parts: seq<string>)
    ensures Join([a] + parts) == a + Tail(parts)
  {
    if parts == [] { assert [a] + parts == [a]; assert a + "" == a; }
    else {
      assert ([a] + parts)[1..] == parts;
      assert a + [QUOTE] + Join(parts) == a + ([QUOTE] + Join(parts));
    }
  }

  /** Cutting a text at its quotes and joining the pieces gives it back. */
  lemma {:induction false} JoinSplit(s: string)
    ensures Join(Split(s, QUOTE)) == s && QuoteFree(Split(s, QUOTE))
  {
    if s != "" {
      var r := Split(s[1..], QUOTE);
      JoinSplit(s[1..]);
      assert s == [s[0]] + s[1..];
      if s[0] == QUOTE {
        JoinCons("", r);
      } else {
        JoinLonger(s[0], r);
      }
    }
  }

  lemma JoinLonger(c: char, r: seq<string>)
    requires r != []
    ensures Join([[c] + r[0]] + r[1..]) == [c] + Join(r)
  {
    assert [r[0]] + r[1..] == r;
    JoinCons(r[0], r[1..]);
    JoinCons([c] + r[0], r[1..]);
  }

  lemma JoinStep(x: string, a: seq<string>, b: seq<string>)
    requires a != [] && Join(a + b) == Join(a) + Tail(b)
    ensures Join([x] + (a + b)) == Join([x] + a) + Tail(b)
  {
    JoinCons(x, a + b);
    JoinCons(x, a);
    Regroup(x, Join(a), Tail(b));
  }

  lemma ConsSplit(a: seq<string>, b: seq<string>)
    requires a != []
    ensures [a[0]] + (a[1..] + b) == a + b && [a[0]] + a[1..] == a && (|a| == 1 ==> a[1..] == [])
  {
  }

  lemma {:induction false} JoinAppend(a: seq<string>, b: seq<string>)
    requires a != []
    ensures Join(a + b) == Join(a) + Tail(b)
  {
    ConsSplit(a, b);
    if |a| == 1 {
      JoinCons(a[0], b);
      JoinCons(a[0], []);
      assert [] + b == b;
    } else {
      JoinAppend(a[1..], b);
      JoinStep(a[0], a[1..], b);
    }
  }

  lemma Regroup(a: string, b: string, c: string)
    ensures a + ([QUOTE] + (b + c)) == a + ([QUOTE] + b) + c
  {
  }

  lemma ValueJoined(value: string, rest: seq<string>)
    requires rest != []
    ensures Join([": "] + (Split(value, QUOTE) + rest)) == ": " + ([QUOTE] + (value + ([QUOTE] + Join(rest))))
  {
    JoinSplit(value);
    JoinAppend(Split(value, QUOTE), rest);
    JoinCons(": ", Split(value, QUOTE) + rest);
  }

  lemma KeyJoined(before: string, key: string, rest: seq<string>)
    requires rest != []
    ensures Join([before, key] + rest) == before + ([QUOTE] + (key + ([QUOTE] + Join(rest))))
  {
    JoinCons(key, rest);
    JoinCons(before, [key] + rest);
    assert [before, key] + rest == [before] + ([key] + rest);
  }

  lemma QuotedPrinted(before: string, e: Entry, rest: seq<string>, text: string)
    requires e.Quoted? && rest != [] && Join(rest) == e.sep + text
    ensures Join([before, e.key, ": "] + (Split(e.value, QUOTE) + rest)) == before + PrintEntry(e, text)
  {
    var tail := Split(e.value, QUOTE) + rest;
    ValueJoined(e.value, rest);
    KeyJoined(before, e.key, [": "] + tail);
    assert [before, e.key, ": "] + tail == [before, e.key] + ([": "] + tail);
  }

  lemma BarePrinted(before: string, e: Entry, rest: seq<string>, text: string)
    requires e.Bare? && rest != [] && Join(rest) == ": " + e.value + e.sep + text
    ensures Join([before, e.key] + rest) == before + PrintEntry(e, text)
  {
    KeyJoined(before, e.key, rest);
  }

  lemma {:induction false} PartsArePrinted(entries: seq<Entry>, before: string, more: seq<string>)
    ensures Join(Parts(entries, before, more)) == before + PrintEntries(entries, Tail(more))
  {
    if entries == [] {
      JoinCons(before, more);
    } else {
      var e := entries[0];
      var next := if e.Quoted? then e.sep else ": " + e.value + e.sep;
      var rest, text := Parts(entries[1..], next, more), PrintEntries(entries[1..], Tail(more));
      PartsArePrinted(entries[1..], next, more);
      if e.Quoted? { QuotedPrinted(before, e, rest, text); } else { BarePrinted(before, e, rest, text); }
    }
  }

  const BACKSLASH: char := '\\'

  /** Every piece but the last ends in a backslash. */
  predicate Escaped(pieces: seq<string>) {
    forall i | 0 <= i < |pieces| - 1 :: pieces[i] != "" && pieces[i][|pieces[i]| - 1] == BACKSLASH
  }

  /** A value whose every quote follows a backslash. */
  predicate Guarded(value: string) {
    Escaped(Split(value, QUOTE))
  }

  lemma QuoteFreeIsGuarded(value: string)
    requires Without(value, QUOTE)
    ensures Guarded(value) && Split(value, QUOTE) == [value]
  {
    SplitNone(value, QUOTE);
  }

  /** A quoted value is followed by punctuation other than a colon. */
  predicate PlainEntry(e: Entry) {
    && Without(e.key, QUOTE) && Without(e.sep, QUOTE)
    && (if e.Quoted? then Guarded(e.value) && e.sep != "" && e.sep[0] in ",}" else Without(e.value, QUOTE))
  }

  ghost predicate PlainEntries(entries: seq<Entry>) {
    forall i | 0 <= i < |entries| :: PlainEntry(entries[i])
  }

  /** A key that cannot be taken for punctuation. */
  predicate PlainKey(key: string) {
    key != "" && Without(key, QUOTE) && Without(key, BACKSLASH) && key[0] !in ":,}{"
  }

  /** The entries from the first one with this key. */
  function Locate(entries: seq<Entry>, key: string): (r: Option<seq<Entry>>)
    ensures r.Some? ==> r.value != [] && r.value[0].key == key
  {
    if entries == [] then None
    else if entries[0].key == key then Some(entries)
    else Locate(entries[1..], key)
  }

  lemma {:induction false} LocateAt(entries: seq<Entry>, key: string, i: nat)
    requires i < |entries| && entries[i].key == key && forall j | 0 <= j < i :: entries[j].key != key
    ensures Locate(entries, key) == Some(entries[i..])
  {
    if i > 0 {
      LocateAt(entries[1..], key, i - 1);
    }
  }

  lemma {:induction false} LocateNone(entries: seq<Entry>, key: string)
    requires forall j | 0 <= j < |entries| :: entries[j].key != key
    ensures Locate(entries, key) == None
  {
    if entries != [] { LocateNone(entries[1..], key); }
  }

  lemma QuoteFreeConcat(a: seq<string>, b: seq<string>)
    requires QuoteFree(a) && QuoteFree(b)
    ensures QuoteFree(a + b)
  {
  }

  lemma {:induction false} PartsQuoteFree(entries: seq<Entry>, before: string, more: seq<string>)
    requires Without(before, QUOTE) && PlainEntries(entries) && QuoteFree(more)
    ensures QuoteFree(Parts(entries, before, more))
  {
    if entries != [] {
      var e := entries[0];
      assert PlainEntry(e);
      var next := if e.Quoted? then e.sep else ": " + e.value + e.sep;
      assert Without(next, QUOTE);
      PartsQuoteFree(entries[1..], next, more);
      var rest := Parts(entries[1..], next, more);
      if e.Quoted? {
        JoinSplit(e.value);
        QuoteFreeConcat(Split(e.value, QUOTE), rest);
        QuoteFreeConcat([before, e.key, ": "], Split(e.value, QUOTE) + rest);
      } else {
        QuoteFreeConcat([before, e.key], rest);
      }
    }
  }

  /** What stands right after `"key"` for the first of the entries. */
  function Following(entries: seq<Entry>, more: seq<string>): (r: seq<string>)
    requires entries != []
    ensures r != []
  {
    var e := entries[0];
    if e.Quoted? then [": "] + (Split(e.value, QUOTE) + Parts(entries[1..], e.sep, more))
    else Parts(entries[1..], ": " + e.value + e.sep, more)
  }

  lemma SeekStep(parts: seq<string>, key: string)
    requires |parts| >= 2
    ensures Seek(parts, key) ==
      if |parts| >= 3 && parts[1] == key && parts[2] != "" && parts[2][0] == ':' then Some(parts[2..])
      else Seek(parts[1..], key)
  {
  }

  lemma SeekIgnoresFirst(a: string, b: string, more: seq<string>, key: string)
    ensures Seek([a] + more, key) == Seek([b] + more, key)
  {
    assert ([a] + more)[1..] == more && ([b] + more)[1..] == more;
    assert |more| >= 1 ==> ([a] + more)[2..] == more[1..] && ([b] + more)[2..] == more[1..];
  }

  /** The pieces of a value, up to the punctuation behind it, hold no key: all but the last end in a
      backslash, and the last is not followed by a colon. */
  lemma {:induction false} SeekPastPieces(a: string, pieces: seq<string>, rest: seq<string>, key: string)
    requires PlainKey(key) && Escaped(pieces) && rest != [] && rest[0] != "" && rest[0][0] in ",}"
    ensures Seek([a] + (pieces + rest), key) == Seek(rest, key)
    decreases |pieces|
  {
    var p := [a] + (pieces + rest);
    assert p[1..] == pieces + rest;
    SeekStep(p, key);
    if pieces == [] {
      assert pieces + rest == rest;
    } else {
      assert p[1] == pieces[0] && p[2] == (pieces + rest)[1];
      assert pieces + rest == [pieces[0]] + (pieces[1..] + rest);
      if |pieces| == 1 { assert p[2] == rest[0]; }
      SeekPastPieces(pieces[0], pieces[1..], rest, key);
    }
  }

  /** A quoted entry with another key is passed over. */
  lemma SeekPastQuoted(before: string, e: Entry, rest: seq<string>, key: string)
    requires e.Quoted? && PlainEntry(e) && e.key != key && PlainKey(key) && rest != [] && rest[0] != ""
    requires rest[0][0] in ",}"
    ensures Seek([before, e.key, ": "] + (Split(e.value, QUOTE) + rest), key) == Seek(rest, key)
  {
    var tail := Split(e.value, QUOTE) + rest;
    var p0, p1 := [before, e.key, ": "] + tail, [e.key, ": "] + tail;
    assert p0[1..] == p1 && p1[1..] == [": "] + tail;
    SeekStep(p0, key);
    SeekStep(p1, key);
    SeekPastPieces(": ", Split(e.value, QUOTE), rest, key);
  }

  lemma SeekPastBare(before: string, e: Entry, rest: seq<string>, key: string)
    requires e.Bare? && e.key != key && PlainKey(key) && rest != [] && rest[0] != "" && rest[0][0] == ':'
    ensures Seek([before, e.key] + rest, key) == Seek(rest, key)
  {
    var p0 := [before, e.key] + rest;
    var p1 := [e.key] + rest;
    assert p0[1..] == p1 && p1[1..] == rest;
    SeekStep(p0, key);
    SeekStep(p1, key);
  }

  /** Walking over the pieces stops at the first entry with the key, or goes on behind the entries. */
  lemma {:induction false} SeekEntries(entries: seq<Entry>, before: string, more: seq<string>, key: string)
    requires PlainKey(key) && PlainEntries(entries)
    ensures Seek(Parts(entries, before, more), key) ==
      if Locate(entries, key).Some? then Some(Following(Locate(entries, key).value, more)) else Seek([""] + more, key)
  {
    if entries == [] {
      SeekIgnoresFirst(before, "", more, key);
    } else {
      var e := entries[0];
      assert PlainEntry(e);
      var next := if e.Quoted? then e.sep else ": " + e.value + e.sep;
      var rest := Parts(entries[1..], next, more);
      if e.key == key {
        SeekStep(Parts(entries, before, more), key);
        if e.Quoted? {
          var tail := Split(e.value, QUOTE) + rest;
          assert ([before, e.key, ": "] + tail)[2..] == [": "] + tail;
        } else {
          assert ([before, e.key] + rest)[2..] == rest;
        }
      } else {
        SeekEntries(entries[1..], next, more, key);
        if e.Quoted? { SeekPastQuoted(before, e, rest, key); } else { SeekPastBare(before, e, rest, key); }
      }
    }
  }

  /** Searching printed entries for a key. */
  lemma SearchEntries(entries: seq<Entry>, before: string, more: seq<string>, key: string)
    requires PlainKey(key) && PlainEntries(entries) && Without(before, QUOTE) && QuoteFree(more)
    ensures var text := before + PrintEntries(entries, Tail(more));
      var found := Locate(entries, key);
      var at := if found.Some? then Some(Following(found.value, more)) else Seek([""] + more, key);
      && (at.None? ==> After(text, Pattern(key)) == None)
      && (at.Some? ==> Join(at.value) != "" && After(text, Pattern(key)) == Some(Join(at.value)[1..]))
  {
    PartsArePrinted(entries, before, more);
    PartsQuoteFree(entries, before, more);
    SeekIsSearch(Parts(entries, before, more), key);
    SeekEntries(entries, before, more, key);
  }

  // ----------------------------------------------------------------- looking up

  lemma PieceTaken(value: string, rest: seq<string>, n: nat)
    requires Without(value, QUOTE)
    ensures TakeUntil(Join([value] + rest), QUOTE, n) == Prefix(value, n)
  {
    JoinCons(value, rest);
    TakeUntilStops(value, Tail(rest), QUOTE, n);
  }

  lemma AfterColon(text: string)
    ensures (": " + ([QUOTE] + text))[1..] == [' '] + ([QUOTE] + text)
    ensures SkipSpaces([' '] + ([QUOTE] + text)) == [QUOTE] + text
    ensures ([QUOTE] + text)[1..] == text
  {
    assert ([' '] + ([QUOTE] + text))[1..] == [QUOTE] + text;
  }

  lemma PiecesFollow(pieces: seq<string>, rest: seq<string>, outSize: nat)
    requires pieces != [] && Without(pieces[0], QUOTE) && outSize >= 1
    ensures var p := SkipSpaces(Join([": "] + (pieces + rest))[1..]);
      p != "" && p[0] == QUOTE && TakeUntil(p[1..], QUOTE, outSize - 1) == Prefix(pieces[0], outSize - 1)
  {
    var tail := pieces + rest;
    JoinCons(": ", tail);
    AfterColon(Join(tail));
    assert tail == [pieces[0]] + (pieces[1..] + rest);
    PieceTaken(pieces[0], pieces[1..] + rest, outSize - 1);
  }

  lemma QuotedFollows(value: string, rest: seq<string>, outSize: nat)
    requires outSize >= 1
    ensures var p := SkipSpaces(Join([": "] + (Split(value, QUOTE) + rest))[1..]);
      p != "" && p[0] == QUOTE && TakeUntil(p[1..], QUOTE, outSize - 1) == Prefix(Split(value, QUOTE)[0], outSize - 1)
  {
    FirstPiece(value, QUOTE);
    PiecesFollow(Split(value, QUOTE), rest, outSize);
  }

  /** Print an object, look up a key: the scanner finds the quoted value of the first entry with that key,
      up to its first quote and cut to the buffer, and nothing when there is no such entry. */
  lemma GetQuoted(entries: seq<Entry>, key: string, outSize: nat)
    requires PlainKey(key) && outSize >= 1 && PlainEntries(entries)
    ensures var at := Locate(entries, key);
      && (at.None? ==> GetText("{" + PrintEntries(entries, ""), key, outSize) == None)
      && (at.Some? && at.value[0].Quoted? ==>
            GetText("{" + PrintEntries(entries, ""), key,
              outSize) == Some(Prefix(Split(at.value[0].value, QUOTE)[0], outSize - 1)))
  {
    var at := Locate(entries, key);
    SearchEntries(entries, "{", [], key);
    if at.Some? && at.value[0].Quoted? {
      QuotedFollows(at.value[0].value, Parts(at.value[1..], at.value[0].sep, []), outSize);
    }
  }

  /** ... and a bare number reads back exactly. */
  lemma GetBareInt(entries: seq<Entry>, key: string, n: int)
    requires PlainKey(key) && PlainEntries(entries) && -INT_LIMIT <= n < INT_LIMIT
    requires Locate(entries, key).Some?
    requires var e := Locate(entries, key).value[0];
      e.Bare? && e.value == PrintInt(n) && e.sep != "" && !IsDigit(e.sep[0])
    ensures GetInt("{" + PrintEntries(entries, ""), key) == n
  {
    var at := Locate(entries, key).value;
    SearchEntries(entries, "{", [], key);
    var v, sep, tail := PrintInt(n), at[0].sep, PrintEntries(at[1..], "");
    PartsArePrinted(at[1..], ": " + v + sep, []);
    AfterBareColon(v, sep, tail);
    SpacedRoundTrip(n, sep + tail);
    AtoiOf(SkipSpaces([' '] + (v + (sep + tail))), n);
  }

  lemma AfterBareColon(v: string, sep: string, tail: string)
    ensures (": " + v + sep + tail)[1..] == [' '] + (v + (sep + tail))
  {
  }

  // ----------------------------------------------------------------- the routing header

  datatype Header = Header(
    method_: string, url: string, path: string, query: string, status: int,
    reqId: string, source: string, dest: string)

  /** `remoteAddr` is empty in a worker's header and the client's address in a bridge request's. */
  function HeaderEntries(h: Header, remoteAddr: string, close: string): seq<Entry> {
    [Quoted("method", h.method_, ", "), Quoted("url", h.url, ", "), Quoted("path", h.path, ", "),
     Bare("headers", "{}", ", "), Quoted("query_string", h.query, ", "), Quoted("remote_addr", remoteAddr, ", "),
     Bare("status_code", PrintInt(h.status), ", "), Quoted("req_id_str", h.reqId, ", "),
     Quoted("source_worker", h.source, ", "), Quoted("dest_worker", h.dest, close)]
  }

  /** serialize_header */
  function Serialize(h: Header, remoteAddr: string): string {
    "{" + PrintEntries(HeaderEntries(h, remoteAddr, "}"), "")
  }

  predicate PlainHeader(h: Header) {
    && Without(h.method_, QUOTE) && Without(h.url, QUOTE) && Without(h.path, QUOTE) && Without(h.query, QUOTE)
    && Without(h.reqId, QUOTE) && Without(h.source, QUOTE) && Without(h.dest, QUOTE)
  }

  predicate GuardedHeader(h: Header) {
    && Guarded(h.method_) && Guarded(h.url) && Guarded(h.path) && Guarded(h.query)
    && Guarded(h.reqId) && Guarded(h.source) && Guarded(h.dest)
  }

  lemma PlainIsGuarded(h: Header)
    requires PlainHeader(h)
    ensures GuardedHeader(h)
  {
    QuoteFreeIsGuarded(h.method_);
    QuoteFreeIsGuarded(h.url);
    QuoteFreeIsGuarded(h.path);
    QuoteFreeIsGuarded(h.query);
    QuoteFreeIsGuarded(h.reqId);
    QuoteFreeIsGuarded(h.source);
    QuoteFreeIsGuarded(h.dest);
  }

  lemma HeaderIsPlain(h: Header, remoteAddr: string, close: string)
    requires GuardedHeader(h) && Guarded(remoteAddr)
    requires Without(close, QUOTE) && close != "" && close[0] == '}'
    ensures PlainEntries(HeaderEntries(h, remoteAddr, close))
  {
    var entries := HeaderEntries(h, remoteAddr, close);
    FirstKeysPlain();
    LastKeysPlain();
    PrintedIsPlain(h.status);
    forall i | 0 <= i < |entries| ensures PlainEntry(entries[i]) {
      assert entries[i].key == KEYS[i] && PlainKey(KEYS[i]);
    }
  }

  ghost predicate DistinctKeys(entries: seq<Entry>) {
    forall i, j | 0 <= i < j < |entries| :: entries[i].key != entries[j].key
  }

  const KEYS: seq<string> := ["method", "url", "path", "headers", "query_string", "remote_addr", "status_code",
                              "req_id_str", "source_worker", "dest_worker"]

  /** Keys of different lengths differ; the rest differ in their first letter. */
  lemma KeysDiffer(i: nat, j: nat)
    requires i < j < 10
    ensures KEYS[i] != KEYS[j]
  {
    assert |KEYS[i]| != |KEYS[j]| || KEYS[i][0] != KEYS[j][0];
  }

  lemma HeaderKeysDistinct(h: Header, remoteAddr: string, close: string)
    ensures DistinctKeys(HeaderEntries(h, remoteAddr, close))
  {
    var entries := HeaderEntries(h, remoteAddr, close);
    assert forall i | 0 <= i < 10 :: entries[i].key == KEYS[i];
    forall i, j | 0 <= i < j < |entries| ensures entries[i].key != entries[j].key { KeysDiffer(i, j); }
  }

  /** Looking up the key of a quoted entry finds that entry. */
  lemma EntryFound(entries: seq<Entry>, i: nat, outSize: nat)
    requires PlainEntries(entries) && DistinctKeys(entries) && outSize >= 1
    requires i < |entries| && entries[i].Quoted? && PlainKey(entries[i].key)
    ensures GetText("{" + PrintEntries(entries, ""), entries[i].key, outSize)
         == Some(Prefix(Split(entries[i].value, QUOTE)[0], outSize - 1))
  {
    LocateAt(entries, entries[i].key, i);
    GetQuoted(entries, entries[i].key, outSize);
  }

  lemma KeyIsPlain(i: nat)
    requires i < 10
    ensures PlainKey(KEYS[i])
  {
    if i < 5 { FirstKeysPlain(); } else { LastKeysPlain(); }
  }

  lemma FirstKeysPlain()
    ensures forall key | key in KEYS[..5] :: PlainKey(key)
  {
  }

  lemma LastKeysPlain()
    ensures forall key | key in KEYS[5..] :: PlainKey(key)
  {
  }

  lemma FieldReads(h: Header, remoteAddr: string, outSize: nat, i: nat)
    requires GuardedHeader(h) && Guarded(remoteAddr) && outSize >= 1
    requires i < 10 && HeaderEntries(h, remoteAddr, "}")[i].Quoted?
    ensures GetText(Serialize(h, remoteAddr), KEYS[i], outSize)
         == Some(Prefix(Split(HeaderEntries(h, remoteAddr, "}")[i].value, QUOTE)[0], outSize - 1))
  {
    var entries := HeaderEntries(h, remoteAddr, "}");
    HeaderIsPlain(h, remoteAddr, "}");
    HeaderKeysDistinct(h, remoteAddr, "}");
    KeyIsPlain(i);
    assert entries[i].key == KEYS[i];
    EntryFound(entries, i, outSize);
  }

  /** The string fields of a header as the scanner reads them. */
  ghost predicate FieldsAre(json: string, h: Header, outSize: nat)
    requires outSize >= 1
  {
    && GetText(json, "method", outSize) == Some(Prefix(h.method_, outSize - 1))
    && GetText(json, "url", outSize) == Some(Prefix(h.url, outSize - 1))
    && GetText(json, "path", outSize) == Some(Prefix(h.path, outSize - 1))
    && GetText(json, "query_string", outSize) == Some(Prefix(h.query, outSize - 1))
    && GetText(json, "req_id_str", outSize) == Some(Prefix(h.reqId, outSize - 1))
    && GetText(json, "source_worker", outSize) == Some(Prefix(h.source, outSize - 1))
    && GetText(json, "dest_worker", outSize) == Some(Prefix(h.dest, outSize - 1))
  }

  /** Each field up to its first quote. */
  function UpToQuotes(h: Header): Header {
    h.(method_ := Split(h.method_, QUOTE)[0], url := Split(h.url, QUOTE)[0], path := Split(h.path, QUOTE)[0],
       query := Split(h.query, QUOTE)[0], reqId := Split(h.reqId, QUOTE)[0], source := Split(h.source, QUOTE)[0],
       dest := Split(h.dest, QUOTE)[0])
  }

  /** No field of a guarded header is mistaken for another: each reads back up to its first quote. */
  lemma GuardedRoundTrip(h: Header, remoteAddr: string, outSize: nat)
    requires GuardedHeader(h) && Guarded(remoteAddr) && outSize >= 1
    ensures FieldsAre(Serialize(h, remoteAddr), UpToQuotes(h), outSize)
  {
    FieldReads(h, remoteAddr, outSize, 0);
    FieldReads(h, remoteAddr, outSize, 1);
    FieldReads(h, remoteAddr, outSize, 2);
    FieldReads(h, remoteAddr, outSize, 4);
    FieldReads(h, remoteAddr, outSize, 7);
    FieldReads(h, remoteAddr, outSize, 8);
    FieldReads(h, remoteAddr, outSize, 9);
  }

  /** The text in the writer's buffer: snprintf keeps what fits in front of the terminator. */
  function Written(h: Header, bufferSize: nat): string
    requires bufferSize >= 1
  {
    Prefix(Serialize(h, ""), bufferSize - 1)
  }

  /** Every string field of a quote-free header that fits the writer's buffer reads back, cut to the
      reader's. */
  lemma HeaderRoundTrip(h: Header, bufferSize: nat, outSize: nat)
    requires PlainHeader(h) && |Serialize(h, "")| < bufferSize && outSize >= 1
    ensures FieldsAre(Written(h, bufferSize), h, outSize)
  {
    PlainIsGuarded(h);
    QuoteFreeIsGuarded("");
    GuardedRoundTrip(h, "", outSize);
    PlainUpToQuotes(h);
  }

  lemma PlainUpToQuotes(h: Header)
    requires PlainHeader(h)
    ensures UpToQuotes(h) == h
  {
    QuoteFreeIsGuarded(h.method_);
    QuoteFreeIsGuarded(h.url);
    QuoteFreeIsGuarded(h.path);
    QuoteFreeIsGuarded(h.query);
    QuoteFreeIsGuarded(h.reqId);
    QuoteFreeIsGuarded(h.source);
    QuoteFreeIsGuarded(h.dest);
  }

  /** The status reads back exactly. */
  lemma StatusRoundTrip(h: Header, bufferSize: nat)
    requires PlainHeader(h) && |Serialize(h, "")| < bufferSize && -INT_LIMIT <= h.status < INT_LIMIT
    ensures GetInt(Written(h, bufferSize), "status_code") == h.status
  {
    var entries := HeaderEntries(h, "", "}");
    PlainIsGuarded(h);
    QuoteFreeIsGuarded("");
    HeaderIsPlain(h, "", "}");
    LocateAt(entries, "status_code", 6);
    GetBareInt(entries, "status_code", h.status);
  }
}
