/** The services' key-value store, loaded from a flat JSON object, and query-string lookup. */
module JsonUtil {
  import opened Options
  import opened Text

  const MAX_ENTRIES: nat := 256
  const MAX_KEY: nat := 63

  // ----------------------------------------------------------------- query strings

  function SkipSegment(s: string): (r: string)
    ensures |r| <= |s| && (s != "" ==> |r| < |s|)
  {
    if s == "" then "" else if s[0] == '&' then s[1..] else SkipSegment(s[1..])
  }

  /** query_get: None is the -1 result. */
  function QueryGet(qs: string, key: string, outSize: nat): Option<string>
    requires outSize >= 1
    decreases |qs|
  {
    if qs == "" then None
    else if key + "=" <= qs then Some(TakeUntil(qs[|key| + 1..], '&', outSize - 1))
    else QueryGet(SkipSegment(qs), key, outSize)
  }

  /** The copy loop. */
  method CopyValue(value: string, room: nat) returns (out: string)
    ensures out == TakeUntil(value, '&', room)
  {
    var p := value;
    out := "";
    while p != "" && p[0] != '&' && |out| < room
      invariant |out| <= room
      invariant out + TakeUntil(p, '&', room - |out|) == TakeUntil(value, '&', room)
      decreases |p|
    {
      out := out + [p[0]];
      p := p[1..];
    }
  }

  /** The loop to the next ampersand, and the step over it. */
  method NextSegment(s: string) returns (p: string)
    ensures p == SkipSegment(s)
  {
    p := s;
    while p != "" && p[0] != '&'
      invariant SkipSegment(p) == SkipSegment(s)
      decreases |p|
    {
      p := p[1..];
    }
    if p != "" && p[0] == '&' {
      p := p[1..];
    }
  }

  method GetFromQuery(qs: string, key: string, outSize: nat) returns (ok: bool, out: string)
    requires outSize >= 1
    ensures ok == QueryGet(qs, key, outSize).Some?
    ensures ok ==> out == QueryGet(qs, key, outSize).value
  {
    var p := qs;
    out := "";
    while p != ""
      invariant QueryGet(p, key, outSize) == QueryGet(qs, key, outSize)
      decreases |p|
    {
      if key + "=" <= p {
        out := CopyValue(p[|key| + 1..], outSize - 1);
        return true, out;
      }
      p := NextSegment(p);
    }
    ok := false;
  }

  /** The segments between ampersands. */
  function Segments(qs: string): (r: seq<string>)
    ensures r != []
  {
    Split(qs, '&')
  }

  /** The value of the first segment that starts with `key=`. */
  function FirstValue(segments: seq<string>, key: string): Option<string> {
    if segments == [] then None
    else if key + "=" <= segments[0] then Some(segments[0][|key| + 1..])
    else FirstValue(segments[1..], key)
  }

  function Lookup(qs: string, key: string, outSize: nat): Option<string>
    requires outSize >= 1
  {
    var v := FirstValue(Segments(qs), key);
    if v.None? then None else Some(Prefix(v.value, outSize - 1))
  }

  /** Skipping a segment leaves the others. */
  lemma {:induction false} FirstSegment(s: string)
    ensures var seg := Segments(s);
      && (|seg| > 1 ==> Segments(SkipSegment(s)) == seg[1..])
      && (|seg| == 1 ==> SkipSegment(s) == "")
  {
    if s != "" {
      FirstSegment(s[1..]);
      var r := Segments(s[1..]);
      if s[0] == '&' {
        assert Segments(s)[1..] == r;
      } else {
        assert Segments(s)[1..] == r[1..];
      }
    }
  }

  lemma PrefixAgrees(a: string, b: string)
    requires a <= b
    ensures forall i | 0 <= i < |a| :: a[i] == b[i]
  {
  }

  lemma PrefixOfSegment(s: string, first: string, pat: string)
    requires first <= s && Without(pat, '&') && (|first| < |s| ==> s[|first|] == '&')
    ensures pat <= s <==> pat <= first
  {
    if pat <= s { PrefixAgrees(pat, s); }
    if pat <= first { assert pat == s[..|pat|]; }
  }

  lemma FirstValueStep(segments: seq<string>, key: string)
    requires segments != []
    ensures FirstValue(segments, key) ==
      if key + "=" <= segments[0] then Some(segments[0][|key| + 1..]) else FirstValue(segments[1..], key)
  {
  }

  /** A match at the front of the query string is a match of its first segment. */
  lemma FrontMatch(qs: string, first: string, key: string, n: nat)
    requires first <= qs && Without(first, '&') && (|first| < |qs| ==> qs[|first|] == '&') && key + "=" <= first
    ensures TakeUntil(qs[|key| + 1..], '&', n) == Prefix(first[|key| + 1..], n)
  {
    var value, rest := first[|key| + 1..], qs[|first|..];
    assert qs == first + rest;
    assert qs[|key| + 1..] == value + rest;
    TakeUntilStops(value, rest, '&', n);
  }

  /** For every query string and &-free key the scan is lookup among the segments. */
  lemma {:induction false} QueryGetIsLookup(qs: string, key: string, outSize: nat)
    requires outSize >= 1 && Without(key, '&')
    ensures QueryGet(qs, key, outSize) == Lookup(qs, key, outSize)
    decreases |qs|
  {
    var seg := Segments(qs);
    FirstPiece(qs, '&');
    FirstSegment(qs);
    FirstValueStep(seg, key);
    PrefixOfSegment(qs, seg[0], key + "=");
    if key + "=" <= seg[0] {
      FrontMatch(qs, seg[0], key, outSize - 1);
    } else if |seg| > 1 {
      QueryGetIsLookup(SkipSegment(qs), key, outSize);
    } else {
      assert seg[1..] == [];
      assert QueryGet(SkipSegment(qs), key, outSize) == None;
    }
  }

  lemma NotAPrefix(key: string, segment: string)
    requires !Without(key, '&') && Without(segment, '&')
    ensures !(key + "=" <= segment)
  {
    var i :| 0 <= i < |key| && key[i] == '&';
    assert (key + "=")[i] == '&';
  }

  lemma {:induction false} NoSegmentHas(s: string, key: string)
    requires !Without(key, '&')
    ensures FirstValue(Segments(s), key) == None
    decreases |s|
  {
    FirstPiece(s, '&');
    FirstSegment(s);
    var seg := Segments(s);
    NotAPrefix(key, seg[0]);
    if |seg| > 1 {
      NoSegmentHas(SkipSegment(s), key);
    } else {
      assert seg[1..] == [];
    }
  }

  /** And exactly for those keys. */
  lemma LookupIff(key: string, outSize: nat)
    requires outSize >= 1
    ensures (forall qs: string :: QueryGet(qs, key, outSize) == Lookup(qs, key, outSize)) <==> Without(key, '&')
  {
    if Without(key, '&') {
      forall qs: string ensures QueryGet(qs, key, outSize) == Lookup(qs, key, outSize) {
        QueryGetIsLookup(qs, key, outSize);
      }
    } else {
      NoSegmentHas(key + "=", key);
      assert QueryGet(key + "=", key, outSize).Some?;
    }
  }

  // ----------------------------------------------------------------- loading a store

  datatype Pair = Pair(key: string, value: int)
  /** What kv_store_load leaves behind: its result and the entries filled so far. */
  datatype Loaded = Loaded(ok: bool, entries: seq<Pair>)

  function SkipWhite(s: string, comma: bool): (r: string)
    ensures |r| <= |s|
  {
    if s != "" && (IsSpace(s[0]) || (comma && s[0] == ',')) then SkipWhite(s[1..], comma) else s
  }

  function SkipDigits(s: string): (r: string)
    ensures |r| <= |s|
  {
    if s != "" && IsDigit(s[0]) then SkipDigits(s[1..]) else s
  }

  /** Where strtol stops: unmoved when it finds no digit. */
  function AfterInt(s: string): (r: string)
    ensures |r| <= |s|
  {
    var p := SkipWhite(s, false);
    var q := if p != "" && p[0] in "+-" then p[1..] else p;
    if q != "" && IsDigit(q[0]) then SkipDigits(q) else s
  }

  datatype Read = Read(pair: Pair, rest: string)
  type Reader = string -> Option<Read>

  function ReadValue(key: string, s: string): (r: Read)
    ensures |r.rest| <= |s|
  {
    if s != "" && s[0] == 't' then Read(Pair(key, 1), Drop(s, 4))
    else if s != "" && s[0] == 'f' then Read(Pair(key, 0), Drop(s, 5))
    else Read(Pair(key, Atoi(s)), AfterInt(s))
  }

  /** One entry, from its quoted key to the end of its value. */
  function ReadPair(s: string): (r: Option<Read>)
    ensures r.Some? ==> |r.value.rest| < |s|
  {
    var end := SkipTo(Drop(s, 1), QUOTE);
    if s == "" || s[0] != QUOTE || end == "" then None
    else
      var key := s[1..|s| - |end|];
      var colon := SkipTo(end[1..], ':');
      Some(ReadValue(Prefix(key, MAX_KEY), SkipWhite(Drop(colon, 1), false)))
  }

  /** The entry loop over any reader of one entry. */
  function LoadPairs(read: Reader, s: string, room: nat): (r: Loaded)
    ensures |r.entries| <= room
    decreases room, |s|
  {
    var p := SkipWhite(s, true);
    if room == 0 || p == "" || p[0] == '}' then Loaded(true, [])
    else
      var one := read(p);
      if one.None? then Loaded(false, []) else With([one.value.pair], LoadPairs(read, one.value.rest, room - 1))
  }

  /** Entries already filled in front of those still to load. */
  function With(entries: seq<Pair>, more: Loaded): (r: Loaded)
    ensures |r.entries| == |entries| + |more.entries|
  {
    Loaded(more.ok, entries + more.entries)
  }

  /** kv_store_load, given the text of the file. */
  function Load(text: string): (r: Loaded)
    ensures |r.entries| <= MAX_ENTRIES
  {
    LoadPairs(ReadPair, Drop(SkipTo(text, '{'), 1), MAX_ENTRIES)
  }

  function Get(entries: seq<Pair>, key: string): (r: Option<int>) {
    if entries == [] then None
    else if entries[0].key == key then Some(entries[0].value)
    else Get(entries[1..], key)
  }

  method FindChar(s: string, c: char) returns (p: string)
    ensures p == SkipTo(s, c)
  {
    p := s;
    while p != "" && p[0] != c
      invariant SkipTo(p, c) == SkipTo(s, c)
      decreases |p|
    {
      p := p[1..];
    }
  }

  method PassWhite(s: string, comma: bool) returns (p: string)
    ensures p == SkipWhite(s, comma)
  {
    p := s;
    while p != "" && (IsSpace(p[0]) || (comma && p[0] == ','))
      invariant SkipWhite(p, comma) == SkipWhite(s, comma)
      decreases |p|
    {
      p := p[1..];
    }
  }

  method ScanPair(s: string) returns (r: Option<Read>)
    requires s != ""
    ensures r == ReadPair(s)
  {
    if s[0] != QUOTE {
      return None;
    }
    var end := FindChar(s[1..], QUOTE);
    if end == "" {
      return None;
    }
    var key := s[1..|s| - |end|];
    var p := FindChar(end[1..], ':');
    p := PassWhite(Drop(p, 1), false);
    r := Some(ReadValue(Prefix(key, MAX_KEY), p));
  }

  lemma LoadStops(read: Reader, s: string, room: nat)
    requires var p := SkipWhite(s, true); room == 0 || p == "" || p[0] == '}'
    ensures LoadPairs(read, s, room) == Loaded(true, [])
  {
  }

  lemma WithWith(a: seq<Pair>, b: seq<Pair>, more: Loaded)
    ensures With(a, With(b, more)) == With(a + b, more)
  {
  }

  lemma LoadStep(read: Reader, s: string, p: string, room: nat)
    requires p == SkipWhite(s, true) && room > 0 && p != "" && p[0] != '}'
    ensures LoadPairs(read, s, room) ==
      if read(p).None? then Loaded(false, [])
      else With([read(p).value.pair], LoadPairs(read, read(p).value.rest, room - 1))
  {
  }

  /** What the store will hold, given the entries it has and the text left. */
  function Outlook(read: Reader, entries: seq<Pair>, s: string): (r: Loaded)
    requires |entries| <= MAX_ENTRIES
  {
    With(entries, LoadPairs(read, s, MAX_ENTRIES - |entries|))
  }

  /** One turn of the entry loop does not change the outlook. */
  lemma OutlookStep(read: Reader, entries: seq<Pair>, s: string, p: string)
    requires |entries| < MAX_ENTRIES && p == SkipWhite(s, true) && p != "" && p[0] != '}'
    ensures Outlook(read, entries, s) ==
      if read(p).None? then Loaded(false, entries) else Outlook(read, entries + [read(p).value.pair],
        read(p).value.rest)
  {
    LoadStep(read, s, p, MAX_ENTRIES - |entries|);
    if read(p).Some? {
      WithWith(entries, [read(p).value.pair], LoadPairs(read, read(p).value.rest, MAX_ENTRIES - |entries| - 1));
    }
  }

  lemma OutlookEnds(read: Reader, entries: seq<Pair>, s: string)
    requires |entries| <= MAX_ENTRIES
    requires var p := SkipWhite(s, true); |entries| == MAX_ENTRIES || p == "" || p[0] == '}'
    ensures Outlook(read, entries, s) == Loaded(true, entries)
  {
    LoadStops(read, s, MAX_ENTRIES - |entries|);
  }

  class KvStore {
    var entries: seq<Pair>

    constructor ()
      ensures entries == []
    {
      entries := [];
    }

    /** kv_store_load: the entry loop, filling the store in place. */
    method LoadFrom(text: string) returns (ok: bool)
      modifies this
      ensures Loaded(ok, entries) == Load(text)
    {
      entries := [];
      var p := FindChar(text, '{');
      p := Drop(p, 1);
      ghost var read := ReadPair;
      assert Outlook(read, entries, p) == Load(text);
      while p != "" && p[0] != '}' && |entries| < MAX_ENTRIES
        invariant |entries| <= MAX_ENTRIES && Outlook(read, entries, p) == Load(text)
        decreases |p|
      {
        ghost var here := p;
        p := PassWhite(p, true);
        if p == "" || p[0] == '}' {
          OutlookEnds(read, entries, here);
          return true;
        }
        OutlookStep(read, entries, here, p);
        var one := ScanPair(p);
        if one.None? {
          return false;
        }
        entries := entries + [one.value.pair];
        p := one.value.rest;
      }
      OutlookEnds(read, entries, p);
      ok := true;
    }

    /** kv_store_get */
    method Find(key: string) returns (r: Option<int>)
      ensures r == Get(entries, key)
    {
      var i := 0;
      while i < |entries|
        invariant 0 <= i <= |entries|
        invariant Get(entries[i..], key) == Get(entries, key)
      {
        if entries[i].key == key {
          return Some(entries[i].value);
        }
        assert entries[i..][1..] == entries[i + 1..];
        i := i + 1;
      }
      r := None;
    }
  }

  // ----------------------------------------------------------------- printed objects

  datatype Value = Number(n: int) | Truth(b: bool)

  /** An entry with any white space around its tokens. */
  datatype Item = Item(lead: string, key: string, gap: string, after: string, value: Value, trail: string)
  type Printer = (Item, string) -> string

  function ValueText(v: Value): string {
    match v
    case Number(n) => PrintInt(n)
    case Truth(b) => if b then "true" else "false"
  }

  function Stored(item: Item): Pair {
    Pair(Prefix(item.key, MAX_KEY), ValueOf(item.value))
  }

  function ValueOf(v: Value): int {
    match v
    case Number(n) => n
    case Truth(b) => if b then 1 else 0
  }

  predicate PlainItem(item: Item) {
    && Blank(item.lead) && Blank(item.gap) && Blank(item.after) && Blank(item.trail)
    && Without(item.key, QUOTE)
    && (item.value.Number? ==> -INT_LIMIT <= item.value.n < INT_LIMIT)
  }

  function ValueOnwards(item: Item, rest: string): string {
    ValueText(item.value) + (item.trail + rest)
  }

  function PrintItem(item: Item, rest: string): string {
    item.lead + ([QUOTE] + (item.key + ([QUOTE] + (item.gap + ([':'] + (item.after + ValueOnwards(item, rest)))))))
  }

  /** The items behind an opening brace or comma, then the closing brace, over any printer of one item. */
  function PrintWith(printer: Printer, items: seq<Item>, rest: string): string {
    if items == [] then ['}'] + rest
    else
      printer(items[0], if |items| == 1 then ['}'] + rest else [','] + PrintWith(printer, items[1..], rest))
  }

  function PrintItems(items: seq<Item>, rest: string): string {
    PrintWith(PrintItem, items, rest)
  }

  /** A flat object in a file: nothing in front of it opens another. */
  function PrintObject(front: string, items: seq<Item>, rest: string): string {
    front + (['{'] + PrintItems(items, rest))
  }

  lemma {:induction false} WhiteSkipped(a: string, rest: string, comma: bool)
    requires Blank(a)
    ensures SkipWhite(a + rest, comma) == SkipWhite(rest, comma)
  {
    if a == "" {
      assert a + rest == rest;
    } else {
      ConsTail(a, rest);
      WhiteSkipped(a[1..], rest, comma);
    }
  }

  lemma {:induction false} DigitsSkipped(a: string, rest: string)
    requires AllDigits(a) && (rest == "" || !IsDigit(rest[0]))
    ensures SkipDigits(a + rest) == rest
  {
    if a == "" {
      assert a + rest == rest;
    } else {
      ConsTail(a, rest);
      DigitsSkipped(a[1..], rest);
    }
  }

  lemma NatSkipped(digits: string, rest: string)
    requires digits != "" && AllDigits(digits) && (rest == "" || !IsDigit(rest[0]))
    ensures AfterInt(digits + rest) == rest
    ensures AfterInt(['-'] + (digits + rest)) == rest
  {
    var s := digits + rest;
    DigitsSkipped(digits, rest);
    assert s[0] == digits[0];
    assert (['-'] + s)[0] == '-' && (['-'] + s)[1..] == s;
  }

  lemma IntSkipped(n: int, rest: string)
    requires rest == "" || !IsDigit(rest[0])
    ensures AfterInt(PrintInt(n) + rest) == rest
  {
    var digits := PrintNat(if n < 0 then -n else n);
    NatSkipped(digits, rest);
    if n < 0 { MinusFirst(digits, rest); }
  }

  lemma ValueRead(key: string, v: Value, rest: string)
    requires v.Number? ==> -INT_LIMIT <= v.n < INT_LIMIT
    requires rest != "" && !IsDigit(rest[0])
    ensures ReadValue(key, ValueText(v) + rest) == Read(Pair(key, ValueOf(v)), rest)
  {
    var s := ValueText(v) + rest;
    match v {
      case Number(n) =>
        PrintedIsPlain(n);
        assert s[0] == PrintInt(n)[0];
        IntRoundTrip(n, rest);
        AtoiOf(s, n);
        IntSkipped(n, rest);
      case Truth(b) =>
        assert s[0] == if b then 't' else 'f';
        assert Drop(s, |ValueText(v)|) == rest;
    }
  }

  lemma ValueNotBlank(v: Value, rest: string)
    ensures SkipWhite(ValueText(v) + rest, false) == ValueText(v) + rest
  {
    var s := ValueText(v) + rest;
    if v.Number? {
      PrintedIsPlain(v.n);
      assert s[0] == PrintInt(v.n)[0];
    } else {
      assert s[0] == if v.b then 't' else 'f';
    }
  }

  lemma KeyCut(key: string, rest: string)
    ensures var s := [QUOTE] + (key + rest); s[1..] == key + rest && s[1..|s| - |rest|] == key
  {
  }

  /** A printed entry is read as it will be stored, up to the white space behind it. */
  lemma ItemRead(item: Item, rest: string)
    requires PlainItem(item) && rest != "" && rest[0] in ",}"
    ensures var p := SkipWhite(PrintItem(item, rest), true);
      p != "" && p[0] == QUOTE && ReadPair(p) == Some(Read(Stored(item), item.trail + rest))
  {
    var behind := item.trail + rest;
    var value := ValueText(item.value) + behind;
    var colon := [':'] + (item.after + value);
    var end := [QUOTE] + (item.gap + colon);
    var p := [QUOTE] + (item.key + end);
    WhiteSkipped(item.lead, p, true);
    KeyCut(item.key, end);
    SkipToFinds(item.key, QUOTE, end);
    assert Drop(p, 1) == p[1..];
    assert end[1..] == item.gap + colon;
    SkipToFinds(item.gap, ':', colon);
    assert Drop(colon, 1) == item.after + value;
    WhiteSkipped(item.after, value, false);
    ValueNotBlank(item.value, behind);
    BehindValue(item.trail, rest);
    ValueRead(Prefix(item.key, MAX_KEY), item.value, behind);
  }

  lemma BehindValue(trail: string, rest: string)
    requires Blank(trail) && rest != "" && rest[0] in ",}"
    ensures trail + rest != "" && !IsDigit((trail + rest)[0])
  {
    if trail == "" { assert trail + rest == rest; } else { assert (trail + rest)[0] == trail[0]; }
  }

  function StoredAll(items: seq<Item>): (r: seq<Pair>)
    ensures |r| == |items| && forall i | 0 <= i < |items| :: r[i] == Stored(items[i])
  {
    if items == [] then [] else [Stored(items[0])] + StoredAll(items[1..])
  }

  lemma LoadIgnoresWhite(read: Reader, a: string, s: string, room: nat)
    requires Blank(a) || a == [',']
    ensures LoadPairs(read, a + s, room) == LoadPairs(read, s, room)
  {
    if a == [','] {
      assert (a + s)[1..] == s;
    } else {
      WhiteSkipped(a, s, true);
    }
  }

  /** What the loop needs to know of the reader. */
  ghost predicate Reads(read: Reader, printer: Printer, item: Item) {
    forall rest: string | rest != "" && rest[0] in ",}" ::
      var p := SkipWhite(printer(item, rest), true);
      p != "" && p[0] == QUOTE && read(p) == Some(Read(Stored(item), item.trail + rest))
  }

  lemma FirstLoaded(read: Reader, printer: Printer, item: Item, rest: string, room: nat)
    requires Reads(read, printer, item) && Blank(item.trail) && rest != "" && rest[0] in ",}" && room > 0
    ensures LoadPairs(read, printer(item, rest), room) == With([Stored(item)], LoadPairs(read, rest, room - 1))
  {
    var s := printer(item, rest);
    LoadStep(read, s, SkipWhite(s, true), room);
    LoadIgnoresWhite(read, item.trail, rest, room - 1);
  }

  function Cut(pairs: seq<Pair>, room: nat): (r: seq<Pair>) {
    if |pairs| <= room then pairs else pairs[..room]
  }

  lemma CutCons(x: Pair, pairs: seq<Pair>, room: nat)
    requires room > 0
    ensures Cut([x] + pairs, room) == [x] + Cut(pairs, room - 1)
  {
  }

  /** What stands behind the first of the items. */
  function Behind(printer: Printer, items: seq<Item>, rest: string): (r: string)
    requires items != []
    ensures r != "" && r[0] in ",}"
  {
    if |items| == 1 then ['}'] + rest else [','] + PrintWith(printer, items[1..], rest)
  }

  lemma BehindLoaded(read: Reader, printer: Printer, items: seq<Item>, rest: string, room: nat, more: Loaded)
    requires items != [] && LoadPairs(read, PrintWith(printer, items[1..], rest), room) == more
    ensures LoadPairs(read, Behind(printer, items, rest), room) == more
  {
    if |items| == 1 {
      assert items[1..] == [];
    } else {
      LoadIgnoresWhite(read, [','], PrintWith(printer, items[1..], rest), room);
    }
  }

  lemma NoPairLoaded(read: Reader, printer: Printer, items: seq<Item>, rest: string, room: nat)
    requires items == [] || room == 0
    ensures LoadPairs(read, PrintWith(printer, items, rest), room) == Loaded(true, Cut(StoredAll(items), room))
  {
    if items == [] {
      assert PrintWith(printer, items, rest) == ['}'] + rest && (['}'] + rest)[0] == '}';
    }
    LoadStops(read, PrintWith(printer, items, rest), room);
  }

  lemma PairLoaded(read: Reader, printer: Printer, items: seq<Item>, rest: string, room: nat, stored: seq<Pair>)
    requires items != [] && room > 0 && Reads(read, printer, items[0]) && Blank(items[0].trail)
    requires LoadPairs(read, Behind(printer, items, rest), room - 1) == Loaded(true, Cut(stored, room - 1))
    ensures LoadPairs(read, PrintWith(printer, items, rest), room) ==
      Loaded(true, Cut([Stored(items[0])] + stored, room))
  {
    FirstLoaded(read, printer, items[0], Behind(printer, items, rest), room);
    CutCons(Stored(items[0]), stored, room);
  }

  lemma StoredCons(items: seq<Item>)
    requires items != []
    ensures StoredAll(items) == [Stored(items[0])] + StoredAll(items[1..])
  {
  }

  /** What is known of single items. */
  ghost predicate AllRead(read: Reader, printer: Printer, items: seq<Item>) {
    forall i | 0 <= i < |items| :: Reads(read, printer, items[i]) && Blank(items[i].trail)
  }

  lemma RestRead(read: Reader, printer: Printer, items: seq<Item>)
    requires AllRead(read, printer, items) && items != []
    ensures Reads(read, printer, items[0]) && Blank(items[0].trail) && AllRead(read, printer, items[1..])
  {
  }

  lemma {:induction false} PairsLoaded(read: Reader, printer: Printer, items: seq<Item>, rest: string, room: nat)
    requires AllRead(read, printer, items)
    ensures LoadPairs(read, PrintWith(printer, items, rest), room) == Loaded(true, Cut(StoredAll(items), room))
    decreases |items|
  {
    if items == [] || room == 0 {
      NoPairLoaded(read, printer, items, rest, room);
    } else {
      var more := items[1..];
      RestRead(read, printer, items);
      PairsLoaded(read, printer, more, rest, room - 1);
      BehindLoaded(read, printer, items, rest, room - 1, Loaded(true, Cut(StoredAll(more), room - 1)));
      PairLoaded(read, printer, items, rest, room, StoredAll(more));
      StoredCons(items);
    }
  }

  lemma PairReads(item: Item)
    requires PlainItem(item)
    ensures Reads(ReadPair, PrintItem, item)
  {
    forall rest: string | rest != "" && rest[0] in ",}"
      ensures var p := SkipWhite(PrintItem(item, rest), true);
        p != "" && p[0] == QUOTE && ReadPair(p) == Some(Read(Stored(item), item.trail + rest))
    {
      ItemRead(item, rest);
    }
  }

  /** Loading a printed object stores its entries in order: the first 256, with keys cut to 63 characters. */
  lemma ObjectLoaded(front: string, items: seq<Item>, rest: string)
    requires Without(front, '{') && forall i | 0 <= i < |items| :: PlainItem(items[i])
    ensures Load(PrintObject(front, items, rest)) ==
      Loaded(true, Cut(StoredAll(items), MAX_ENTRIES))
  {
    var braced := ['{'] + PrintItems(items, rest);
    SkipToFinds(front, '{', braced);
    assert Drop(braced, 1) == PrintItems(items, rest);
    forall i | 0 <= i < |items| ensures Reads(ReadPair, PrintItem, items[i]) && Blank(items[i].trail) {
      PairReads(items[i]);
    }
    PairsLoaded(ReadPair, PrintItem, items, rest, MAX_ENTRIES);
  }

  // ----------------------------------------------------------------- objects that break off

  /** The items, each with a comma behind it, and any text after them. */
  function PrintOpen(printer: Printer, items: seq<Item>, tail: string): string {
    if items == [] then tail else printer(items[0], [','] + PrintOpen(printer, items[1..], tail))
  }

  lemma CommaLoaded(read: Reader, printer: Printer, item: Item, rest: string, room: nat)
    requires Reads(read, printer, item) && Blank(item.trail) && room > 0
    ensures LoadPairs(read, printer(item, [','] + rest), room) ==
      With([Stored(item)], LoadPairs(read, rest, room - 1))
  {
    FirstLoaded(read, printer, item, [','] + rest, room);
    LoadIgnoresWhite(read, [','], rest, room - 1);
  }

  /** An item in front of what loads already. */
  lemma OpenCons(read: Reader, printer: Printer, items: seq<Item>, tail: string, room: nat, more: Loaded)
    requires items != [] && Reads(read, printer, items[0]) && Blank(items[0].trail) && room > 0
    requires LoadPairs(read, PrintOpen(printer, items[1..], tail), room - 1) == With(StoredAll(items[1..]), more)
    ensures LoadPairs(read, PrintOpen(printer, items, tail), room) == With(StoredAll(items), more)
  {
    CommaLoaded(read, printer, items[0], PrintOpen(printer, items[1..], tail), room);
    StoredCons(items);
    WithWith([Stored(items[0])], StoredAll(items[1..]), more);
  }

  lemma NothingInFront(more: Loaded)
    ensures With(StoredAll([]), more) == more
  {
  }

  lemma {:induction false} OpenLoaded(read: Reader, printer: Printer, items: seq<Item>, tail: string, room: nat)
    requires AllRead(read, printer, items) && |items| <= room
    ensures LoadPairs(read, PrintOpen(printer, items, tail), room) ==
      With(StoredAll(items), LoadPairs(read, tail, room - |items|))
    decreases |items|
  {
    if items == [] {
      NothingInFront(LoadPairs(read, tail, room));
    } else {
      RestRead(read, printer, items);
      OpenLoaded(read, printer, items[1..], tail, room - 1);
      OpenCons(read, printer, items, tail, room, LoadPairs(read, tail, room - |items|));
    }
  }

  /** No entry can be read: no key begins, or it never ends. */
  predicate Broken(tail: string) {
    var p := SkipWhite(tail, true);
    p != "" && p[0] != '}' && (p[0] != QUOTE || Without(p[1..], QUOTE))
  }

  lemma BrokenStops(tail: string, room: nat)
    requires Broken(tail) && room > 0
    ensures LoadPairs(ReadPair, tail, room) == Loaded(false, [])
  {
    var p := SkipWhite(tail, true);
    if p[0] == QUOTE { SkipToNone(p[1..], QUOTE); }
    LoadStep(ReadPair, tail, p, room);
  }

  /** An object that breaks off behind some items: if what follows is no entry the load fails, if nothing follows it
      succeeds, and either way the items before it are in the store. */
  lemma BrokenObject(front: string, items: seq<Item>, tail: string)
    requires Without(front, '{') && (forall i | 0 <= i < |items| :: PlainItem(items[i])) && |items| < MAX_ENTRIES
    ensures var loaded := Load(front + (['{'] + PrintOpen(PrintItem, items, tail)));
      && (Broken(tail) ==> loaded == Loaded(false, StoredAll(items)))
      && (Blank(tail) ==> loaded == Loaded(true, StoredAll(items)))
  {
    var braced := ['{'] + PrintOpen(PrintItem, items, tail);
    SkipToFinds(front, '{', braced);
    assert Drop(braced, 1) == PrintOpen(PrintItem, items, tail);
    forall i | 0 <= i < |items| ensures Reads(ReadPair, PrintItem, items[i]) && Blank(items[i].trail) {
      PairReads(items[i]);
    }
    OpenLoaded(ReadPair, PrintItem, items, tail, MAX_ENTRIES);
    if Broken(tail) { BrokenStops(tail, MAX_ENTRIES - |items|); }
    if Blank(tail) {
      WhiteSkipped(tail, "", true);
      assert tail + "" == tail;
      LoadStops(ReadPair, tail, MAX_ENTRIES - |items|);
    }
  }

  // ----------------------------------------------------------------- the store as a map

  /** The object as a map; distinct keys make the order of construction irrelevant. */
  function Meaning(items: seq<Item>): (m: map<string, int>)
    ensures forall k | k in m :: exists i :: 0 <= i < |items| && items[i].key == k
  {
    if items == [] then map[] else Meaning(items[1..])[items[0].key := Stored(items[0]).value]
  }

  predicate DistinctKeys(items: seq<Item>) {
    forall i, j | 0 <= i < j < |items| :: items[i].key != items[j].key
  }

  lemma {:induction false} GetIsLookup(items: seq<Item>, key: string)
    requires DistinctKeys(items) && forall i | 0 <= i < |items| :: |items[i].key| <= MAX_KEY
    ensures Get(StoredAll(items), key) == if key in Meaning(items) then Some(Meaning(items)[key]) else None
  {
    if items != [] {
      GetIsLookup(items[1..], key);
      assert StoredAll(items)[1..] == StoredAll(items[1..]);
    }
  }

  /** Load, then get: map lookup, for every printed flat object that fits. */
  lemma StoreIsMap(front: string, items: seq<Item>, rest: string, key: string)
    requires Without(front, '{') && forall i | 0 <= i < |items| :: PlainItem(items[i])
    requires |items| <= MAX_ENTRIES && DistinctKeys(items) && forall i | 0 <= i < |items| :: |items[i].key| <= MAX_KEY
    ensures var store := Load(PrintObject(front, items, rest));
      && store.ok
      && Get(store.entries, key) == if key in Meaning(items) then Some(Meaning(items)[key]) else None
  {
    ObjectLoaded(front, items, rest);
    GetIsLookup(items, key);
  }

  /** A longer key is cut when stored, so it is never found again. */
  lemma {:induction false} LongKeysAreLost(items: seq<Item>, key: string)
    requires |key| > MAX_KEY
    ensures Get(StoredAll(items), key) == None
  {
    if items != [] {
      LongKeysAreLost(items[1..], key);
      assert StoredAll(items)[1..] == StoredAll(items[1..]);
    }
  }
}
