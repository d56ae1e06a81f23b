/** C strings as NUL-free sequences of characters, and the library routines the parsers lean on. */
module Text {
  import opened Options

  const QUOTE: char := '\"'

  /** strstr: what follows the first occurrence of `pat`, if there is one. */
  function After(s: string, pat: string): Option<string> {
    if |s| < |pat| then None
    else if pat <= s then Some(s[|pat|..])
    else After(s[1..], pat)
  }

  predicate Without(s: string, c: char) {
    forall i | 0 <= i < |s| :: s[i] != c
  }

  function SkipSpaces(s: string): string {
    if s != "" && s[0] == ' ' then SkipSpaces(s[1..]) else s
  }

  /** The longest prefix without `c`, cut to `n` characters. */
  function TakeUntil(s: string, c: char, n: nat): string {
    if s == "" || s[0] == c || n == 0 then "" else [s[0]] + TakeUntil(s[1..], c, n - 1)
  }

  function Prefix(s: string, n: nat): string {
    if |s| <= n then s else s[..n]
  }

  function Drop(s: string, n: nat): (r: string)
    ensures |r| <= |s|
  {
    if n <= |s| then s[n..] else ""
  }

  lemma PrefixCons(a: string, n: nat)
    requires a != "" && n > 0
    ensures Prefix(a, n) == [a[0]] + Prefix(a[1..], n - 1)
  {
  }

  lemma ConsTail(a: string, rest: string)
    requires a != ""
    ensures (a + rest)[0] == a[0] && (a + rest)[1..] == a[1..] + rest
  {
  }

  /** Text whose first `c` is known is taken up to it. */
  lemma {:induction false} TakeUntilStops(a: string, rest: string, c: char, n: nat)
    requires Without(a, c) && (rest == "" || rest[0] == c)
    ensures TakeUntil(a + rest, c, n) == Prefix(a, n)
  {
    if a == "" {
      assert a + rest == rest;
    } else if n > 0 {
      TakeUntilStops(a[1..], rest, c, n - 1);
      PrefixCons(a, n);
      ConsTail(a, rest);
    }
  }

  /** A pattern cannot begin inside text that lacks its first character. */
  lemma {:induction false} AfterSkips(a: string, rest: string, pat: string)
    requires pat != "" && Without(a, pat[0])
    ensures After(a + rest, pat) == After(rest, pat)
  {
    if a == "" {
      assert a + rest == rest;
    } else {
      AfterSkips(a[1..], rest, pat);
      ConsTail(a, rest);
      if |a + rest| < |pat| {
        TooShort(rest, pat);
      }
    }
  }

  lemma TooShort(s: string, pat: string)
    requires |s| < |pat|
    ensures After(s, pat) == None
  {
  }

  /** The pieces of `s` between occurrences of `c`. */
  function Split(s: string, c: char): (r: seq<string>)
    ensures r != []
  {
    if s == "" then [""]
    else
      var r := Split(s[1..], c);
      if s[0] == c then [""] + r else [[s[0]] + r[0]] + r[1..]
  }

  /** The first piece is everything before the first `c`. */
  lemma {:induction false} FirstPiece(s: string, c: char)
    ensures var first := Split(s, c)[0];
      && Without(first, c) && first <= s
      && (|first| < |s| ==> s[|first|] == c)
      && (|Split(s, c)| == 1 <==> |first| == |s|)
  {
    if s != "" {
      FirstPiece(s[1..], c);
      var r := Split(s[1..], c);
      assert s == [s[0]] + s[1..];
    }
  }

  lemma {:induction false} SplitCons(a: string, c: char, rest: string)
    requires Without(a, c)
    ensures Split(a + ([c] + rest), c) == [a] + Split(rest, c)
  {
    if a == "" {
      assert a + ([c] + rest) == [c] + rest;
      assert ([c] + rest)[1..] == rest;
    } else {
      ConsTail(a, [c] + rest);
      SplitCons(a[1..], c, rest);
      assert a == [a[0]] + a[1..];
    }
  }

  lemma {:induction false} SplitNone(a: string, c: char)
    requires Without(a, c)
    ensures Split(a, c) == [a]
  {
    if a != "" {
      SplitNone(a[1..], c);
      assert a == [a[0]] + a[1..];
    }
  }

  /** strchr: from the first `c` on, empty if there is none. */
  function SkipTo(s: string, c: char): (r: string)
    ensures |r| <= |s|
  {
    if s == "" || s[0] == c then s else SkipTo(s[1..], c)
  }

  lemma {:induction false} SkipToFinds(a: string, c: char, rest: string)
    requires Without(a, c) && rest != "" && rest[0] == c
    ensures SkipTo(a + rest, c) == rest
  {
    if a == "" {
      assert a + rest == rest;
    } else {
      ConsTail(a, rest);
      SkipToFinds(a[1..], c, rest);
    }
  }

  lemma {:induction false} SkipToNone(s: string, c: char)
    requires Without(s, c)
    ensures SkipTo(s, c) == ""
  {
    if s != "" { SkipToNone(s[1..], c); }
  }

  predicate OccursAt(s: string, pat: string, i: int) {
    0 <= i <= |s| - |pat| && pat <= s[i..]
  }

  /** The place behind the first occurrence of the pattern. */
  predicate BehindFirst(s: string, pat: string, rest: string, i: int) {
    OccursAt(s, pat, i) && rest == s[i + |pat|..] && forall j | 0 <= j < i :: !OccursAt(s, pat, j)
  }

  lemma OccursLater(s: string, pat: string, i: int)
    requires s != "" && i > 0
    ensures OccursAt(s, pat, i) <==> OccursAt(s[1..], pat, i - 1)
  {
    if i <= |s| { assert s[i..] == s[1..][i - 1..]; }
  }

  /** The search finds the first occurrence, if there is one. */
  lemma {:induction false} AfterIsFirst(s: string, pat: string)
    ensures After(s, pat).None? ==> forall i :: !OccursAt(s, pat, i)
    ensures After(s, pat).Some? ==> exists i :: BehindFirst(s, pat, After(s, pat).value, i)
  {
    if |s| >= |pat| {
      assert s[0..] == s;
      if pat <= s {
        assert BehindFirst(s, pat, s[|pat|..], 0);
      } else {
        assert !OccursAt(s, pat, 0);
        AfterIsFirst(s[1..], pat);
        forall i | i > 0 ensures OccursAt(s, pat, i) <==> OccursAt(s[1..], pat, i - 1) { OccursLater(s, pat, i); }
        if After(s[1..], pat).Some? {
          var rest := After(s[1..], pat).value;
          var i :| BehindFirst(s[1..], pat, rest, i);
          assert s[i + 1 + |pat|..] == s[1..][i + |pat|..];
          assert BehindFirst(s, pat, rest, i + 1);
        }
      }
    }
  }

  // ----------------------------------------------------------------- decimal numbers

  predicate IsDigit(c: char) {
    '0' <= c <= '9'
  }

  function DigitChar(d: int): (c: char)
    requires 0 <= d < 10
    ensures IsDigit(c)
  {
    '0' + (d as char)
  }

  function DigitValue(c: char): (d: int)
    requires IsDigit(c)
    ensures 0 <= d < 10 && DigitChar(d) == c
  {
    (c - '0') as int
  }

  /** %u */
  function PrintNat(n: nat): (s: string)
    ensures s != "" && AllDigits(s)
  {
    if n < 10 then [DigitChar(n)] else PrintNat(n / 10) + [DigitChar(n % 10)]
  }

  predicate AllDigits(s: string) {
    forall i | 0 <= i < |s| :: IsDigit(s[i])
  }

  /** %d */
  function PrintInt(n: int): (s: string)
    ensures s != ""
  {
    if n < 0 then "-" + PrintNat(-n) else PrintNat(n)
  }

  /** The digits at the front of `s`, read into `acc`. */
  function ReadDigits(s: string, acc: nat): nat {
    if s != "" && IsDigit(s[0]) then ReadDigits(s[1..], 10 * acc + DigitValue(s[0])) else acc
  }

  predicate IsSpace(c: char) {
    c == ' ' || c == '\t' || c == '\n' || c == '\r' || c == 11 as char || c == 12 as char
  }

  /** atoi, atol: white space, a sign, digits; what follows is ignored. */
  function ReadInt(s: string): int {
    if s == "" then 0
    else if IsSpace(s[0]) then ReadInt(s[1..])
    else if s[0] == '-' then var d: int := ReadDigits(s[1..], 0); -d
    else if s[0] == '+' then ReadDigits(s[1..], 0)
    else ReadDigits(s, 0)
  }

  lemma {:induction false} ReadDigitsAppend(a: string, rest: string, acc: nat)
    requires AllDigits(a)
    ensures ReadDigits(a + rest, acc) == ReadDigits(rest, ReadDigits(a, acc))
  {
    if a == "" {
      assert a + rest == rest;
    } else {
      ConsTail(a, rest);
      ReadDigitsAppend(a[1..], rest, 10 * acc + DigitValue(a[0]));
    }
  }

  lemma {:induction false} ReadPrinted(n: nat)
    ensures ReadDigits(PrintNat(n), 0) == n
  {
    if n >= 10 {
      ReadPrinted(n / 10);
      ReadDigitsAppend(PrintNat(n / 10), [DigitChar(n % 10)], 0);
      assert ReadDigits([DigitChar(n % 10)], n / 10) == ReadDigits("", 10 * (n / 10) + n % 10);
    } else {
      assert ReadDigits([DigitChar(n)], 0) == ReadDigits([DigitChar(n)][1..], n);
    }
  }

  lemma DigitsRead(digits: string, rest: string)
    requires digits != "" && AllDigits(digits) && (rest == "" || !IsDigit(rest[0]))
    ensures ReadInt(digits + rest) == ReadDigits(digits, 0)
    ensures ReadInt(['-'] + (digits + rest)) == 0 - ReadDigits(digits, 0)
  {
    var s := digits + rest;
    ReadDigitsAppend(digits, rest, 0);
    assert s[0] == digits[0];
    assert (['-'] + s)[0] == '-' && (['-'] + s)[1..] == s;
  }

  /** A printed number reads back, whatever non-digit follows it. */
  lemma IntRoundTrip(n: int, rest: string)
    requires rest == "" || !IsDigit(rest[0])
    ensures ReadInt(PrintInt(n) + rest) == n
  {
    var digits := PrintNat(if n < 0 then -n else n);
    ReadPrinted(if n < 0 then -n else n);
    DigitsRead(digits, rest);
    if n < 0 { MinusFirst(digits, rest); }
  }

  lemma MinusFirst(digits: string, rest: string)
    ensures "-" + digits + rest == ['-'] + (digits + rest)
  {
  }

  /** Printed numbers contain nothing but digits and a sign. */
  lemma PrintedIsPlain(n: int)
    ensures forall i | 0 <= i < |PrintInt(n)| :: IsDigit(PrintInt(n)[i]) || PrintInt(n)[i] == '-'
  {
  }

  /** ... nor what spaces precede it. */
  lemma SpacedRoundTrip(n: int, rest: string)
    requires rest != "" && !IsDigit(rest[0])
    ensures ReadInt(SkipSpaces([' '] + (PrintInt(n) + rest))) == n
  {
    PrintedIsPlain(n);
    var text := PrintInt(n) + rest;
    assert text[0] == PrintInt(n)[0];
    assert ([' '] + text)[1..] == text;
    IntRoundTrip(n, rest);
  }

  // ----------------------------------------------------------------- machine integers

  const LONG_LIMIT: int := 0x8000_0000_0000_0000
  const SIZE_LIMIT: int := 0x1_0000_0000_0000_0000
  const INT_LIMIT: int := 0x8000_0000

  /** (size_t)atol with a 64-bit long. */
  predicate Blank(gap: string) {
    forall i | 0 <= i < |gap| :: IsSpace(gap[i])
  }

  lemma {:induction false} SpacesPassed(gap: string, rest: string)
    requires Blank(gap)
    ensures ReadInt(gap + rest) == ReadInt(rest)
  {
    if gap == "" {
      assert gap + rest == rest;
    } else {
      ConsTail(gap, rest);
      SpacesPassed(gap[1..], rest);
    }
  }

  /** White space and a plus sign in front of a number are passed over. */
  lemma SignedRead(gap: string, n: nat, rest: string)
    requires Blank(gap) && (rest == "" || !IsDigit(rest[0]))
    ensures ReadInt(gap + (PrintInt(n) + rest)) == n && ReadInt(gap + (['+'] + (PrintNat(n) + rest))) == n
  {
    SpacesPassed(gap, PrintInt(n) + rest);
    SpacesPassed(gap, ['+'] + (PrintNat(n) + rest));
    ReadPrinted(n);
    DigitsRead(PrintNat(n), rest);
    assert (['+'] + (PrintNat(n) + rest))[1..] == PrintNat(n) + rest;
  }

  function Atol(s: string): (r: nat) {
    var v := ReadInt(s);
    var long := if v >= LONG_LIMIT then LONG_LIMIT - 1 else if v < -LONG_LIMIT then -LONG_LIMIT else v;
    long % SIZE_LIMIT
  }

  /** atoi: the low 32 bits of strtol, as a signed number. */
  function Atoi(s: string): int {
    var v := Atol(s) % (2 * INT_LIMIT);
    if v < INT_LIMIT then v else v - 2 * INT_LIMIT
  }

  lemma AtolOf(s: string, n: int)
    requires ReadInt(s) == n && -LONG_LIMIT <= n < LONG_LIMIT
    ensures Atol(s) == n % SIZE_LIMIT && (n >= 0 ==> Atol(s) == n)
  {
  }

  lemma LowBits(status: int)
    requires -INT_LIMIT <= status < INT_LIMIT
    ensures var v := status % SIZE_LIMIT % (2 * INT_LIMIT); status == if v < INT_LIMIT then v else v - 2 * INT_LIMIT
  {
  }

  lemma AtoiOf(s: string, n: int)
    requires ReadInt(s) == n && -INT_LIMIT <= n < INT_LIMIT
    ensures Atoi(s) == n
  {
    AtolOf(s, n);
    LowBits(n);
  }

  function Pow10(k: nat): nat {
    if k == 0 then 1 else 10 * Pow10(k - 1)
  }

  lemma {:induction false} ShortNat(n: nat, k: nat)
    requires k >= 1 && n < Pow10(k)
    ensures |PrintNat(n)| <= k
  {
    if n >= 10 { ShortNat(n / 10, k - 1); }
  }

  lemma ShortInt(n: int)
    requires -INT_LIMIT <= n < INT_LIMIT
    ensures |PrintInt(n)| <= 11
  {
    assert Pow10(10) == 10_000_000_000;
    ShortNat(if n < 0 then -n else n, 10);
  }
}
