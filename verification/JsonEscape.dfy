/** What JSON says an escaped string means (section 7 of RFC 8259), and that json.dumps escapes every text so that it
    means that text. */
module JsonEscape {
  import opened Options
  import opened Text
  import opened HeaderJson
  import opened Case2

  function HexValue(c: char): Option<nat> {
    if '0' <= c <= '9' then Some((c as int) - ('0' as int))
    else if 'a' <= c <= 'f' then Some((c as int) - ('a' as int) + 10)
    else if 'A' <= c <= 'F' then Some((c as int) - ('A' as int) + 10)
    else None
  }

  /** The code unit of \uXXXX at the start of the text. */
  function CodeUnit(s: string): (r: Option<nat>)
    ensures r.Some? ==> |s| >= 6 && r.value < 0x1_0000
  {
    if |s| < 6 || s[0] != BACKSLASH || s[1] != 'u' then None
    else
      var a, b, c, d := HexValue(s[2]), HexValue(s[3]), HexValue(s[4]), HexValue(s[5]);
      if a.None? || b.None? || c.None? || d.None? then None
      else Some(4096 * a.value + 256 * b.value + 16 * c.value + d.value)
  }

  datatype Meant = Meant(c: char, rest: string)

  /** The character that an escape stands for; a surrogate alone stands for none. */
  function ReadUnicode(s: string): (r: Option<Meant>)
    ensures r.Some? ==> |r.value.rest| < |s|
  {
    var n := CodeUnit(s);
    if n.None? then None
    else if n.value < 0xD800 || n.value >= 0xE000 then Some(Meant(n.value as char, s[6..]))
    else
      var m := CodeUnit(s[6..]);
      if n.value >= 0xDC00 || m.None? || m.value < 0xDC00 || m.value >= 0xE000 then None
      else Some(Meant((0x1_0000 + 1024 * (n.value - 0xD800) + (m.value - 0xDC00)) as char, s[12..]))
  }

  function ReadChar(s: string): (r: Option<Meant>)
    ensures r.Some? ==> |r.value.rest| < |s|
  {
    if s == "" || s[0] == QUOTE || s[0] < ' ' then None
    else if s[0] != BACKSLASH then Some(Meant(s[0], s[1..]))
    else if |s| == 1 then None
    else
      match s[1]
      case '\"' => Some(Meant(QUOTE, s[2..]))
      case '\\' => Some(Meant(BACKSLASH, s[2..]))
      case '/' => Some(Meant('/', s[2..]))
      case 'b' => Some(Meant(8 as char, s[2..]))
      case 'f' => Some(Meant(12 as char, s[2..]))
      case 'n' => Some(Meant('\n', s[2..]))
      case 'r' => Some(Meant('\r', s[2..]))
      case 't' => Some(Meant('\t', s[2..]))
      case 'u' => ReadUnicode(s)
      case _ => None
  }

  /** The text that an escaped string means. */
  function Unescaped(s: string): Option<string>
    decreases |s|
  {
    if s == "" then Some("")
    else
      var one := ReadChar(s);
      if one.None? then None
      else
        var more := Unescaped(one.value.rest);
        if more.None? then None else Some([one.value.c] + more.value)
  }

  // ----------------------------------------------------------------- what json.dumps prints

  lemma DigitMeans(d: nat)
    requires d < 16
    ensures HexValue(HexDigit(d)) == Some(d)
  {
  }

  lemma UnitMeans(n: nat, rest: string)
    requires n < 0x1_0000
    ensures CodeUnit(UnicodeEscape(n) + rest) == Some(n) && (UnicodeEscape(n) + rest)[6..] == rest
  {
    var s := UnicodeEscape(n) + rest;
    assert s[..6] == UnicodeEscape(n);
    assert s[2] == HexDigit(n / 4096) && s[3] == HexDigit(n / 256 % 16);
    assert s[4] == HexDigit(n / 16 % 16) && s[5] == HexDigit(n % 16);
    DigitMeans(n / 4096);
    DigitMeans(n / 256 % 16);
    DigitMeans(n / 16 % 16);
    DigitMeans(n % 16);
    Digits(n);
  }

  lemma Quotients(n: nat)
    ensures n / 256 == n / 16 / 16 && n / 4096 == n / 256 / 16
  {
  }

  lemma Digits(n: nat)
    requires n < 0x1_0000
    ensures 4096 * (n / 4096) + 256 * (n / 256 % 16) + 16 * (n / 16 % 16) + n % 16 == n
  {
    Quotients(n);
    var a := n / 16;
    var b := a / 16;
    assert n == 16 * a + n % 16 && a == 16 * b + a % 16 && b == 16 * (b / 16) + b % 16;
  }

  lemma Halves(n: nat)
    requires n < 0x10_0000
    ensures n / 1024 % 1024 == n / 1024 && n == 1024 * (n / 1024) + n % 1024 && n / 1024 < 1024
  {
  }

  lemma PairOfUnits(s: string, high: nat, low: nat, rest: string, c: char)
    requires CodeUnit(s) == Some(high) && CodeUnit(s[6..]) == Some(low) && s[6..][6..] == rest
    requires 0xD800 <= high < 0xDC00 && 0xDC00 <= low < 0xE000
    requires c as int == 0x1_0000 + 1024 * (high - 0xD800) + (low - 0xDC00)
    ensures ReadUnicode(s) == Some(Meant(c, rest))
  {
    assert s[12..] == s[6..][6..];
  }

  lemma PairRead(c: char, h: nat, l: nat, rest: string)
    requires h < 1024 && l < 1024 && c as int == 0x1_0000 + 1024 * h + l
    ensures ReadUnicode(UnicodeEscape(0xD800 + h) + (UnicodeEscape(0xDC00 + l) + rest)) == Some(Meant(c, rest))
  {
    var high, low := 0xD800 + h, 0xDC00 + l;
    UnitMeans(high, UnicodeEscape(low) + rest);
    UnitMeans(low, rest);
    PairOfUnits(UnicodeEscape(high) + (UnicodeEscape(low) + rest), high, low, rest, c);
  }

  /** The two halves of a character that needs them. */
  lemma PairText(c: char, rest: string) returns (h: nat, l: nat)
    requires c as int >= 0x1_0000
    ensures h < 1024 && l < 1024 && c as int == 0x1_0000 + 1024 * h + l
    ensures EscapeOdd(c) + rest == UnicodeEscape(0xD800 + h) + (UnicodeEscape(0xDC00 + l) + rest)
  {
    var n := c as int - 0x1_0000;
    Halves(n);
    h, l := n / 1024, n % 1024;
  }

  lemma PairMeans(c: char, rest: string)
    requires c as int >= 0x1_0000
    ensures ReadUnicode(EscapeOdd(c) + rest) == Some(Meant(c, rest))
  {
    var h, l := PairText(c, rest);
    PairRead(c, h, l, rest);
  }

  predicate Short(c: char) {
    c == BACKSLASH || c == '\n' || c == '\r' || c == '\t' || c == 8 as char || c == 12 as char
  }

  lemma ShortMeans(c: char, rest: string)
    requires Short(c)
    ensures ReadChar(EscapeOdd(c) + rest) == Some(Meant(c, rest))
  {
    assert (EscapeOdd(c) + rest)[2..] == rest;
  }

  lemma UnitIsRead(c: char, rest: string)
    requires c as int < 0x1_0000
    ensures ReadUnicode(UnicodeEscape(c as int) + rest) == Some(Meant(c, rest))
  {
    UnitMeans(c as int, rest);
  }

  lemma LongMeans(c: char, rest: string)
    requires !Ordinary(c) && c != QUOTE && !Short(c)
    ensures ReadChar(EscapeOdd(c) + rest) == Some(Meant(c, rest))
  {
    var s := EscapeOdd(c) + rest;
    if c as int >= 0x1_0000 { PairMeans(c, rest); } else { UnitIsRead(c, rest); }
    assert s[0] == BACKSLASH && s[1] == 'u';
  }

  lemma OddMeans(c: char, rest: string)
    requires !Ordinary(c) && c != QUOTE
    ensures ReadChar(EscapeOdd(c) + rest) == Some(Meant(c, rest))
  {
    if Short(c) { ShortMeans(c, rest); } else { LongMeans(c, rest); }
  }

  lemma CharMeans(c: char, rest: string)
    ensures ReadChar(EscapeChar(c) + rest) == Some(Meant(c, rest))
  {
    if Ordinary(c) {
      assert ([c] + rest)[1..] == rest;
    } else if c == QUOTE {
      assert ([BACKSLASH, QUOTE] + rest)[2..] == rest;
    } else {
      OddMeans(c, rest);
    }
  }

  /** Every text, escaped, means itself. */
  lemma {:induction false} EscapeMeans(s: string)
    ensures Unescaped(Escape(s)) == Some(s)
    decreases |s|
  {
    if s != "" {
      CharMeans(s[0], Escape(s[1..]));
      EscapeMeans(s[1..]);
      assert s == [s[0]] + s[1..];
    }
  }
}
