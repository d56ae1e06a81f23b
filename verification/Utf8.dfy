/** UTF-8 as Python decodes it with errors='ignore' (well-formed sequences: section 4 of RFC 3629). */
module Utf8 {
  import opened Descriptor

  // ----------------------------------------------------------------- the encoding

  /** The characters that have an encoding. */
  type Scalar = c: int | 0 <= c <= 0x10FFFF && !(0xD800 <= c < 0xE000)

  function EncodeOne(c: Scalar): (b: Bytes)
    ensures 1 <= |b| <= 4
  {
    if c < 0x80 then [c]
    else if c < 0x800 then [0xC0 + c / 0x40, 0x80 + c % 0x40]
    else if c < 0x1_0000 then [0xE0 + c / 0x1000, 0x80 + c / 0x40 % 0x40, 0x80 + c % 0x40]
    else [0xF0 + c / 0x4_0000, 0x80 + c / 0x1000 % 0x40, 0x80 + c / 0x40 % 0x40, 0x80 + c % 0x40]
  }

  function Encode(cs: seq<Scalar>): Bytes {
    if cs == [] then [] else EncodeOne(cs[0]) + Encode(cs[1..])
  }

  /** The bytes are the encoding of some text. */
  ghost predicate IsUtf8(b: Bytes) {
    exists cs: seq<Scalar> :: b == Encode(cs)
  }

  /** No character's encoding stands at the front. */
  ghost predicate StartsNothing(b: Bytes) {
    forall c: Scalar :: !(EncodeOne(c) <= b)
  }

  // ----------------------------------------------------------------- the decoder

  predicate Tail(b: Bytes, from: nat, n: nat) {
    from + n <= |b| && forall i | from <= i < from + n :: 0x80 <= b[i] < 0xC0
  }

  /** The length of the well-formed sequence at the front, 0 if there is none. */
  function Front(b: Bytes): (n: nat)
    ensures n <= |b|
  {
    if b == [] then 0
    else if b[0] < 0x80 then 1
    else if 0xC2 <= b[0] < 0xE0 && Tail(b, 1, 1) then 2
    else if 0xE0 <= b[0] < 0xF0 && Tail(b, 1,
      2) && (b[0] == 0xE0 ==> b[1] >= 0xA0) && (b[0] == 0xED ==> b[1] < 0xA0) then 3
    else if 0xF0 <= b[0] < 0xF5 && Tail(b, 1,
      3) && (b[0] == 0xF0 ==> b[1] >= 0x90) && (b[0] == 0xF4 ==> b[1] < 0x90) then 4
    else 0
  }

  predicate ValidUtf8(b: Bytes) {
    b == [] || (Front(b) > 0 && ValidUtf8(b[Front(b)..]))
  }

  /** Decoded and encoded again: the well-formed sequences, everything else dropped. A dropped sequence is its
      first byte and tail bytes, and a tail byte alone is dropped as well, so dropping byte by byte is enough. */
  function DropInvalid(b: Bytes): (r: Bytes)
    ensures |r| <= |b|
  {
    if b == [] then []
    else if Front(b) == 0 then DropInvalid(b[1..])
    else b[..Front(b)] + DropInvalid(b[Front(b)..])
  }

  /** Decoding loses nothing exactly when the bytes are valid. */
  lemma {:induction false} DropsNothingIff(b: Bytes)
    ensures DropInvalid(b) == b <==> ValidUtf8(b)
    ensures !ValidUtf8(b) ==> |DropInvalid(b)| < |b|
  {
    if b != [] {
      var n := Front(b);
      if n > 0 {
        DropsNothingIff(b[n..]);
        Prefixed(b, n, DropInvalid(b[n..]));
      } else {
        assert |DropInvalid(b[1..])| <= |b[1..]|;
      }
    }
  }

  lemma Prefixed(b: Bytes, n: nat, rest: Bytes)
    requires n <= |b|
    ensures b[..n] + rest == b <==> rest == b[n..]
  {
    assert b == b[..n] + b[n..];
    if b[..n] + rest == b { assert rest == (b[..n] + rest)[n..]; }
  }

  /** What is left is valid. */
  lemma {:induction false} DroppedIsValid(b: Bytes)
    ensures ValidUtf8(DropInvalid(b))
  {
    if b != [] {
      var n := Front(b);
      if n == 0 {
        DroppedIsValid(b[1..]);
      } else {
        DroppedIsValid(b[n..]);
        FrontKept(b, n, DropInvalid(b[n..]));
      }
    }
  }

  lemma FrontKept(b: Bytes, n: nat, rest: Bytes)
    requires n == Front(b) > 0
    ensures Front(b[..n] + rest) == n && (b[..n] + rest)[n..] == rest
  {
    var c := b[..n] + rest;
    assert forall i | 0 <= i < n :: c[i] == b[i];
  }

  /** The smallest body that decoding changes. */
  lemma LoneByteIsDropped()
    ensures !ValidUtf8([0xFF]) && DropInvalid([0xFF]) == []
  {
    assert Front([0xFF]) == 0;
  }

  /** A NUL, as an empty body is sent, is valid. */
  lemma NulIsKept()
    ensures ValidUtf8([0]) && DropInvalid([0]) == [0]
  {
    assert Front([0]) == 1 && [0][..1] == [0] && [0][1..] == [];
  }

  // ----------------------------------------------------------------- the decoder against the encoding

  lemma FrontOfEncoded(c: Scalar, b: Bytes)
    ensures Front(EncodeOne(c) + b) == |EncodeOne(c)|
  {
    var e := EncodeOne(c);
    assert forall i | 0 <= i < |e| :: (e + b)[i] == e[i];
  }

  lemma TwoDigits(a: nat, x: nat)
    requires x < 0x40
    ensures (a * 0x40 + x) / 0x40 == a && (a * 0x40 + x) % 0x40 == x
  {
  }

  lemma ThreeDigits(a: nat, x: nat, y: nat)
    requires x < 0x40 && y < 0x40
    ensures var c := a * 0x1000 + x * 0x40 + y; c / 0x1000 == a && c / 0x40 % 0x40 == x && c % 0x40 == y
  {
    TwoDigits(a * 0x40 + x, y);
    TwoDigits(a, x);
  }

  lemma FourDigits(a: nat, x: nat, y: nat, z: nat)
    requires x < 0x40 && y < 0x40 && z < 0x40
    ensures var c := a * 0x4_0000 + x * 0x1000 + y * 0x40 + z;
      c / 0x4_0000 == a && c / 0x1000 % 0x40 == x && c / 0x40 % 0x40 == y && c % 0x40 == z
  {
    ThreeDigits(a * 0x40 + x, y, z);
    TwoDigits(a, x);
  }

  lemma TwoIsEncoded(b: Bytes) returns (c: Scalar)
    requires Front(b) == 2
    ensures EncodeOne(c) == b[..2]
  {
    var x: int, y: int := b[0], b[1];
    TwoDigits(x - 0xC0, y - 0x80);
    c := (x - 0xC0) * 0x40 + (y - 0x80);
  }

  lemma ThreeIsEncoded(b: Bytes) returns (c: Scalar)
    requires Front(b) == 3
    ensures EncodeOne(c) == b[..3]
  {
    var x: int, y: int, z: int := b[0], b[1], b[2];
    ThreeDigits(x - 0xE0, y - 0x80, z - 0x80);
    c := (x - 0xE0) * 0x1000 + (y - 0x80) * 0x40 + (z - 0x80);
  }

  lemma FourIsEncoded(b: Bytes) returns (c: Scalar)
    requires Front(b) == 4
    ensures EncodeOne(c) == b[..4]
  {
    var w: int, x: int, y: int, z: int := b[0], b[1], b[2], b[3];
    FourDigits(w - 0xF0, x - 0x80, y - 0x80, z - 0x80);
    c := (w - 0xF0) * 0x4_0000 + (x - 0x80) * 0x1000 + (y - 0x80) * 0x40 + (z - 0x80);
  }

  lemma FrontIsEncoded(b: Bytes) returns (c: Scalar)
    requires Front(b) > 0
    ensures EncodeOne(c) == b[..Front(b)]
  {
    if Front(b) == 1 { c := b[0]; }
    else if Front(b) == 2 { c := TwoIsEncoded(b); }
    else if Front(b) == 3 { c := ThreeIsEncoded(b); }
    else { c := FourIsEncoded(b); }
  }

  lemma EncodedHasFront(c: Scalar, b: Bytes)
    requires EncodeOne(c) <= b
    ensures Front(b) == |EncodeOne(c)|
  {
    FrontOfEncoded(c, b[|EncodeOne(c)|..]);
    assert EncodeOne(c) + b[|EncodeOne(c)|..] == b;
  }

  /** What stands at the front is an encoded character if there is one. */
  lemma FrontIff(b: Bytes)
    ensures Front(b) == 0 <==> StartsNothing(b)
  {
    if Front(b) > 0 {
      var c := FrontIsEncoded(b);
      assert EncodeOne(c) <= b;
    } else if c: Scalar :| EncodeOne(c) <= b {
      EncodedHasFront(c, b);
    }
  }

  lemma OneKept(c: Scalar, b: Bytes)
    ensures DropInvalid(EncodeOne(c) + b) == EncodeOne(c) + DropInvalid(b)
    ensures ValidUtf8(EncodeOne(c) + b) <==> ValidUtf8(b)
  {
    var e := EncodeOne(c);
    FrontOfEncoded(c, b);
    assert (e + b)[..|e|] == e && (e + b)[|e|..] == b;
  }

  lemma Regroup(a: Bytes, b: Bytes, c: Bytes)
    ensures (a + b) + c == a + (b + c)
  {
  }

  /** Encoded text is kept, whatever follows it, and what follows is decoded as if it stood alone. */
  lemma {:induction false} EncodedIsKept(cs: seq<Scalar>, b: Bytes)
    ensures DropInvalid(Encode(cs) + b) == Encode(cs) + DropInvalid(b)
    ensures ValidUtf8(Encode(cs) + b) <==> ValidUtf8(b)
  {
    if cs == [] {
      assert Encode(cs) + b == b && Encode(cs) + DropInvalid(b) == DropInvalid(b);
    } else {
      var one, rest := EncodeOne(cs[0]), Encode(cs[1..]);
      EncodedIsKept(cs[1..], b);
      OneKept(cs[0], rest + b);
      Regroup(one, rest, b);
      Regroup(one, rest, DropInvalid(b));
    }
  }

  /** Where no encoded character begins, one byte is dropped. */
  lemma OthersAreDropped(b: Bytes)
    requires b != [] && StartsNothing(b)
    ensures DropInvalid(b) == DropInvalid(b[1..])
  {
    FrontIff(b);
  }

  /** The valid byte strings are exactly the encodings. */
  lemma {:induction false} ValidIffEncoded(b: Bytes)
    ensures ValidUtf8(b) <==> IsUtf8(b)
  {
    if cs: seq<Scalar> :| b == Encode(cs) {
      EncodedIsKept(cs, []);
      assert Encode(cs) + [] == b;
    } else if ValidUtf8(b) {
      var cs := Decoded(b);
    }
  }

  lemma {:induction false} Decoded(b: Bytes) returns (cs: seq<Scalar>)
    requires ValidUtf8(b)
    ensures b == Encode(cs)
  {
    if b == [] {
      cs := [];
    } else {
      var c := FrontIsEncoded(b);
      var rest := Decoded(b[Front(b)..]);
      cs := [c] + rest;
      assert cs[1..] == rest && b == b[..Front(b)] + b[Front(b)..];
    }
  }

  /** A byte that begins no character is dropped from between two texts, and nothing else. */
  lemma StrayByteIsDropped(cs: seq<Scalar>, x: Byte, ds: seq<Scalar>)
    requires forall c: Scalar :: EncodeOne(c)[0] != x
    ensures DropInvalid(Encode(cs) + ([x] + Encode(ds))) == Encode(cs) + Encode(ds)
  {
    var b := [x] + Encode(ds);
    EncodedIsKept(cs, b);
    assert StartsNothing(b) by {
      forall c: Scalar ensures !(EncodeOne(c) <= b) { assert b[0] == x != EncodeOne(c)[0]; }
    }
    OthersAreDropped(b);
    assert b[1..] == Encode(ds) == Encode(ds) + [];
    EncodedIsKept(ds, []);
  }
}
