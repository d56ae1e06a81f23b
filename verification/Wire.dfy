/** The byte layout of a descriptor, as Python's struct format lays it out and as the C struct does. */
module Wire {
  import opened Descriptor

  /** The four field kinds of the format: i, I, b and B. */
  datatype Kind = Int32 | Uint32 | Int8 | Uint8 {
    function Size(): nat {
      if Int32? || Uint32? then 4 else 1
    }

    function Span(): nat {
      if Int32? || Uint32? then 0x1_0000_0000 else 256
    }

    predicate Holds(v: int) {
      if Int32? || Int8? then -(Span() / 2) <= v < Span() / 2 else 0 <= v < Span()
    }

    /** The value an unsigned word stands for. */
    function Interpret(u: nat): int {
      if (Int32? || Int8?) && u >= Span() / 2 then u - Span() else u
    }
  }

  /** '<iIiIIIiibbBBiiii12x' without the padding. */
  const FORMAT: seq<Kind> := [
    Int32, Uint32, Int32, Uint32, Uint32, Uint32, Int32, Int32,
    Int8, Int8, Uint8, Uint8,
    Int32, Int32, Int32, Int32]

  const PADDING: nat := 12
  const DESCRIPTOR_SIZE: nat := 64

  function ToFields(x: SwDescriptor): (r: seq<int>)
    ensures |r| == |FORMAT|
  {
    [x.headerBufSlot, x.headerLen, x.bodyBufSlot, x.bodyLen, x.reqId, x.stepId, x.dstPodId, x.srcPodId,
     x.flags, x.valid, x.srcBodyPoolType, x.srcHeaderPoolType,
     x.srcBodyPodId, x.srcHeaderPodId, x.srcBodyBufSlot, x.srcHeaderBufSlot]
  }

  function FromFields(v: seq<int>): SwDescriptor
    requires |v| == |FORMAT|
  {
    SwDescriptor(v[0], v[1], v[2], v[3], v[4], v[5], v[6], v[7], v[8], v[9], v[10], v[11], v[12], v[13], v[14], v[15])
  }

  /** Every field fits its kind: `struct.pack` does not raise and C does not truncate. */
  predicate Packable(x: SwDescriptor) {
    AllHold(FORMAT, ToFields(x))
  }

  predicate AllHold(kinds: seq<Kind>, values: seq<int>) {
    |kinds| == |values| && forall i | 0 <= i < |kinds| :: kinds[i].Holds(values[i])
  }

  // ----------------------------------------------------------------- one field

  /** The `n` low bytes of `u`, least significant first. */
  function EncodeWord(n: nat, u: nat): (r: Bytes)
    ensures |r| == n
  {
    if n == 0 then [] else [u % 256] + EncodeWord(n - 1, u / 256)
  }

  function DecodeWord(b: Bytes): nat {
    if b == [] then 0 else b[0] + 256 * DecodeWord(b[1..])
  }

  function Power256(n: nat): nat {
    if n == 0 then 1 else 256 * Power256(n - 1)
  }

  lemma {:induction false} WordRoundTrip(n: nat, u: nat)
    requires u < Power256(n)
    ensures DecodeWord(EncodeWord(n, u)) == u
  {
    if n > 0 {
      WordRoundTrip(n - 1, u / 256);
      assert EncodeWord(n, u)[1..] == EncodeWord(n - 1, u / 256);
    }
  }

  lemma {:induction false} WordBytesRoundTrip(b: Bytes)
    ensures DecodeWord(b) < Power256(|b|) && EncodeWord(|b|, DecodeWord(b)) == b
  {
    if b != [] {
      WordBytesRoundTrip(b[1..]);
      assert DecodeWord(b) % 256 == b[0] && DecodeWord(b) / 256 == DecodeWord(b[1..]);
      assert [b[0]] + b[1..] == b;
    }
  }

  /** Little-endian, two's complement; a value outside the kind is cut to its low bytes. */
  function EncodeField(k: Kind, v: int): (r: Bytes)
    ensures |r| == k.Size()
  {
    EncodeWord(k.Size(), v % k.Span())
  }

  function DecodeField(k: Kind, b: Bytes): int
    requires |b| == k.Size()
  {
    k.Interpret(DecodeWord(b))
  }

  lemma SpanIsPower(k: Kind)
    ensures k.Span() == Power256(k.Size())
  {
    assert Power256(1) == 256 && Power256(2) == 65536 && Power256(3) == 16777216;
  }

  lemma FieldRoundTrip(k: Kind, v: int)
    requires k.Holds(v)
    ensures DecodeField(k, EncodeField(k, v)) == v
  {
    SpanIsPower(k);
    WordRoundTrip(k.Size(), v % k.Span());
  }

  /** Whatever the bytes, they decode to a value of the kind. */
  lemma DecodedHolds(k: Kind, b: Bytes)
    requires |b| == k.Size()
    ensures k.Holds(DecodeField(k, b))
  {
    SpanIsPower(k);
    WordBytesRoundTrip(b);
  }

  // ----------------------------------------------------------------- Python: field after field

  function PackFields(kinds: seq<Kind>, values: seq<int>): (r: Bytes)
    requires |kinds| == |values|
    ensures |r| == Width(kinds)
  {
    if kinds == [] then [] else EncodeField(kinds[0], values[0]) + PackFields(kinds[1..], values[1..])
  }

  function UnpackFields(kinds: seq<Kind>, b: Bytes): (r: seq<int>)
    requires |b| >= Width(kinds)
    ensures |r| == |kinds|
  {
    if kinds == [] then []
    else [DecodeField(kinds[0], b[..kinds[0].Size()])] + UnpackFields(kinds[1..], b[kinds[0].Size()..])
  }

  function Width(kinds: seq<Kind>): nat {
    if kinds == [] then 0 else kinds[0].Size() + Width(kinds[1..])
  }

  lemma {:induction false} WidthAt(kinds: seq<Kind>, i: nat)
    requires i <= |kinds|
    ensures Width(kinds) == Width(kinds[..i]) + Width(kinds[i..])
  {
    if i > 0 {
      WidthAt(kinds[1..], i - 1);
      assert kinds[1..][..i - 1] == kinds[..i][1..];
      assert kinds[1..][i - 1..] == kinds[i..];
    } else {
      assert kinds[0..] == kinds;
    }
  }

  lemma UnpackCons(kinds: seq<Kind>, first: Bytes, rest: Bytes)
    requires kinds != [] && |first| == kinds[0].Size() && |rest| >= Width(kinds[1..])
    ensures UnpackFields(kinds, first + rest) == [DecodeField(kinds[0], first)] + UnpackFields(kinds[1..], rest)
  {
    assert (first + rest)[..kinds[0].Size()] == first;
    assert (first + rest)[kinds[0].Size()..] == rest;
  }

  lemma {:induction false} FieldsRoundTrip(kinds: seq<Kind>, values: seq<int>, rest: Bytes)
    requires AllHold(kinds, values)
    ensures UnpackFields(kinds, PackFields(kinds, values) + rest) == values
  {
    if kinds != [] {
      var first, tail := EncodeField(kinds[0], values[0]), PackFields(kinds[1..], values[1..]) + rest;
      assert PackFields(kinds, values) + rest == first + tail;
      UnpackCons(kinds, first, tail);
      FieldRoundTrip(kinds[0], values[0]);
      FieldsRoundTrip(kinds[1..], values[1..], rest);
    }
  }

  /** SwDescriptor.pack */
  function Pack(x: SwDescriptor): (r: Bytes)
    ensures |r| == DESCRIPTOR_SIZE
  {
    FormatWidth();
    PackFields(FORMAT, ToFields(x)) + Zeros(PADDING)
  }

  /** SwDescriptor.unpack */
  function Unpack(b: Bytes): SwDescriptor
    requires |b| == DESCRIPTOR_SIZE
  {
    FormatWidth();
    FromFields(UnpackFields(FORMAT, b))
  }

  lemma FieldsBijection(x: SwDescriptor, v: seq<int>)
    requires |v| == |FORMAT|
    ensures FromFields(ToFields(x)) == x
    ensures ToFields(FromFields(v)) == v
  {
  }

  lemma PackableSurvives(x: SwDescriptor)
    requires Packable(x)
    ensures Unpack(Pack(x)) == x
  {
    FieldsBijection(x, ToFields(x));
    FieldsRoundTrip(FORMAT, ToFields(x), Zeros(PADDING));
  }

  lemma UnpackedIsPackable(b: Bytes)
    requires |b| == DESCRIPTOR_SIZE
    ensures Packable(Unpack(b))
  {
    FormatWidth();
    UnpackedHolds(FORMAT, b);
    FieldsBijection(Unpack(b), UnpackFields(FORMAT, b));
  }

  /** A descriptor survives the wire exactly when each field fits its kind. */
  lemma PackRoundTrip(x: SwDescriptor)
    ensures Packable(x) <==> Unpack(Pack(x)) == x
  {
    if Packable(x) { PackableSurvives(x); }
    UnpackedIsPackable(Pack(x));
  }

  lemma {:induction false} UnpackedHolds(kinds: seq<Kind>, b: Bytes)
    requires |b| >= Width(kinds)
    ensures AllHold(kinds, UnpackFields(kinds, b))
  {
    if kinds != [] {
      DecodedHolds(kinds[0], b[..kinds[0].Size()]);
      UnpackedHolds(kinds[1..], b[kinds[0].Size()..]);
    }
  }

  // ----------------------------------------------------------------- C: a packed struct

  /** The offsets of the packed struct's members, the padding last. */
  const OFFSETS: seq<nat> := [0, 4, 8, 12, 16, 20, 24, 28, 32, 33, 34, 35, 36, 40, 44, 48, 52]

  /** Reading member `i` of a struct that was copied byte for byte. */
  function Member(b: Bytes, i: nat): int
    requires |b| == DESCRIPTOR_SIZE && i < |FORMAT|
  {
    DecodeField(FORMAT[i], b[OFFSETS[i]..OFFSETS[i] + FORMAT[i].Size()])
  }

  lemma SliceOfSlice(b: Bytes, n: nat, i: nat, j: nat)
    requires i <= j && n + j <= |b|
    ensures b[n..][i..j] == b[n + i..n + j]
  {
  }

  lemma {:induction false} UnpackedAt(kinds: seq<Kind>, b: Bytes, i: nat)
    requires |b| >= Width(kinds) && i < |kinds|
    ensures Width(kinds[..i]) + kinds[i].Size() <= Width(kinds)
    ensures UnpackFields(kinds, b)[i] == DecodeField(kinds[i],
      b[Width(kinds[..i])..Width(kinds[..i]) + kinds[i].Size()])
  {
    var n := kinds[0].Size();
    if i > 0 {
      UnpackedAt(kinds[1..], b[n..], i - 1);
      assert kinds[..i][1..] == kinds[1..][..i - 1];
      var at := Width(kinds[1..][..i - 1]);
      SliceOfSlice(b, n, at, at + kinds[i].Size());
    }
  }

  lemma WidthSnoc(kinds: seq<Kind>, i: nat)
    requires 0 < i <= |kinds|
    ensures Width(kinds[..i]) == Width(kinds[..i - 1]) + kinds[i - 1].Size()
  {
    WidthAt(kinds[..i], i - 1);
    assert kinds[..i][..i - 1] == kinds[..i - 1];
    assert kinds[..i][i - 1..] == [kinds[i - 1]];
    assert [kinds[i - 1]][1..] == [];
    assert Width([kinds[i - 1]]) == kinds[i - 1].Size() + Width([kinds[i - 1]][1..]);
  }

  lemma {:induction false} OffsetIs(i: nat)
    requires i <= |FORMAT|
    ensures Width(FORMAT[..i]) == OFFSETS[i]
  {
    if i > 0 {
      OffsetIs(i - 1);
      WidthSnoc(FORMAT, i);
    }
  }

  lemma FormatWidth()
    ensures Width(FORMAT) + PADDING == DESCRIPTOR_SIZE
  {
    OffsetIs(16);
    assert FORMAT[..16] == FORMAT;
  }

  /** C and Python read the same descriptor from any 64 bytes. */
  lemma StructAgrees(b: Bytes, i: nat)
    requires |b| == DESCRIPTOR_SIZE && i < |FORMAT|
    ensures Member(b, i) == ToFields(Unpack(b))[i]
  {
    FormatWidth();
    UnpackedAt(FORMAT, b, i);
    OffsetIs(i);
    FieldsBijection(Unpack(b), UnpackFields(FORMAT, b));
  }

  /** All members of a copied struct. */
  function ReadStruct(b: Bytes): SwDescriptor
    requires |b| == DESCRIPTOR_SIZE
  {
    FromFields(seq(|FORMAT|, i requires 0 <= i < |FORMAT| => Member(b, i)))
  }

  lemma StructReadsAgree(b: Bytes)
    requires |b| == DESCRIPTOR_SIZE
    ensures ReadStruct(b) == Unpack(b)
  {
    var members := seq(|FORMAT|, i requires 0 <= i < |FORMAT| => Member(b, i));
    forall i | 0 <= i < |FORMAT| ensures members[i] == ToFields(Unpack(b))[i] {
      StructAgrees(b, i);
    }
    FieldsBijection(Unpack(b), members);
    assert members == ToFields(Unpack(b));
  }

  /** A cleared struct after its first `|values|` members have been assigned, each at its offset. */
  function StructImage(kinds: seq<Kind>, offsets: seq<nat>, values: seq<int>): (r: Bytes)
    requires |values| <= |kinds| && |values| <= |offsets|
    requires forall i | 0 <= i < |values| :: offsets[i] + kinds[i].Size() <= DESCRIPTOR_SIZE
    ensures |r| == DESCRIPTOR_SIZE
  {
    if values == [] then Zeros(DESCRIPTOR_SIZE)
    else
      var n := |values| - 1;
      Splice(StructImage(kinds, offsets, values[..n]), offsets[n], EncodeField(kinds[n], values[n]))
  }

  lemma {:induction false} PackFieldsSnoc(kinds: seq<Kind>, values: seq<int>, k: Kind, v: int)
    requires |kinds| == |values|
    ensures PackFields(kinds + [k], values + [v]) == PackFields(kinds, values) + EncodeField(k, v)
  {
    if kinds == [] {
      assert PackFields([], []) == [];
      assert ([k])[1..] == [] && ([v])[1..] == [];
      assert kinds + [k] == [k] && values + [v] == [v];
    } else {
      PackFieldsSnoc(kinds[1..], values[1..], k, v);
      assert (kinds + [k])[1..] == kinds[1..] + [k];
      assert (values + [v])[1..] == values[1..] + [v];
    }
  }

  lemma SpliceAtEnd(prefix: Bytes, rest: nat, data: Bytes)
    requires |data| <= rest
    ensures Splice(prefix + Zeros(rest), |prefix|, data) == prefix + data + Zeros(rest - |data|)
  {
  }

  /** `offsets` lists where each field starts when they follow each other. */
  predicate Packed(kinds: seq<Kind>, offsets: seq<nat>) {
    && |kinds| <= |offsets|
    && forall i | 0 <= i < |kinds| :: offsets[i] == Width(kinds[..i]) && offsets[i] + kinds[i].Size() <= DESCRIPTOR_SIZE
  }

  lemma {:induction false} ImagePrefix(kinds: seq<Kind>, offsets: seq<nat>, values: seq<int>)
    requires Packed(kinds, offsets) && |values| <= |kinds|
    ensures Width(kinds[..|values|]) <= DESCRIPTOR_SIZE
    ensures var fields := PackFields(kinds[..|values|], values);
      StructImage(kinds, offsets, values) == fields + Zeros(DESCRIPTOR_SIZE - |fields|)
  {
    if values != [] {
      var n := |values| - 1;
      ImagePrefix(kinds, offsets, values[..n]);
      var before, field := PackFields(kinds[..n], values[..n]), EncodeField(kinds[n], values[n]);
      SpliceAtEnd(before, DESCRIPTOR_SIZE - |before|, field);
      PackFieldsSnoc(kinds[..n], values[..n], kinds[n], values[n]);
      assert kinds[..|values|] == kinds[..n] + [kinds[n]];
      assert values == values[..n] + [values[n]];
    }
  }

  lemma FormatPacked()
    ensures Packed(FORMAT, OFFSETS)
  {
    forall i | 0 <= i < |FORMAT| ensures OFFSETS[i] == Width(FORMAT[..i]) {
      OffsetIs(i);
    }
  }

  /** Clearing the struct, assigning its members and copying it gives the bytes Python packs. */
  lemma StructIsPacked(x: SwDescriptor)
    ensures StructImage(FORMAT, OFFSETS, ToFields(x)) == Pack(x)
  {
    FormatPacked();
    FormatWidth();
    ImageWhole(FORMAT, OFFSETS, ToFields(x));
  }

  lemma ImageWhole(kinds: seq<Kind>, offsets: seq<nat>, values: seq<int>)
    requires Packed(kinds, offsets) && |values| == |kinds|
    ensures Width(kinds) <= DESCRIPTOR_SIZE
    ensures StructImage(kinds, offsets, values) == PackFields(kinds, values) + Zeros(DESCRIPTOR_SIZE - Width(kinds))
  {
    ImagePrefix(kinds, offsets, values);
    assert kinds[..|values|] == kinds;
  }

  // ----------------------------------------------------------------- the layout, member by member

  /** The four bytes from `at` on, the least significant first. */
  function Unsigned(b: Bytes, at: nat): int
    requires at + 4 <= |b|
  {
    var w: int, x: int, y: int, z: int := b[at], b[at + 1], b[at + 2], b[at + 3];
    w + 0x100 * x + 0x1_0000 * y + 0x100_0000 * z
  }

  /** ... as a signed number, and the same for one byte. */
  function Signed(b: Bytes, at: nat): int
    requires at + 4 <= |b|
  {
    if Unsigned(b, at) >= 0x8000_0000 then Unsigned(b, at) - 0x1_0000_0000 else Unsigned(b, at)
  }

  function SignedByte(b: Bytes, at: nat): int
    requires at < |b|
  {
    var u: int := b[at];
    if u >= 128 then u - 256 else u
  }

  lemma WordOfFour(b: Bytes)
    requires |b| == 4
    ensures DecodeWord(b) == Unsigned(b, 0)
  {
    assert b[1..][1..] == b[2..] && b[2..][1..] == b[3..] && b[3..][1..] == [];
    var third: int, last: int := b[2], b[3];
    assert DecodeWord(b[3..]) == last;
    assert DecodeWord(b[2..]) == third + 256 * last;
    assert DecodeWord(b[1..]) == b[1] + 256 * DecodeWord(b[2..]);
  }

  lemma WordOfOne(b: Bytes)
    requires |b| == 1
    ensures DecodeWord(b) == b[0]
  {
    assert b[1..] == [];
  }

  lemma FieldIs(b: Bytes, i: nat)
    requires |b| == DESCRIPTOR_SIZE && i < |FORMAT|
    ensures OFFSETS[i] + FORMAT[i].Size() <= |b|
    ensures ToFields(Unpack(b))[i] == match FORMAT[i]
      case Int32 => Signed(b, OFFSETS[i])
      case Uint32 => Unsigned(b, OFFSETS[i])
      case Int8 => SignedByte(b, OFFSETS[i])
      case Uint8 => b[OFFSETS[i]]
  {
    StructAgrees(b, i);
    var at := OFFSETS[i];
    if FORMAT[i].Size() == 4 { WordOfFour(b[at..at + 4]); } else { WordOfOne(b[at..at + 1]); }
  }

  /** The first half of the struct: what the message is and where its header and body are. */
  lemma MessageLayout(b: Bytes)
    requires |b| == DESCRIPTOR_SIZE
    ensures var x := Unpack(b);
      && x.headerBufSlot == Signed(b, 0) && x.headerLen == Unsigned(b, 4)
      && x.bodyBufSlot == Signed(b, 8) && x.bodyLen == Unsigned(b, 12)
      && x.reqId == Unsigned(b, 16) && x.stepId == Unsigned(b, 20)
      && x.dstPodId == Signed(b, 24) && x.srcPodId == Signed(b, 28)
  {
    var v := ToFields(Unpack(b));
    forall i | 0 <= i < 8 ensures v[i] == if FORMAT[i].Int32? then Signed(b, 4 * i) else Unsigned(b, 4 * i) {
      FieldIs(b, i);
    }
    assert v[0] == Signed(b, 4 * 0) && v[1] == Unsigned(b, 4 * 1) && v[2] == Signed(b, 4 * 2);
    assert v[3] == Unsigned(b, 4 * 3) && v[4] == Unsigned(b, 4 * 4) && v[5] == Unsigned(b, 4 * 5);
    assert v[6] == Signed(b, 4 * 6) && v[7] == Signed(b, 4 * 7);
  }

  /** The second half: flags, and the source of header and body. */
  lemma SourceLayout(b: Bytes)
    requires |b| == DESCRIPTOR_SIZE
    ensures var x := Unpack(b);
      && x.flags == SignedByte(b, 32) && x.valid == SignedByte(b, 33)
      && x.srcBodyPoolType == b[34] && x.srcHeaderPoolType == b[35]
      && x.srcBodyPodId == Signed(b, 36) && x.srcHeaderPodId == Signed(b, 40)
      && x.srcBodyBufSlot == Signed(b, 44) && x.srcHeaderBufSlot == Signed(b, 48)
  {
    FieldIs(b, 8);
    FieldIs(b, 9);
    FieldIs(b, 10);
    FieldIs(b, 11);
    FieldIs(b, 12);
    FieldIs(b, 13);
    FieldIs(b, 14);
    FieldIs(b, 15);
  }
}
