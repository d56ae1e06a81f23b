/** The descriptor ring in shared memory: twelve header bytes (head, tail, count) and a fixed number of
    64-byte cells, used by the C library and by the Python daemons at the same time. */
module SharedRing {
  import opened Descriptor
  import opened Wire

  const HEADER_SIZE: nat := 12

  /** One call on the ring, from either side. */
  datatype Call = PutC(x: SwDescriptor) | GetC | PutPython(x: SwDescriptor) | GetPython

  /** A put reports whether it was accepted, a get what it found. */
  datatype Result = Accepted(ok: bool) | Got(x: SwDescriptor) | Empty

  // ----------------------------------------------------------------- the bounded queue

  /** What one call does to a bounded first-in first-out queue. */
  function QueueCall(items: seq<SwDescriptor>, capacity: nat, call: Call): (seq<SwDescriptor>, Result) {
    if call.PutC? || call.PutPython? then
      if |items| >= capacity then (items, Accepted(false)) else (items + [call.x], Accepted(true))
    else if items == [] then (items, Empty)
    else (items[1..], Got(items[0]))
  }

  /** A sequence of calls, with the results in order. */
  function QueueCalls(items: seq<SwDescriptor>, capacity: nat, calls: seq<Call>): (seq<SwDescriptor>, seq<Result>)
    decreases |calls|
  {
    if calls == [] then (items, [])
    else
      var n := |calls| - 1;
      var before := QueueCalls(items, capacity, calls[..n]);
      var last := QueueCall(before.0, capacity, calls[n]);
      (last.0, before.1 + [last.1])
  }

  // ----------------------------------------------------------------- positions

  /** Cell number of the `i`-th queued descriptor. */
  function Cell(head: nat, i: nat, n: nat): nat
    requires n > 0
  {
    (head + i) % n
  }

  lemma WrapAround(x: nat, n: nat)
    requires 0 < n && x < 2 * n
    ensures x % n == if x < n then x else x - n
  {
    if x >= n {
      assert x == n * 1 + (x - n);
    }
  }

  /** The free cell a put fills is none of those in use. */
  lemma FreeCell(head: nat, count: nat, i: nat, n: nat)
    requires head < n && i < count < n
    ensures Cell(head, i, n) != Cell(head, count, n)
  {
    WrapAround(head + i, n);
    WrapAround(head + count, n);
  }

  /** After a get the queue starts one cell later. */
  lemma NextCell(head: nat, i: nat, n: nat)
    requires head < n && i + 1 <= n
    ensures Cell((head + 1) % n, i, n) == Cell(head, i + 1, n)
  {
    WrapAround(head + 1, n);
    WrapAround(head + i + 1, n);
    if (head + 1) % n + i < 2 * n { WrapAround((head + 1) % n + i, n); }
  }

  lemma TailMoves(head: nat, count: nat, n: nat)
    requires head < n && count < n
    ensures (Cell(head, count, n) + 1) % n == Cell(head, count + 1, n)
    ensures count > 0 ==> Cell((head + 1) % n, count - 1, n) == Cell(head, count, n)
  {
    WrapAround(head + count, n);
    WrapAround(Cell(head, count, n) + 1, n);
    WrapAround(head + count + 1, n);
    if count > 0 { NextCell(head, count - 1, n); }
  }

  // ----------------------------------------------------------------- the bytes

  /** A little-endian 32-bit word of the header. */
  function WordAt(bytes: Bytes, at: nat): nat
    requires at + 4 <= |bytes|
  {
    DecodeWord(bytes[at..at + 4])
  }

  function CellBytes(bytes: Bytes, cell: nat): Bytes
    requires HEADER_SIZE + (cell + 1) * DESCRIPTOR_SIZE <= |bytes|
  {
    bytes[HEADER_SIZE + cell * DESCRIPTOR_SIZE..HEADER_SIZE + (cell + 1) * DESCRIPTOR_SIZE]
  }

  ghost predicate ValidBytes(bytes: Bytes, n: nat) {
    && 0 < n < 0x8000_0000
    && |bytes| == HEADER_SIZE + n * DESCRIPTOR_SIZE
    && WordAt(bytes, 0) < n
    && WordAt(bytes, 8) <= n
    && WordAt(bytes, 4) == Cell(WordAt(bytes, 0), WordAt(bytes, 8), n)
  }

  /** The queued cells, oldest first. */
  ghost function CellsOf(bytes: Bytes, n: nat): (r: seq<Bytes>)
    requires ValidBytes(bytes, n)
    ensures |r| == WordAt(bytes, 8) && forall i | 0 <= i < |r| :: |r[i]| == DESCRIPTOR_SIZE
  {
    seq(WordAt(bytes, 8), i requires 0 <= i < WordAt(bytes, 8) => CellBytes(bytes, Cell(WordAt(bytes, 0), i, n)))
  }

  /** The queue of descriptors the bytes stand for. */
  ghost function ItemsOf(bytes: Bytes, n: nat): (r: seq<SwDescriptor>)
    requires ValidBytes(bytes, n)
    ensures |r| == WordAt(bytes, 8)
  {
    var cells := CellsOf(bytes, n);
    seq(|cells|, i requires 0 <= i < |cells| => Unpack(cells[i]))
  }

  function HeaderBytes(head: nat, tail: nat, count: nat): (r: Bytes)
    ensures |r| == HEADER_SIZE
  {
    EncodeWord(4, head) + EncodeWord(4, tail) + EncodeWord(4, count)
  }

  /** Whatever follows, the header words read back as written. */
  lemma HeaderRead(bytes: Bytes, head: nat, tail: nat, count: nat)
    requires |bytes| >= HEADER_SIZE && bytes[..HEADER_SIZE] == HeaderBytes(head, tail, count)
    requires head < 0x1_0000_0000 && tail < 0x1_0000_0000 && count < 0x1_0000_0000
    ensures WordAt(bytes, 0) == head && WordAt(bytes, 4) == tail && WordAt(bytes, 8) == count
  {
    SpanIsPower(Uint32);
    WordRoundTrip(4, head);
    WordRoundTrip(4, tail);
    WordRoundTrip(4, count);
    var h := HeaderBytes(head, tail, count);
    assert bytes[0..4] == h[0..4] == EncodeWord(4, head);
    assert bytes[4..8] == h[4..8] == EncodeWord(4, tail);
    assert bytes[8..12] == h[8..12] == EncodeWord(4, count);
  }

  /** The same cells everywhere but at `cell`. */
  ghost predicate SameCells(bytes: Bytes, bytes': Bytes, n: nat, cell: int)
    requires |bytes| == |bytes'| == HEADER_SIZE + n * DESCRIPTOR_SIZE
  {
    forall k | 0 <= k < n && k != cell :: CellBytes(bytes', k) == CellBytes(bytes, k)
  }

  /** The same header words. */
  ghost predicate SameHeader(bytes: Bytes, bytes': Bytes)
    requires |bytes| >= HEADER_SIZE && |bytes'| >= HEADER_SIZE
  {
    && WordAt(bytes', 0) == WordAt(bytes, 0)
    && WordAt(bytes', 4) == WordAt(bytes, 4)
    && WordAt(bytes', 8) == WordAt(bytes, 8)
  }

  lemma CellSpliced(bytes: Bytes, n: nat, cell: nat, data: Bytes)
    requires |bytes| == HEADER_SIZE + n * DESCRIPTOR_SIZE && cell < n && |data| == DESCRIPTOR_SIZE
    ensures var bytes' := Splice(bytes, HEADER_SIZE + cell * DESCRIPTOR_SIZE, data);
      CellBytes(bytes', cell) == data && SameCells(bytes, bytes', n, cell) && SameHeader(bytes, bytes')
  {
    var at := HEADER_SIZE + cell * DESCRIPTOR_SIZE;
    var bytes' := Splice(bytes, at, data);
    forall k | 0 <= k < n && k != cell ensures CellBytes(bytes', k) == CellBytes(bytes, k) {
      var from := HEADER_SIZE + k * DESCRIPTOR_SIZE;
      assert from + DESCRIPTOR_SIZE <= at || at + DESCRIPTOR_SIZE <= from;
      assert forall i | from <= i < from + DESCRIPTOR_SIZE :: bytes'[i] == bytes[i];
    }
    assert forall j | 0 <= j < DESCRIPTOR_SIZE :: bytes'[at + j] == data[j];
    assert bytes'[0..4] == bytes[0..4] && bytes'[4..8] == bytes[4..8] && bytes'[8..12] == bytes[8..12];
  }

  lemma HeaderSpliced(bytes: Bytes, n: nat, header: Bytes)
    requires |bytes| == HEADER_SIZE + n * DESCRIPTOR_SIZE && |header| == HEADER_SIZE
    ensures var bytes' := Splice(bytes, 0, header);
      bytes'[..HEADER_SIZE] == header && SameCells(bytes, bytes', n, -1)
  {
  }

  /** The free cell filled and counted in: a put. */
  lemma CellAppended(bytes: Bytes, bytes': Bytes, n: nat)
    requires ValidBytes(bytes, n) && |bytes'| == |bytes| && WordAt(bytes, 8) < n
    requires WordAt(bytes', 0) == WordAt(bytes, 0) && WordAt(bytes', 8) == WordAt(bytes, 8) + 1
    requires WordAt(bytes', 4) == (WordAt(bytes, 4) + 1) % n && SameCells(bytes, bytes', n, WordAt(bytes, 4))
    ensures ValidBytes(bytes', n)
    ensures CellsOf(bytes', n) == CellsOf(bytes, n) + [CellBytes(bytes', WordAt(bytes, 4))]
  {
    var head, count := WordAt(bytes, 0), WordAt(bytes, 8);
    TailMoves(head, count, n);
    forall i | 0 <= i < count ensures CellsOf(bytes', n)[i] == CellsOf(bytes, n)[i] {
      FreeCell(head, count, i, n);
    }
  }

  /** The head moved past a cell: a get. */
  lemma CellRemoved(bytes: Bytes, bytes': Bytes, n: nat)
    requires ValidBytes(bytes, n) && |bytes'| == |bytes| && WordAt(bytes, 8) > 0
    requires WordAt(bytes', 0) == (WordAt(bytes, 0) + 1) % n && WordAt(bytes', 8) == WordAt(bytes, 8) - 1
    requires WordAt(bytes', 4) == WordAt(bytes, 4) && SameCells(bytes, bytes', n, -1)
    ensures ValidBytes(bytes', n)
    ensures CellsOf(bytes, n) == [CellBytes(bytes, WordAt(bytes, 0))] + CellsOf(bytes', n)
  {
    var head, count := WordAt(bytes, 0), WordAt(bytes, 8);
    WrapAround(head, n);
    NextCell(head, count - 1, n);
    forall i | 0 <= i < count - 1 ensures CellsOf(bytes', n)[i] == CellsOf(bytes, n)[i + 1] {
      NextCell(head, i, n);
    }
  }

  // ----------------------------------------------------------------- the ring

  class Ring {
    const capacity: nat
    const mem: array<Byte>

    ghost predicate Valid()
      reads mem
    {
      ValidBytes(mem[..], capacity)
    }

    ghost function Items(): seq<SwDescriptor>
      requires Valid()
      reads mem
    {
      ItemsOf(mem[..], capacity)
    }

    /** An empty ring: creation clears the header and leaves the cells as they are. */
    constructor (n: nat)
      requires 0 < n < 0x8000_0000
      ensures Valid() && Items() == [] && capacity == n && fresh(mem)
    {
      capacity := n;
      mem := new Byte[HEADER_SIZE + n * DESCRIPTOR_SIZE](_ => 0);
      new;
      assert mem[..][..HEADER_SIZE] == HeaderBytes(0, 0, 0);
      HeaderRead(mem[..], 0, 0, 0);
    }

    /** Stores bytes at an offset: memcpy, or seek and write. */
    method Store(at: nat, data: Bytes)
      requires at + |data| <= mem.Length
      modifies mem
      ensures mem[..] == Splice(old(mem[..]), at, data)
    {
      var i := 0;
      while i < |data|
        invariant 0 <= i <= |data|
        invariant mem[..] == Splice(old(mem[..]), at, data[..i])
      {
        mem[at + i] := data[i];
        i := i + 1;
        assert data[..i] == data[..i - 1] + [data[i - 1]];
      }
      assert data[..i] == data;
    }

    /** The header words, all three at once. */
    method SetHeader(head: nat, tail: nat, count: nat)
      requires mem.Length == HEADER_SIZE + capacity * DESCRIPTOR_SIZE
      requires head < 0x1_0000_0000 && tail < 0x1_0000_0000 && count < 0x1_0000_0000
      modifies mem
      ensures WordAt(mem[..], 0) == head && WordAt(mem[..], 4) == tail && WordAt(mem[..], 8) == count
      ensures SameCells(old(mem[..]), mem[..], capacity, -1)
    {
      ghost var before := mem[..];
      Store(0, HeaderBytes(head, tail, count));
      HeaderSpliced(before, capacity, HeaderBytes(head, tail, count));
      HeaderRead(mem[..], head, tail, count);
    }

    /** dr_put: reads the three header words, rejects when full, copies the struct into the tail cell. */
    method PutC(x: SwDescriptor) returns (rc: int)
      requires Valid() && Packable(x)
      modifies mem
      ensures Valid()
      ensures rc == if |old(Items())| < capacity then 0 else -1
      ensures Items() == if rc == 0 then old(Items()) + [x] else old(Items())
    {
      FormatPacked();
      StructIsPacked(x);
      var ok := PutCell(StructImage(FORMAT, OFFSETS, ToFields(x)));
      PackableSurvives(x);
      rc := if ok then 0 else -1;
    }

    /** DescriptorRing.put */
    method PutPython(x: SwDescriptor) returns (ok: bool)
      requires Valid() && Packable(x)
      modifies mem
      ensures Valid()
      ensures ok == (|old(Items())| < capacity)
      ensures Items() == if ok then old(Items()) + [x] else old(Items())
    {
      ok := PutCell(Pack(x));
      PackableSurvives(x);
    }

    method PutCell(data: Bytes) returns (ok: bool)
      requires Valid() && |data| == DESCRIPTOR_SIZE
      modifies mem
      ensures Valid()
      ensures ok == (|old(Items())| < capacity)
      ensures Items() == if ok then old(Items()) + [Unpack(data)] else old(Items())
    {
      ghost var before := mem[..];
      var head, tail, count := WordAt(mem[..], 0), WordAt(mem[..], 4), WordAt(mem[..], 8);
      if count >= capacity {
        return false;
      }
      Store(HEADER_SIZE + tail * DESCRIPTOR_SIZE, data);
      CellSpliced(before, capacity, tail, data);
      SetHeader(head, (tail + 1) % capacity, count + 1);
      CellAppended(before, mem[..], capacity);
      ok := true;
    }

    /** dr_get: copies the head cell into a struct, whose members are then read in place. */
    method GetC() returns (rc: int, x: SwDescriptor)
      requires Valid()
      modifies mem
      ensures Valid()
      ensures rc == if old(Items()) != [] then 0 else -1
      ensures rc == 0 ==> x == old(Items())[0] && Items() == old(Items())[1..]
      ensures rc != 0 ==> Items() == old(Items())
    {
      var ok, data := GetCell();
      if !ok {
        return -1, FromFields(seq(|FORMAT|, _ => 0));
      }
      StructReadsAgree(data);
      rc, x := 0, ReadStruct(data);
    }

    /** DescriptorRing.get */
    method GetPython() returns (ok: bool, x: SwDescriptor)
      requires Valid()
      modifies mem
      ensures Valid()
      ensures ok == (old(Items()) != [])
      ensures ok ==> x == old(Items())[0] && Items() == old(Items())[1..]
      ensures !ok ==> Items() == old(Items())
    {
      var data;
      ok, data := GetCell();
      x := if ok then Unpack(data) else FromFields(seq(|FORMAT|, _ => 0));
    }

    method GetCell() returns (ok: bool, data: Bytes)
      requires Valid()
      modifies mem
      ensures Valid()
      ensures ok == (old(Items()) != [])
      ensures ok ==> |data| == DESCRIPTOR_SIZE && [Unpack(data)] + Items() == old(Items())
      ensures !ok ==> Items() == old(Items())
    {
      ghost var before := mem[..];
      var head, tail, count := WordAt(mem[..], 0), WordAt(mem[..], 4), WordAt(mem[..], 8);
      if count == 0 {
        return false, [];
      }
      data := CellBytes(mem[..], head);
      SetHeader((head + 1) % capacity, tail, count - 1);
      CellRemoved(before, mem[..], capacity);
      ok := true;
    }
  }

  // ----------------------------------------------------------------- any interleaving

  /** One call on the bytes does what it does to the queue. */
  method Do(ring: Ring, call: Call) returns (r: Result)
    requires ring.Valid() && ((call.PutC? || call.PutPython?) ==> Packable(call.x))
    modifies ring.mem
    ensures ring.Valid()
    ensures (ring.Items(), r) == QueueCall(old(ring.Items()), ring.capacity, call)
  {
    match call
    case PutC(x) =>
      var rc := ring.PutC(x);
      r := Accepted(rc == 0);
    case PutPython(x) =>
      var ok := ring.PutPython(x);
      r := Accepted(ok);
    case GetC =>
      var rc, x := ring.GetC();
      r := if rc == 0 then Got(x) else Empty;
    case GetPython =>
      var ok, x := ring.GetPython();
      r := if ok then Got(x) else Empty;
  }

  /** Any interleaving of puts and gets from C and Python is a run of one bounded queue. */
  method DoAll(ring: Ring, calls: seq<Call>) returns (results: seq<Result>)
    requires ring.Valid()
    requires forall i | 0 <= i < |calls| :: (calls[i].PutC? || calls[i].PutPython?) ==> Packable(calls[i].x)
    modifies ring.mem
    ensures ring.Valid()
    ensures (ring.Items(), results) == QueueCalls(old(ring.Items()), ring.capacity, calls)
  {
    results := [];
    var i := 0;
    while i < |calls|
      invariant 0 <= i <= |calls| && ring.Valid()
      invariant (ring.Items(), results) == QueueCalls(old(ring.Items()), ring.capacity, calls[..i])
    {
      var r := Do(ring, calls[i]);
      results := results + [r];
      i := i + 1;
      assert calls[..i][..i - 1] == calls[..i - 1];
    }
    assert calls[..i] == calls;
  }
}
