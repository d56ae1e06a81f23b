/** A buffer pool as it lies in shared memory: one byte of bitmap for each slot, then the slots. The C and the
    Python side work on the same bytes; every operation is proved to be the machine's operation on its map of
    owners and its map of contents. */
module BufferPool {
  import opened Descriptor
  import opened Mesh

  // ----------------------------------------------------------------- layout

  /** `n` bitmap bytes, then slot `i` of `size` bytes at `at(i)`. */
  datatype Layout = Layout(n: nat, size: nat, total: nat, at: nat -> nat)

  /** The slots lie behind the bitmap, inside the mapping, and apart from one another. */
  ghost predicate Sound(lay: Layout) {
    && lay.n <= lay.total
    && (forall i: nat | i < lay.n :: lay.n <= lay.at(i) && lay.at(i) + lay.size <= lay.total)
    && (forall i: nat, j: nat | i < lay.n && j < lay.n && i != j ::
          lay.at(i) + lay.size <= lay.at(j) || lay.at(j) + lay.size <= lay.at(i))
  }

  function SlotOffset(n: nat, size: nat, i: nat): nat {
    n + i * size
  }

  function SharedLayout(n: nat, size: nat): Layout {
    Layout(n, size, SlotOffset(n, size, n), i => SlotOffset(n, size, i))
  }

  lemma OffsetsGrow(n: nat, size: nat, i: nat, j: nat)
    requires i < j
    ensures n <= SlotOffset(n, size, i) && SlotOffset(n, size, i) + size <= SlotOffset(n, size, j)
  {
    assert j * size == i * size + (j - i) * size;
    assert (j - i) * size == size + (j - i - 1) * size;
  }

  lemma SharedLayoutIsSound(n: nat, size: nat)
    ensures Sound(SharedLayout(n, size))
  {
    var at := i => SlotOffset(n, size, i);
    assert at(n) == SlotOffset(n, size, n);
    forall i: nat, j: nat | i < j ensures n <= at(i) && at(i) + size <= at(j) {
      OffsetsGrow(n, size, i, j);
    }
    SoundWhenGrowing(Layout(n, size, at(n), at));
  }

  lemma SoundWhenGrowing(lay: Layout)
    requires lay.total == lay.at(lay.n)
    requires forall i: nat, j: nat | i < j :: lay.n <= lay.at(i) && lay.at(i) + lay.size <= lay.at(j)
    requires lay.n <= lay.total
    ensures Sound(lay)
  {
    forall i: nat, j: nat | i < lay.n && j < lay.n && i != j
      ensures lay.at(i) + lay.size <= lay.at(j) || lay.at(j) + lay.size <= lay.at(i)
    {
      if i < j { assert lay.at(i) + lay.size <= lay.at(j); } else { assert lay.at(j) + lay.size <= lay.at(i); }
    }
  }

  /** The bytes of slot `i`. */
  ghost function Cell(lay: Layout, bytes: Bytes, i: nat): (r: Bytes)
    requires Sound(lay) && i < lay.n && |bytes| == lay.total
    ensures |r| == lay.size
  {
    bytes[lay.at(i)..lay.at(i) + lay.size]
  }

  /** The bytes hold what the machine's state says of one pool. */
  ghost predicate Holds(lay: Layout, cfg: Config, pool: PoolId, bytes: Bytes, owner: map<Slot, nat>, mem: map<Slot,
      Bytes>) {
    && Sound(lay) && lay.n == cfg.numSlots && lay.size == cfg.slotSize && |bytes| == lay.total
    && (forall i: nat | i < lay.n :: bytes[i] != 0 <==> Slot(pool, i) in owner)
    && (forall i: nat | i < lay.n :: Cell(lay, bytes, i) == Contents(cfg, mem, Slot(pool, i)))
  }

  // ----------------------------------------------------------------- effects on the bytes

  lemma CellAfterBit(lay: Layout, bytes: Bytes, i: nat, bit: Byte, j: nat)
    requires Sound(lay) && i < lay.n && j < lay.n && |bytes| == lay.total
    ensures Cell(lay, bytes[i := bit], j) == Cell(lay, bytes, j)
  {
    var a, b := Cell(lay, bytes[i := bit], j), Cell(lay, bytes, j);
    assert forall k | 0 <= k < lay.size :: a[k] == b[k];
  }

  lemma CellAfterSplice(lay: Layout, bytes: Bytes, i: nat, data: Bytes, j: nat)
    requires Sound(lay) && i < lay.n && j < lay.n && |bytes| == lay.total && |data| <= lay.size
    ensures Cell(lay, Splice(bytes, lay.at(i), data), j) ==
      if i == j then data + Cell(lay, bytes, i)[|data|..] else Cell(lay, bytes, j)
  {
    var a, b := Cell(lay, Splice(bytes, lay.at(i), data), j), Cell(lay, bytes, j);
    if i != j {
      assert forall k | 0 <= k < lay.size :: a[k] == b[k];
    } else {
      var c := data + b[|data|..];
      assert forall k | 0 <= k < lay.size :: a[k] == c[k];
    }
  }

  /** Setting or clearing a bit is allocating or freeing the slot. */
  lemma BitSet(lay: Layout, cfg: Config, pool: PoolId, bytes: Bytes, owner: map<Slot, nat>, mem: map<Slot, Bytes>,
      i: nat, id: nat)
    requires Holds(lay, cfg, pool, bytes, owner, mem) && i < lay.n
    ensures Holds(lay, cfg, pool, bytes[i := 1], owner[Slot(pool, i) := id], mem)
  {
    forall j: nat | j < lay.n ensures Cell(lay, bytes[i := 1], j) == Contents(cfg, mem, Slot(pool, j)) {
      CellAfterBit(lay, bytes, i, 1, j);
    }
  }

  lemma BitCleared(lay: Layout, cfg: Config, pool: PoolId, bytes: Bytes, owner: map<Slot, nat>, mem: map<Slot, Bytes>,
      i: nat)
    requires Holds(lay, cfg, pool, bytes, owner, mem) && i < lay.n
    ensures Holds(lay, cfg, pool, bytes[i := 0], owner - {Slot(pool, i)}, mem)
  {
    forall j: nat | j < lay.n ensures Cell(lay, bytes[i := 0], j) == Contents(cfg, mem, Slot(pool, j)) {
      CellAfterBit(lay, bytes, i, 0, j);
    }
  }

  lemma StoredContents(cfg: Config, mem: map<Slot, Bytes>, sl: Slot, data: Bytes, t: Slot)
    requires |data| <= cfg.slotSize && |Contents(cfg, mem, sl)| == cfg.slotSize
    ensures Contents(cfg, Store(cfg, mem, sl, data), t) ==
      if t == sl then data + Contents(cfg, mem, sl)[|data|..] else Contents(cfg, mem, t)
  {
  }

  /** Overwriting the front of a slot is the machine's store. */
  lemma FrontWritten(lay: Layout, cfg: Config, pool: PoolId, bytes: Bytes, owner: map<Slot, nat>, mem: map<Slot,
      Bytes>, i: nat, data: Bytes)
    requires Holds(lay, cfg, pool, bytes, owner, mem) && i < lay.n && |data| <= lay.size
    ensures lay.at(i) + |data| <= |bytes|
    ensures Holds(lay, cfg, pool, Splice(bytes, lay.at(i), data), owner, Store(cfg, mem, Slot(pool, i), data))
  {
    var after := Splice(bytes, lay.at(i), data);
    assert Cell(lay, bytes, i) == Contents(cfg, mem, Slot(pool, i));
    forall j: nat | j < lay.n ensures Cell(lay, after, j) == Contents(cfg, Store(cfg, mem, Slot(pool, i), data),
      Slot(pool, j)) {
      CellAfterSplice(lay, bytes, i, data, j);
      StoredContents(cfg, mem, Slot(pool, i), data, Slot(pool, j));
    }
  }

  lemma SlotRead(lay: Layout, cfg: Config, pool: PoolId, bytes: Bytes, owner: map<Slot, nat>, mem: map<Slot, Bytes>,
      i: nat, len: nat)
    requires Holds(lay, cfg, pool, bytes, owner, mem) && i < lay.n
    ensures var n := if len < lay.size then len else lay.size;
      lay.at(i) + n <= |bytes| && bytes[lay.at(i)..lay.at(i) + n] == Load(cfg, mem, Slot(pool, i), len)
  {
    var n := if len < lay.size then len else lay.size;
    assert Cell(lay, bytes, i) == Contents(cfg, mem, Slot(pool, i));
    assert Cell(lay, bytes, i)[..n] == bytes[lay.at(i)..lay.at(i) + n];
  }

  lemma ZerosHold(lay: Layout, cfg: Config, pool: PoolId)
    requires Sound(lay) && lay.n == cfg.numSlots && lay.size == cfg.slotSize
    ensures Holds(lay, cfg, pool, Zeros(lay.total), map[], map[])
  {
    forall i: nat | i < lay.n ensures Cell(lay, Zeros(lay.total), i) == Contents(cfg, map[], Slot(pool, i)) {
      assert Zeros(lay.total)[lay.at(i)..lay.at(i) + lay.size] == Zeros(lay.size);
    }
  }

  // ----------------------------------------------------------------- the pool

  class Pool {
    const numSlots: nat
    const slotSize: nat
    const mm: array<Byte>
    ghost const lay: Layout

    ghost predicate Represents(cfg: Config, pool: PoolId, owner: map<Slot, nat>, mem: map<Slot, Bytes>)
      reads mm
    {
      && numSlots == cfg.numSlots && slotSize == cfg.slotSize && lay == SharedLayout(numSlots, slotSize)
      && Holds(lay, cfg, pool, mm[..], owner, mem)
    }

    /** bp_init and _init_storage on a new mapping, which is all zeros. */
    constructor (cfg: Config, ghost pool: PoolId)
      ensures Represents(cfg, pool, map[], map[]) && fresh(mm)
    {
      numSlots, slotSize := cfg.numSlots, cfg.slotSize;
      var length := SlotOffset(cfg.numSlots, cfg.slotSize, cfg.numSlots);
      mm := new Byte[length](i => 0);
      lay := SharedLayout(cfg.numSlots, cfg.slotSize);
      SharedLayoutIsSound(cfg.numSlots, cfg.slotSize);
      ZerosHold(SharedLayout(cfg.numSlots, cfg.slotSize), cfg, pool);
      new;
      assert mm[..] == Zeros(lay.total);
    }

    /** bp_alloc, alloc: the first clear bit is set. */
    method Alloc(ghost cfg: Config, ghost pool: PoolId, ghost owner: map<Slot, nat>, ghost mem: map<Slot, Bytes>,
        ghost id: nat)
      returns (slot: int)
      requires Represents(cfg, pool, owner, mem)
      modifies mm
      ensures slot == FirstFree(cfg, owner, pool, 0)
      ensures Represents(cfg, pool, if slot >= 0 then owner[Slot(pool, slot) := id] else owner, mem)
    {
      ghost var bytes := mm[..];
      var i := 0;
      while i < numSlots
        invariant 0 <= i <= numSlots && mm[..] == bytes
        invariant FirstFree(cfg, owner, pool, i) == FirstFree(cfg, owner, pool, 0)
      {
        assert mm[i] == bytes[i];
        if mm[i] == 0 {
          BitSet(lay, cfg, pool, bytes, owner, mem, i, id);
          mm[i] := 1;
          assert mm[..] == bytes[i := 1];
          return i;
        }
        i := i + 1;
      }
      slot := -1;
    }

    /** bp_free, free: a slot number out of range is ignored. */
    method Free(slot: int, ghost cfg: Config, ghost pool: PoolId, ghost owner: map<Slot, nat>, ghost mem: map<Slot,
        Bytes>)
      requires Represents(cfg, pool, owner, mem)
      modifies mm
      ensures Represents(cfg, pool, if 0 <= slot < numSlots then owner - {Slot(pool, slot)} else owner, mem)
    {
      if slot < 0 || slot >= numSlots {
        return;
      }
      ghost var bytes := mm[..];
      BitCleared(lay, cfg, pool, bytes, owner, mem, slot);
      mm[slot] := 0;
      assert mm[..] == bytes[slot := 0];
    }

    /** bp_write, write: false stands for the error result, and leaves the bytes alone. */
    method Write(slot: int, data: Bytes, ghost cfg: Config, ghost pool: PoolId, ghost owner: map<Slot, nat>,
        ghost mem: map<Slot, Bytes>)
      returns (ok: bool)
      requires Represents(cfg, pool, owner, mem)
      modifies mm
      ensures ok <==> 0 <= slot < numSlots && |data| <= slotSize
      ensures Represents(cfg, pool, owner, if ok then Store(cfg, mem, Slot(pool, slot), data) else mem)
    {
      if slot < 0 || slot >= numSlots || |data| > slotSize {
        return false;
      }
      FrontWritten(lay, cfg, pool, mm[..], owner, mem, slot, data);
      var from := SlotOffset(numSlots, slotSize, slot);
      CopyInto(from, data);
      ok := true;
    }

    /** memcpy into the mapping. */
    method CopyInto(from: nat, data: Bytes)
      requires from + |data| <= mm.Length
      modifies mm
      ensures mm[..] == Splice(old(mm[..]), from, data)
    {
      var k := 0;
      while k < |data|
        invariant 0 <= k <= |data|
        invariant forall p | 0 <= p < mm.Length :: mm[p] == if from <= p < from + k then data[p - from] else old(mm[p])
      {
        mm[from + k] := data[k];
        k := k + 1;
      }
    }

    /** bp_read, read: at most a slot's worth of bytes. */
    method Read(slot: int, len: nat, ghost cfg: Config, ghost pool: PoolId, ghost owner: map<Slot, nat>,
        ghost mem: map<Slot, Bytes>)
      returns (data: Bytes)
      requires Represents(cfg, pool, owner, mem)
      ensures data == if 0 <= slot < numSlots then Load(cfg, mem, Slot(pool, slot), len) else []
    {
      if slot < 0 || slot >= numSlots {
        return [];
      }
      SlotRead(lay, cfg, pool, mm[..], owner, mem, slot, len);
      var n := if len < slotSize then len else slotSize;
      var from := SlotOffset(numSlots, slotSize, slot);
      data := mm[from..from + n];
      assert data == mm[..][from..from + n];
    }
  }
}
