/** The invariant of the pipeline, stated for any reading of which slots a message owns and what is
    true of it, and how the primitive updates keep it: one message changes, the others are framed. */
module Ledger {
  import opened Descriptor
  import opened Mesh

  type Memory = map<Slot, Bytes>

  /** `own` gives the slots of a message, `ok` what is true of it in a memory, `good` what is true of
      an outcome. */
  datatype Spec = Spec(cfg: Config, own: Flight -> set<Slot>, ok: (Memory, Flight) -> bool, good: Outcome -> bool)

  /** Only the bytes of its own slots matter to a message. */
  ghost predicate Framed(spec: Spec) {
    forall mem: Memory, mem': Memory, f: Flight {:trigger spec.ok(mem, f), spec.ok(mem', f)} ::
      && spec.ok(mem, f)
      && (forall sl | sl in spec.own(f) :: Contents(spec.cfg, mem', sl) == Contents(spec.cfg, mem, sl))
      ==> spec.ok(mem', f)
  }

  /** Slot `sl` starts with `data`. */
  predicate Holds(cfg: Config, mem: Memory, sl: Slot, data: Bytes) {
    data <= Contents(cfg, mem, sl)
  }

  ghost predicate MemOk(cfg: Config, mem: Memory) {
    forall sl | sl in mem :: |mem[sl]| == cfg.slotSize
  }

  ghost predicate FlightsOk(spec: Spec, mem: Memory, flights: map<nat, Flight>) {
    forall id | id in flights :: spec.ok(mem, flights[id])
  }

  /** A slot is allocated exactly when some message owns it, and then that message alone does. */
  ghost predicate OwnersOk(spec: Spec, owner: map<Slot, nat>, flights: map<nat, Flight>) {
    && (forall sl | sl in owner :: owner[sl] in flights && sl in spec.own(flights[owner[sl]]))
    && (forall id, sl | id in flights && sl in spec.own(flights[id]) :: sl in owner && owner[sl] == id)
  }

  ghost predicate Distinct(ids: seq<nat>) {
    forall i, j | 0 <= i < j < |ids| :: ids[i] != ids[j]
  }

  /** A queue holds exactly the messages whose stage says so, once each. */
  ghost predicate QueuesOk(queues: map<QueueId, seq<nat>>, flights: map<nat, Flight>) {
    && (forall q | q in queues :: Distinct(queues[q]))
    && (forall q, id | q in queues && id in queues[q] :: id in flights && flights[id].stage == Queued(q))
    && (forall id | id in flights && flights[id].stage.Queued? ::
          flights[id].stage.q in queues && id in queues[flights[id].stage.q])
  }

  /** Every message ever accepted is either in flight or has exactly one outcome. */
  ghost predicate HistoryOk(spec: Spec, s: State) {
    && (forall id | id in s.outcomes :: spec.good(s.outcomes[id]))
    && (forall id: nat :: id < s.next <==> id in s.flights || id in s.outcomes)
    && (forall id | id in s.flights :: id !in s.outcomes)
  }

  ghost predicate Inv(spec: Spec, s: State) {
    && MemOk(spec.cfg, s.mem)
    && FlightsOk(spec, s.mem, s.flights)
    && OwnersOk(spec, s.owner, s.flights)
    && QueuesOk(s.queues, s.flights)
    && HistoryOk(spec, s)
  }

  lemma InitOk(spec: Spec)
    ensures Inv(spec, Init)
  {
  }

  // ----------------------------------------------------------------- parts

  lemma FlightsAfterUpdate(spec: Spec, mem: Memory, mem': Memory, flights: map<nat, Flight>, id: nat, f: Flight,
      written: set<Slot>)
    requires Framed(spec) && FlightsOk(spec, mem, flights) && spec.ok(mem', f)
    requires forall sl | sl !in written :: Contents(spec.cfg, mem', sl) == Contents(spec.cfg, mem, sl)
    requires forall j | j in flights && j != id :: spec.own(flights[j]) !! written
    ensures FlightsOk(spec, mem', flights[id := f])
  {
    forall j | j in flights && j != id ensures spec.ok(mem', flights[j]) {
      assert spec.ok(mem, flights[j]);
    }
  }

  /** Between two bitmaps, message `id` exchanges its slots for `slots` and no other slot changes hands. */
  ghost predicate Exchanges(owner: map<Slot, nat>, owner': map<Slot, nat>, id: nat, slots: set<Slot>) {
    && (forall sl | sl in owner' ::
          if sl in slots then owner'[sl] == id else sl in owner && owner[sl] == owner'[sl] && owner[sl] != id)
    && (forall sl | sl in owner && owner[sl] != id :: sl in owner' && owner'[sl] == owner[sl])
    && (forall sl | sl in slots :: sl in owner')
  }

  lemma OwnersAfterUpdate(spec: Spec, owner: map<Slot, nat>, owner': map<Slot, nat>, flights: map<nat, Flight>,
      id: nat, f: Flight)
    requires OwnersOk(spec, owner, flights)
    requires Exchanges(owner, owner', id, spec.own(f))
    ensures OwnersOk(spec, owner', flights[id := f])
  {
    var flights' := flights[id := f];
    forall j, sl | j in flights' && sl in spec.own(flights'[j]) ensures sl in owner' && owner'[sl] == j {
      if j != id {
        assert owner[sl] == j;
      }
    }
  }

  lemma OwnersAfterRemoval(spec: Spec, owner: map<Slot, nat>, flights: map<nat, Flight>, id: nat)
    requires OwnersOk(spec, owner, flights) && id in flights
    ensures OwnersOk(spec, owner - spec.own(flights[id]), flights - {id})
  {
    var owner', flights' := owner - spec.own(flights[id]), flights - {id};
    forall j, sl | j in flights' && sl in spec.own(flights'[j]) ensures sl in owner' && owner'[sl] == j {
      assert j in flights && owner[sl] == j;
    }
    forall sl | sl in owner' ensures owner'[sl] in flights' && sl in spec.own(flights'[owner'[sl]]) {
      assert sl in owner;
    }
  }

  lemma QueuesAfterUpdate(queues: map<QueueId, seq<nat>>, flights: map<nat, Flight>, id: nat, f: Flight)
    requires QueuesOk(queues, flights)
    requires id in flights ==> !flights[id].stage.Queued?
    requires !f.stage.Queued?
    ensures QueuesOk(queues, flights[id := f])
  {
  }

  lemma QueuesAfterPut(queues: map<QueueId, seq<nat>>, flights: map<nat, Flight>, id: nat, f: Flight, q: QueueId)
    requires QueuesOk(queues, flights)
    requires id in flights && !flights[id].stage.Queued? && f.stage == Queued(q)
    ensures QueuesOk(queues[q := (if q in queues then queues[q] else []) + [id]], flights[id := f])
  {
    var ids := if q in queues then queues[q] else [];
    var queues', flights' := queues[q := ids + [id]], flights[id := f];
    assert id !in ids;
    forall j | j in flights' && flights'[j].stage.Queued?
      ensures flights'[j].stage.q in queues' && j in queues'[flights'[j].stage.q]
    {
      if j == id {
        assert queues'[q][|ids|] == id;
      } else {
        assert j in queues[flights[j].stage.q];
      }
    }
    forall k, j | k in queues' && j in queues'[k] ensures j in flights' && flights'[j].stage == Queued(k) {
      if j != id { assert k in queues && j in queues[k]; }
    }
  }

  lemma QueuesAfterTake(queues: map<QueueId, seq<nat>>, flights: map<nat, Flight>, q: QueueId, f: Flight)
    requires QueuesOk(queues, flights)
    requires q in queues && queues[q] != [] && !f.stage.Queued?
    ensures QueuesOk(queues[q := queues[q][1..]], flights[queues[q][0] := f])
  {
    var id := queues[q][0];
    var queues', flights' := queues[q := queues[q][1..]], flights[id := f];
    assert queues[q] == [id] + queues'[q];
    forall k, j | k in queues' && j in queues'[k] ensures j in flights' && flights'[j].stage == Queued(k) {
      assert j in queues[k] && flights[j].stage == Queued(k);
      assert queues[q][0] == id && flights[id].stage == Queued(q);
      if k == q {
        var i :| 0 <= i < |queues'[q]| && queues'[q][i] == j;
        assert queues[q][i + 1] == j;
      }
      assert j != id;
    }
    forall j | j in flights' && flights'[j].stage.Queued?
      ensures flights'[j].stage.q in queues' && j in queues'[flights'[j].stage.q]
    {
      assert flights[j].stage == flights'[j].stage;
    }
  }

  // ----------------------------------------------------------------- operations

  /** Message `f` may move to `g`: it then owns `slots`, and what must be true of it is. */
  ghost predicate Fits(spec: Spec, mem: Memory, g: Flight, slots: set<Slot>) {
    spec.own(g) == slots && spec.ok(mem, g) && !g.stage.Queued?
  }

  /** An operation is legal for a message when it touches only slots the message owns (or a clear one
      it is granted) and leaves the message owning what it then holds. */
  ghost predicate Legal(spec: Spec, owner: map<Slot, nat>, mem: Memory, f: Flight, op: Op) {
    match op
    case Continue(stage) => Fits(spec, mem, f.(stage := stage), spec.own(f))
    case Alloc(pool, granted, refused) =>
      var i := FirstFree(spec.cfg, owner, pool, 0);
      if i < 0 then Fits(spec, mem, f.(stage := refused), spec.own(f))
      else Fits(spec, mem, f.(stage := granted(i)), spec.own(f) + {Slot(pool, i)})
    case Free(slots, stage) =>
      slots <= spec.own(f) && Fits(spec, mem, f.(stage := stage), spec.own(f) - slots)
    case Write(slot, data, stage) =>
      slot in spec.own(f) && Fits(spec, Store(spec.cfg, mem, slot, data), f.(stage := stage), spec.own(f))
    case Enqueue(q, x) =>
      var g := f.(desc := x, stage := Queued(q));
      spec.own(g) == spec.own(f) && spec.ok(mem, g)
    case Answer(_, _) =>
      Fits(spec, mem, f.(stage := Replied), spec.own(f)) && Fits(spec, mem, f.(stage := Orphaned), spec.own(f))
    case Leave(slots, o) => slots == spec.own(f) && spec.good(o)
  }

  /** Message `id` becomes `f` without touching a queue. */
  lemma UpdateKeeps(spec: Spec, s: State, s': State, id: nat, f: Flight)
    requires Framed(spec) && Inv(spec, s) && id in s.flights && !s.flights[id].stage.Queued? && !f.stage.Queued?
    requires s'.flights == s.flights[id := f]
    requires s'.queues == s.queues && s'.next == s.next && s'.outcomes == s.outcomes
    requires Exchanges(s.owner, s'.owner, id, spec.own(f))
    requires MemOk(spec.cfg, s'.mem) && spec.ok(s'.mem, f)
    requires forall sl | sl !in spec.own(s.flights[id]) :: Contents(spec.cfg, s'.mem, sl) == Contents(spec.cfg, s.mem,
      sl)
    ensures Inv(spec, s')
  {
    OwnersAfterUpdate(spec, s.owner, s'.owner, s.flights, id, f);
    QueuesAfterUpdate(s.queues, s.flights, id, f);
    forall j | j in s.flights && j != id ensures spec.own(s.flights[j]) !! spec.own(s.flights[id]) {
      assert forall sl | sl in spec.own(s.flights[j]) :: s.owner[sl] == j;
    }
    FlightsAfterUpdate(spec, s.mem, s'.mem, s.flights, id, f, spec.own(s.flights[id]));
  }

  lemma EnqueueKeeps(spec: Spec, s: State, id: nat, op: Op)
    requires Framed(spec) && Inv(spec, s) && id in s.flights && !s.flights[id].stage.Queued?
    requires op.Enqueue? && |Queue(s, op.q)| < Capacity(spec.cfg, op.q)
    requires Legal(spec, s.owner, s.mem, s.flights[id], op)
    ensures Inv(spec, Perform(spec.cfg, s, id, op))
  {
    var s' := Perform(spec.cfg, s, id, op);
    OwnersAfterUpdate(spec, s.owner, s.owner, s.flights, id, s'.flights[id]);
    QueuesAfterPut(s.queues, s.flights, id, s'.flights[id], op.q);
    FlightsAfterUpdate(spec, s.mem, s.mem, s.flights, id, s'.flights[id], {});
  }

  lemma LeaveKeeps(spec: Spec, s: State, id: nat, op: Op)
    requires Inv(spec, s) && id in s.flights && !s.flights[id].stage.Queued?
    requires op.Leave? && Legal(spec, s.owner, s.mem, s.flights[id], op)
    ensures Inv(spec, Perform(spec.cfg, s, id, op))
  {
    OwnersAfterRemoval(spec, s.owner, s.flights, id);
  }

  lemma WriteKeeps(spec: Spec, s: State, id: nat, op: Op)
    requires Framed(spec) && Inv(spec, s) && id in s.flights && !s.flights[id].stage.Queued?
    requires op.Write? && Legal(spec, s.owner, s.mem, s.flights[id], op)
    ensures Inv(spec, Perform(spec.cfg, s, id, op))
  {
    var s' := Perform(spec.cfg, s, id, op);
    StoreEffect(spec.cfg, s.mem, op.slot, op.data);
    UpdateKeeps(spec, s, s', id, s'.flights[id]);
  }

  lemma AllocKeeps(spec: Spec, s: State, id: nat, op: Op)
    requires Framed(spec) && Inv(spec, s) && id in s.flights && !s.flights[id].stage.Queued?
    requires op.Alloc? && Legal(spec, s.owner, s.mem, s.flights[id], op)
    ensures Inv(spec, Perform(spec.cfg, s, id, op))
  {
    var s' := Perform(spec.cfg, s, id, op);
    UpdateKeeps(spec, s, s', id, s'.flights[id]);
  }

  lemma FreeKeeps(spec: Spec, s: State, id: nat, op: Op)
    requires Framed(spec) && Inv(spec, s) && id in s.flights && !s.flights[id].stage.Queued?
    requires op.Free? && Legal(spec, s.owner, s.mem, s.flights[id], op)
    ensures Inv(spec, Perform(spec.cfg, s, id, op))
  {
    var s' := Perform(spec.cfg, s, id, op);
    UpdateKeeps(spec, s, s', id, s'.flights[id]);
  }

  /** A message that only changes its stage keeps its slots. */
  lemma StageKeeps(spec: Spec, s: State, s': State, id: nat, stage: Stage)
    requires Framed(spec) && Inv(spec, s) && id in s.flights && !s.flights[id].stage.Queued?
    requires Fits(spec, s.mem, s.flights[id].(stage := stage), spec.own(s.flights[id]))
    requires s' == Go(s, id, stage).(waiting := s'.waiting)
    ensures Inv(spec, s')
  {
    UpdateKeeps(spec, s, s', id, s.flights[id].(stage := stage));
  }

  lemma LocalKeeps(spec: Spec, s: State, id: nat, op: Op)
    requires Framed(spec) && Inv(spec, s) && id in s.flights && !s.flights[id].stage.Queued?
    requires (op.Continue? || op.Answer?) && Legal(spec, s.owner, s.mem, s.flights[id], op)
    ensures Inv(spec, Perform(spec.cfg, s, id, op))
  {
    var s' := Perform(spec.cfg, s, id, op);
    if op.Continue? { StageKeeps(spec, s, s', id, op.stage); }
    else if (op.pod, op.index) in s.waiting { StageKeeps(spec, s, s', id, Replied); }
    else { StageKeeps(spec, s, s', id, Orphaned); }
  }

  /** Legal operations keep the invariant. */
  lemma OpKeeps(spec: Spec, s: State, id: nat, op: Op)
    requires Framed(spec) && Inv(spec, s) && id in s.flights && !s.flights[id].stage.Queued?
    requires op.Enqueue? ==> |Queue(s, op.q)| < Capacity(spec.cfg, op.q)
    requires Legal(spec, s.owner, s.mem, s.flights[id], op)
    ensures Inv(spec, Perform(spec.cfg, s, id, op))
  {
    if op.Leave? { LeaveKeeps(spec, s, id, op); }
    else if op.Enqueue? { EnqueueKeeps(spec, s, id, op); }
    else if op.Write? { WriteKeeps(spec, s, id, op); }
    else if op.Alloc? { AllocKeeps(spec, s, id, op); }
    else if op.Free? { FreeKeeps(spec, s, id, op); }
    else { LocalKeeps(spec, s, id, op); }
  }

  /** A message with nothing at stake changes stage or descriptor in place. */
  lemma MoveKeeps(spec: Spec, s: State, id: nat, f: Flight)
    requires Framed(spec) && Inv(spec, s) && id in s.flights && !s.flights[id].stage.Queued?
    requires Fits(spec, s.mem, f, spec.own(s.flights[id]))
    ensures Inv(spec, s.(flights := s.flights[id := f]))
  {
    UpdateKeeps(spec, s, s.(flights := s.flights[id := f]), id, f);
  }

  /** A new message enters with its first slot. */
  lemma BeginKeeps(spec: Spec, s: State, s': State, f: Flight, sl: Slot)
    requires Framed(spec) && Inv(spec, s)
    requires sl !in s.owner && s'.owner == s.owner[sl := s.next]
    requires s'.flights == s.flights[s.next := f] && s'.next == s.next + 1
    requires s'.mem == s.mem && s'.queues == s.queues && s'.outcomes == s.outcomes
    requires Fits(spec, s.mem, f, {sl})
    ensures Inv(spec, s')
  {
    assert s.next !in s.flights && s.next !in s.outcomes;
    OwnersAfterUpdate(spec, s.owner, s'.owner, s.flights, s.next, f);
    QueuesAfterUpdate(s.queues, s.flights, s.next, f);
    FlightsAfterUpdate(spec, s.mem, s.mem, s.flights, s.next, f, {});
  }

  /** A message turned away at the door leaves no trace but its outcome. */
  lemma RefuseKeeps(spec: Spec, s: State, s': State, o: Outcome)
    requires Inv(spec, s) && spec.good(o)
    requires s' == s.(next := s.next + 1, outcomes := s.outcomes[s.next := o], waiting := s'.waiting)
    ensures Inv(spec, s')
  {
    assert s.next !in s.flights && s.next !in s.outcomes;
  }

  /** A worker's write either enters with a header slot or is turned away. */
  lemma BeginWriteKeeps(spec: Spec, s: State, m: Msg)
    requires Framed(spec) && Inv(spec, s) && spec.good(Refused(m))
    requires var pool := HostTxHeader(Service(spec.cfg, m.pod));
      var h := FirstFree(spec.cfg, s.owner, pool, 0);
      h >= 0 ==> Fits(spec, s.mem, Flight(m, NoDesc, WriteHeader(h, false)), {Slot(pool, h)})
    ensures Inv(spec, BeginWriteStep(spec.cfg, s, m))
  {
    var pool := HostTxHeader(Service(spec.cfg, m.pod));
    var h := FirstFree(spec.cfg, s.owner, pool, 0);
    var s' := BeginWriteStep(spec.cfg, s, m);
    if h < 0 { RefuseKeeps(spec, s, s', Refused(m)); }
    else { BeginKeeps(spec, s, s', s'.flights[s.next], Slot(pool, h)); }
  }

  /** A bridge client's request likewise. */
  lemma BeginInjectKeeps(spec: Spec, s: State, m: Msg)
    requires Framed(spec) && Inv(spec, s) && spec.good(Refused(m))
    requires var b := FirstFree(spec.cfg, s.owner, DpuRxBody, 0);
      b >= 0 ==> Fits(spec, s.mem, Flight(m, NoDesc, Inject(b, false)), {Slot(DpuRxBody, b)})
    ensures Inv(spec, BeginInjectStep(spec.cfg, s, m))
  {
    var b := FirstFree(spec.cfg, s.owner, DpuRxBody, 0);
    var s' := BeginInjectStep(spec.cfg, s, m);
    if b < 0 { RefuseKeeps(spec, s, s', Refused(m)); }
    else { BeginKeeps(spec, s, s', s'.flights[s.next], Slot(DpuRxBody, b)); }
  }

  /** The message at the front of a queue goes to the thread that takes it. */
  lemma TakeKeeps(spec: Spec, s: State, q: QueueId, stage: Stage)
    requires Framed(spec) && Inv(spec, s) && Queue(s, q) != [] && Queue(s, q)[0] in s.flights
    requires var f := s.flights[Queue(s, q)[0]]; Fits(spec, s.mem, f.(stage := stage), spec.own(f))
    ensures Inv(spec, Go(s.(queues := s.queues[q := Queue(s, q)[1..]]), Queue(s, q)[0], stage))
  {
    var id := s.queues[q][0];
    var f := s.flights[id].(stage := stage);
    OwnersAfterUpdate(spec, s.owner, s.owner, s.flights, id, f);
    QueuesAfterTake(s.queues, s.flights, q, f);
    FlightsAfterUpdate(spec, s.mem, s.mem, s.flights, id, f, {});
  }

  // ----------------------------------------------------------------- memory

  /** Storing changes one slot and leaves it holding the data. */
  lemma StoreEffect(cfg: Config, mem: Memory, sl: Slot, data: Bytes)
    requires MemOk(cfg, mem)
    ensures MemOk(cfg, Store(cfg, mem, sl, data))
    ensures |data| <= cfg.slotSize ==> Holds(cfg, Store(cfg, mem, sl, data), sl, data)
    ensures forall t | t != sl :: Contents(cfg, Store(cfg, mem, sl, data), t) == Contents(cfg, mem, t)
  {
  }

  /** Loading no more bytes than a slot is known to hold gives those bytes. */
  lemma LoadEffect(cfg: Config, mem: Memory, sl: Slot, len: nat, data: Bytes)
    requires MemOk(cfg, mem)
    ensures |Load(cfg, mem, sl, len)| == Min(len, cfg.slotSize)
    ensures Holds(cfg, mem, sl, data) && len <= |data| ==> Load(cfg, mem, sl, len) == data[..len]
  {
  }

  // ----------------------------------------------------------------- counting

  /** The slots of one pool. */
  function PoolSlots(cfg: Config, pool: PoolId): (r: set<Slot>)
    ensures forall sl :: sl in r <==> sl.pool == pool && 0 <= sl.index < cfg.numSlots
    ensures |r| == cfg.numSlots
  {
    SlotsBelow(pool, cfg.numSlots)
  }

  function SlotsBelow(pool: PoolId, n: nat): (r: set<Slot>)
    ensures forall sl :: sl in r <==> sl.pool == pool && 0 <= sl.index < n
    ensures |r| == n
  {
    if n == 0 then {} else SlotsBelow(pool, n - 1) + {Slot(pool, n - 1)}
  }

  /** Different messages, each the owner of its own anchor slot: no more messages than slots. */
  lemma {:induction false} Anchored(owner: map<Slot, nat>, ids: seq<nat>, anchor: nat -> Slot, slots: set<Slot>)
    requires Distinct(ids)
    requires forall id | id in ids :: anchor(id) in slots && anchor(id) in owner && owner[anchor(id)] == id
    ensures |ids| <= |slots|
    decreases |ids|
  {
    if ids != [] {
      var last := ids[|ids| - 1];
      var front := ids[..|ids| - 1];
      forall id | id in front ensures anchor(id) in slots - {anchor(last)} {
        assert owner[anchor(id)] == id && id != last;
      }
      Anchored(owner, front, anchor, slots - {anchor(last)});
    }
  }

  /** If every message fit for queue `q` owns an anchor among `slots`, the queue is no longer than that. */
  ghost predicate AnchoredIn(spec: Spec, mem: Memory, q: QueueId, anchor: Flight -> Slot, slots: set<Slot>) {
    forall g: Flight | g.stage == Queued(q) && spec.ok(mem, g) :: anchor(g) in spec.own(g) && anchor(g) in slots
  }

  lemma QueueBounded(spec: Spec, s: State, q: QueueId, anchor: Flight -> Slot, slots: set<Slot>)
    requires Inv(spec, s) && AnchoredIn(spec, s.mem, q, anchor, slots)
    ensures |Queue(s, q)| <= |slots|
  {
    var at := (j: nat) => if j in s.flights then anchor(s.flights[j]) else Slot(DpuTxBody, 0);
    forall j | j in Queue(s, q) ensures at(j) in slots && at(j) in s.owner && s.owner[at(j)] == j {
      assert spec.ok(s.mem, s.flights[j]);
      assert at(j) in spec.own(s.flights[j]);
    }
    Anchored(s.owner, Queue(s, q), at, slots);
  }

  /** A message outside queue `q` that owns an anchor like those inside leaves room for itself. */
  lemma RoomLeft(spec: Spec, s: State, q: QueueId, id: nat, f: Flight, anchor: Flight -> Slot, slots: set<Slot>)
    requires Inv(spec, s) && id in s.flights && !s.flights[id].stage.Queued?
    requires f.stage == Queued(q) && spec.ok(s.mem, f) && spec.own(f) == spec.own(s.flights[id])
    requires AnchoredIn(spec, s.mem, q, anchor, slots)
    ensures |Queue(s, q)| < |slots|
  {
    var ids := Queue(s, q) + [id];
    var at := (j: nat) => if j != id && j in s.flights then anchor(s.flights[j]) else anchor(f);
    assert id !in Queue(s, q);
    forall j | j in ids ensures at(j) in slots && at(j) in s.owner && s.owner[at(j)] == j {
      assert j != id ==> j in Queue(s, q) && spec.ok(s.mem, s.flights[j]);
      assert at(j) in spec.own(s.flights[j]);
    }
    Anchored(s.owner, ids, at, slots);
  }

  /** The allocated slots of a pool. */
  function Used(owner: map<Slot, nat>, pool: PoolId): set<Slot> {
    set sl | sl in owner && sl.pool == pool
  }

  lemma {:induction false} Injection(xs: set<Slot>, ys: set<Slot>, f: Slot -> Slot)
    requires forall x | x in xs :: f(x) in ys
    requires forall x, y | x in xs && y in xs && x != y :: f(x) != f(y)
    ensures |xs| <= |ys|
    decreases |xs|
  {
    if xs != {} {
      var x :| x in xs;
      Injection(xs - {x}, ys - {f(x)}, f);
    }
  }

  /** Whoever owns a slot of pool `p` owns one only, and with it the mate in pool `q`. */
  ghost predicate Paired(spec: Spec, mem: Memory, p: PoolId, q: PoolId, mate: Flight -> Slot) {
    forall f: Flight, sl: Slot {:trigger spec.own(f), sl.pool} |
      spec.ok(mem, f) && sl in spec.own(f) && sl.pool == p ::
      && mate(f) in spec.own(f) && mate(f).pool == q
      && forall t | t in spec.own(f) && t.pool == p :: t == sl
  }

  function MateAt(s: State, mate: Flight -> Slot, sl: Slot): Slot {
    if sl in s.owner && s.owner[sl] in s.flights then mate(s.flights[s.owner[sl]]) else sl
  }

  lemma MateOwned(spec: Spec, s: State, p: PoolId, q: PoolId, mate: Flight -> Slot, x: Slot)
    requires Inv(spec, s) && Paired(spec, s.mem, p, q, mate) && x in Used(s.owner, p)
    ensures var y := MateAt(s, mate, x); y in Used(s.owner, q) && s.owner[y] == s.owner[x]
    ensures forall t | t in Used(s.owner, p) && s.owner[t] == s.owner[x] :: t == x
    ensures !forall t | t in spec.own(s.flights[s.owner[x]]) :: t.pool != p
  {
    var f := s.flights[s.owner[x]];
    assert spec.ok(s.mem, f) && x in spec.own(f) && x.pool == p;
    assert mate(f) in spec.own(f);
  }

  /** Then no more slots of `p` than of `q` are in use, and fewer once somebody owns a mate alone. */
  lemma PairedCounts(spec: Spec, s: State, p: PoolId, q: PoolId, mate: Flight -> Slot, alone: set<Slot>)
    requires Inv(spec, s) && Paired(spec, s.mem, p, q, mate)
    requires forall sl | sl in alone ::
      sl in s.owner && sl.pool == q && forall t | t in spec.own(s.flights[s.owner[sl]]) :: t.pool != p
    ensures |Used(s.owner, p)| + |alone| <= |Used(s.owner, q)|
  {
    var xs, ys := Used(s.owner, p), Used(s.owner, q);
    forall x | x in xs ensures MateAt(s, mate, x) in ys - alone {
      MateOwned(spec, s, p, q, mate, x);
    }
    forall x, y | x in xs && y in xs && x != y ensures MateAt(s, mate, x) != MateAt(s, mate, y) {
      MateOwned(spec, s, p, q, mate, x);
      MateOwned(spec, s, p, q, mate, y);
    }
    Injection(xs, ys - alone, x => MateAt(s, mate, x));
    assert alone <= ys;
    assert |ys - alone| == |ys| - |alone|;
  }

  /** A pool is full exactly when all its slots are in use; then allocation is refused. */
  lemma FullPool(cfg: Config, owner: map<Slot, nat>, pool: PoolId)
    ensures FirstFree(cfg, owner, pool, 0) < 0 <==> PoolSlots(cfg, pool) <= Used(owner, pool)
    ensures FirstFree(cfg, owner, pool, 0) < 0 ==> |Used(owner, pool)| >= cfg.numSlots
  {
    var i := FirstFree(cfg, owner, pool, 0);
    if i < 0 {
      forall sl | sl in PoolSlots(cfg, pool) ensures sl in Used(owner, pool) {
        assert sl == Slot(pool, sl.index);
      }
      assert |Used(owner, pool)| == |PoolSlots(cfg, pool)| + |Used(owner, pool) - PoolSlots(cfg, pool)|;
    } else {
      assert Slot(pool, i) in PoolSlots(cfg, pool) && Slot(pool, i) !in owner;
    }
  }
}
