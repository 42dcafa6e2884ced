/** The generational session table behind worker handles (`makeSessionTable`).

A handle packs a generation (1..255) above a 23-bit slot number.  Slots that become empty are
queued and reused oldest first; emptying a slot moves its generation one step round a cycle of
255.  The specification is the value type `Table`; `Sessions` is the object that updates the same
fields in place.
 */
module SessionTable {
  import opened Containers

  const SLOTS := 0x80_0000
  const GENERATIONS := 255
  const COMPACT_AT := 1024

  datatype Entry<+T> = Entry(gen: nat, state: Option<T>)

  datatype Table<+T> = Table(entries: seq<Entry<T>>, free: seq<nat>, freeHead: nat)

  // ----- Handles -----

  /** The handle of slot `slot` in generation `gen`. */
  function Handle(gen: nat, slot: nat): int { gen * SLOTS + slot }

  /** The slot bits of a handle. */
  function SlotOf(id: int): nat { id % SLOTS }

  /** The generation bits of a handle, read as an unsigned 32-bit shift. */
  function GenOf(id: int): nat { id % 0x1_0000_0000 / SLOTS }

  /** Shifting and masking on 32-bit words agree with the arithmetic used here. */
  lemma {:induction false} HandleBits(gen: bv32, slot: bv32)
    requires 1 <= gen <= 255 && slot <= 0x7f_ffff
    ensures (gen << 23) | slot == gen * 0x80_0000 + slot
    ensures ((gen << 23) | slot) & 0x7f_ffff == slot
    ensures ((gen << 23) | slot) >> 23 == gen
    ensures 0 < (gen << 23) | slot <= 0x7fff_ffff
  {
  }

  lemma {:induction false} HandleDecodes(gen: nat, slot: nat)
    requires 1 <= gen <= GENERATIONS && slot < SLOTS
    ensures 0 < Handle(gen, slot) < 0x8000_0000
    ensures SlotOf(Handle(gen, slot)) == slot && GenOf(Handle(gen, slot)) == gen
  {
  }

  /** A positive i32 is the handle of its own slot and generation. */
  lemma {:induction false} HandleEncodes(id: int)
    requires 0 < id < 0x8000_0000
    ensures Handle(GenOf(id), SlotOf(id)) == id
  {
  }

  // ----- Table operations -----

  predicate Occupied<T>(t: Table<T>, slot: nat) {
    slot < |t.entries| && t.entries[slot].state.Some?
  }

  /** The queue of reusable slots, oldest first. */
  function Queue<T>(t: Table<T>): seq<nat>
    requires t.freeHead <= |t.free|
  {
    t.free[t.freeHead..]
  }

  ghost predicate Valid<T>(t: Table<T>) {
    && |t.entries| <= SLOTS
    && t.freeHead <= |t.free|
    && (t.freeHead < COMPACT_AT || t.freeHead * 2 < |t.free|)
    && (forall i :: 0 <= i < |t.entries| ==> 1 <= t.entries[i].gen <= GENERATIONS)
    && (forall i, j :: 0 <= i < j < |Queue(t)| ==> Queue(t)[i] != Queue(t)[j])
    && (forall slot: nat :: slot in Queue(t) <==> slot < |t.entries| && t.entries[slot].state.None?)
  }

  function Empty<T>(): Table<T> { Table([], [], 0) }

  function Compact(free: seq<nat>, freeHead: nat): (seq<nat>, nat)
    requires freeHead <= |free|
  {
    if freeHead >= COMPACT_AT && freeHead * 2 >= |free| then (free[freeHead..], 0) else (free, freeHead)
  }

  /** Puts `state` in the oldest reusable slot, or in a new one; handle 0 means the table is full. */
  function Insert<T>(t: Table<T>, state: T): (r: (Table<T>, int))
    requires Valid(t)
  {
    if t.freeHead < |t.free| then
      var slot := t.free[t.freeHead];
      assert slot == Queue(t)[0] && slot in Queue(t);
      var (free, freeHead) := Compact(t.free, t.freeHead + 1);
      var gen := t.entries[slot].gen;
      (Table(t.entries[slot := Entry(gen, Some(state))], free, freeHead), Handle(gen, slot))
    else if |t.entries| >= SLOTS then (t, 0)
    else (t.(entries := t.entries + [Entry(1, Some(state))]), Handle(1, |t.entries|))
  }

  function Get<T>(t: Table<T>, id: int): Option<T> {
    if id > 0 && Occupied(t, SlotOf(id)) && t.entries[SlotOf(id)].gen == GenOf(id)
    then t.entries[SlotOf(id)].state
    else None
  }

  function NextGen(gen: nat): nat { if gen == GENERATIONS then 1 else gen + 1 }

  function Remove<T>(t: Table<T>, id: int): Table<T> {
    if Get(t, id).None? then t
    else
      var slot := SlotOf(id);
      t.(entries := t.entries[slot := Entry(NextGen(t.entries[slot].gen), None)], free := t.free + [slot])
  }

  // ----- What each operation keeps -----

  lemma {:induction false} EmptyValid<T>()
    ensures Valid(Empty<T>())
  {
  }

  lemma {:induction false} InsertValid<T>(t: Table<T>, state: T)
    requires Valid(t)
    ensures Valid(Insert(t, state).0)
    ensures Queue(Insert(t, state).0) == if Queue(t) == [] then [] else Queue(t)[1..]
  {
    if t.freeHead < |t.free| {
      var q := Queue(t);
      assert q[0] == t.free[t.freeHead] && q[0] in q;
      var t' := Insert(t, state).0;
      assert Queue(t') == q[1..];
      forall slot: nat
        ensures slot in Queue(t') <==> slot < |t'.entries| && t'.entries[slot].state.None?
      {
        assert slot in q <==> slot == q[0] || slot in q[1..];
      }
    }
  }

  lemma {:induction false} RemoveValid<T>(t: Table<T>, id: int)
    requires Valid(t)
    ensures Valid(Remove(t, id))
    ensures Queue(Remove(t, id)) == if Get(t, id).Some? then Queue(t) + [SlotOf(id)] else Queue(t)
  {
    if Get(t, id).Some? {
      var t' := Remove(t, id);
      assert Queue(t') == Queue(t) + [SlotOf(id)];
      assert SlotOf(id) !in Queue(t);
    }
  }

  // ----- The table as a partial map from handles to sessions -----

  /** Every handle `Get` answers is a positive i32. */
  lemma {:induction false} GetIsHandle<T>(t: Table<T>, id: int)
    requires Valid(t) && 0 < id < 0x8000_0000
    ensures Get(t, id).Some? <==>
            exists slot: nat :: Occupied(t, slot) && id == Handle(t.entries[slot].gen, slot)
  {
    HandleEncodes(id);
    forall slot: nat | Occupied(t, slot) && id == Handle(t.entries[slot].gen, slot)
      ensures Get(t, id).Some?
    {
      HandleDecodes(t.entries[slot].gen, slot);
    }
  }

  /** An issued handle is a fresh positive i32, and storing under it changes nothing else. */
  lemma {:induction false} InsertMeans<T>(t: Table<T>, state: T, other: int)
    requires Valid(t)
    ensures Insert(t, state).1 == 0 <==> Queue(t) == [] && |t.entries| == SLOTS
    ensures Insert(t, state).1 == 0 ==> Insert(t, state).0 == t
    ensures Insert(t, state).1 != 0 ==>
              && 0 < Insert(t, state).1 < 0x8000_0000
              && Get(t, Insert(t, state).1) == None
              && Get(Insert(t, state).0, Insert(t, state).1) == Some(state)
    ensures 0 < other < 0x8000_0000 && other != Insert(t, state).1 ==>
              Get(Insert(t, state).0, other) == Get(t, other)
  {
    var (t', id) := Insert(t, state);
    if Queue(t) != [] || |t.entries| < SLOTS {
      var slot, gen := Occupies(t, state);
      HandleDecodes(gen, slot);
      if 0 < other < 0x8000_0000 && other != id {
        OtherLookup(t.entries, t'.entries, slot, gen, other);
        SameLookup(t, t', other);
      }
    }
  }

  /** The slot that an insertion takes, and what becomes of the entries. */
  ghost predicate Takes<T>(before: seq<Entry<T>>, after: seq<Entry<T>>, slot: nat, gen: nat, state: T) {
    && slot <= |before| && slot < |after| == (if slot < |before| then |before| else slot + 1)
    && (slot < |before| ==> before[slot].state == None)
    && after[slot] == Entry(gen, Some(state))
    && (forall i :: 0 <= i < |before| && i != slot ==> after[i] == before[i])
  }

  lemma {:induction false} Occupies<T>(t: Table<T>, state: T) returns (slot: nat, gen: nat)
    requires Valid(t) && (Queue(t) != [] || |t.entries| < SLOTS)
    ensures Takes(t.entries, Insert(t, state).0.entries, slot, gen, state)
    ensures slot < SLOTS && 1 <= gen <= GENERATIONS && Insert(t, state).1 == Handle(gen, slot)
  {
    if t.freeHead < |t.free| {
      slot := t.free[t.freeHead];
      assert slot == Queue(t)[0] && slot in Queue(t);
      gen := t.entries[slot].gen;
    } else {
      slot, gen := |t.entries|, 1;
    }
  }

  /** Whether `id` finds an entry depends on the entry of its slot alone. */
  predicate Finds<T>(entries: seq<Entry<T>>, id: int) {
    SlotOf(id) < |entries| && entries[SlotOf(id)].state.Some? && entries[SlotOf(id)].gen == GenOf(id)
  }

  lemma {:induction false} OtherLookup<T>(before: seq<Entry<T>>, after: seq<Entry<T>>, slot: nat, gen: nat, other: int)
    requires exists state :: Takes(before, after, slot, gen, state)
    requires 0 < other < 0x8000_0000 && other != Handle(gen, slot)
    ensures Finds(after, other) <==> Finds(before, other)
    ensures Finds(before, other) ==> after[SlotOf(other)] == before[SlotOf(other)]
  {
    HandleEncodes(other);
  }

  lemma {:induction false} SameLookup<T>(t: Table<T>, t': Table<T>, other: int)
    requires 0 < other && (Finds(t'.entries, other) <==> Finds(t.entries, other))
    requires Finds(t.entries, other) ==> t'.entries[SlotOf(other)] == t.entries[SlotOf(other)]
    ensures Get(t', other) == Get(t, other)
  {
  }

  /** Removing a live handle makes exactly that handle miss. */
  lemma {:induction false} RemoveMeans<T>(t: Table<T>, id: int, other: int)
    requires Valid(t)
    ensures Get(Remove(t, id), id) == None
    ensures 0 < id < 0x8000_0000 && 0 < other < 0x8000_0000 && other != id ==>
              Get(Remove(t, id), other) == Get(t, other)
  {
    if Get(t, id).Some? && 0 < id < 0x8000_0000 && 0 < other < 0x8000_0000 {
      HandleEncodes(id);
      HandleEncodes(other);
    }
  }

  /** The table as a map: its live handles and the sessions stored under them. */
  ghost function LiveMap<T>(t: Table<T>): map<int, T> {
    map id | id in LiveIds(t) && Get(t, id).Some? :: Get(t, id).value
  }

  ghost function LiveIds<T>(t: Table<T>): set<int> {
    set slot | 0 <= slot < |t.entries| && Occupied(t, slot) :: Handle(t.entries[slot].gen, slot)
  }

  /** `id` is a 32-bit signed integer, as every handle the guest passes in is. */
  predicate IsI32(id: int) { -0x8000_0000 <= id < 0x8000_0000 }

  lemma {:induction false} LiveMapGet<T>(t: Table<T>, id: int)
    requires Valid(t)
    ensures id in LiveMap(t) ==> 0 < id < 0x8000_0000
    ensures IsI32(id) ==> Get(t, id) == if id in LiveMap(t) then Some(LiveMap(t)[id]) else None
  {
    if 0 < id < 0x8000_0000 {
      GetIsHandle(t, id);
    }
    if id in LiveIds(t) {
      var slot :| 0 <= slot < |t.entries| && Occupied(t, slot) && id == Handle(t.entries[slot].gen, slot);
      HandleDecodes(t.entries[slot].gen, slot);
    }
  }

  lemma {:induction false} InsertLiveAt<T>(t: Table<T>, t': Table<T>, id: int, state: T, other: int)
    requires Valid(t) && (t', id) == Insert(t, state) && id != 0 && Valid(t')
    ensures other in LiveMap(t') <==> other == id || other in LiveMap(t)
    ensures other == id ==> LiveMap(t')[other] == state
    ensures other != id && other in LiveMap(t) ==> LiveMap(t')[other] == LiveMap(t)[other]
  {
    InsertMeans(t, state, other);
    LiveMapGet(t, other);
    LiveMapGet(t', other);
  }

  /** The table refines a map: inserting adds one fresh handle. */
  lemma {:induction false} InsertLive<T>(t: Table<T>, state: T)
    requires Valid(t)
    ensures var (t', id) := Insert(t, state);
            && Valid(t') && IsI32(id) && id >= 0
            && (if id == 0 then LiveMap(t') == LiveMap(t)
                else id !in LiveMap(t) && LiveMap(t') == LiveMap(t)[id := state])
  {
    var (t', id) := Insert(t, state);
    InsertValid(t, state);
    InsertMeans(t, state, 1);
    LiveMapGet(t, id);
    if id != 0 {
      MapsAgree(t, t', id, state);
    }
  }

  lemma {:induction false} MapsAgree<T>(t: Table<T>, t': Table<T>, id: int, state: T)
    requires Valid(t) && (t', id) == Insert(t, state) && id != 0 && Valid(t')
    ensures LiveMap(t') == LiveMap(t)[id := state]
  {
    var m, m' := LiveMap(t)[id := state], LiveMap(t');
    forall other
      ensures other in m' <==> other in m
      ensures other in m ==> m'[other] == m[other]
    {
      InsertLiveAt(t, t', id, state, other);
    }
  }

  lemma {:induction false} RemoveLiveAt<T>(t: Table<T>, t': Table<T>, id: int, other: int)
    requires Valid(t) && 0 < id < 0x8000_0000 && t' == Remove(t, id) && Valid(t')
    ensures other in LiveMap(t') <==> other != id && other in LiveMap(t)
    ensures other in LiveMap(t') ==> LiveMap(t')[other] == LiveMap(t)[other]
  {
    RemoveMeans(t, id, other);
    LiveMapGet(t, other);
    LiveMapGet(t', other);
  }

  /** The table refines a map: removing takes out exactly the given handle. */
  lemma {:induction false} RemoveLive<T>(t: Table<T>, id: int)
    requires Valid(t) && IsI32(id)
    ensures Valid(Remove(t, id)) && LiveMap(Remove(t, id)) == LiveMap(t) - {id}
  {
    RemoveValid(t, id);
    if id > 0 {
      MapsDiffer(t, Remove(t, id), id);
    } else {
      LiveMapGet(t, id);
      assert Remove(t, id) == t && LiveMap(t) - {id} == LiveMap(t);
    }
  }

  lemma {:induction false} MapsDiffer<T>(t: Table<T>, t': Table<T>, id: int)
    requires Valid(t) && 0 < id < 0x8000_0000 && t' == Remove(t, id) && Valid(t')
    ensures LiveMap(t') == LiveMap(t) - {id}
  {
    var m, m' := LiveMap(t) - {id}, LiveMap(t');
    forall other
      ensures other in m' <==> other in m
      ensures other in m ==> m'[other] == m[other]
    {
      RemoveLiveAt(t, t', id, other);
    }
  }

  // ----- Runs -----

  datatype Op<+T> = OpInsert(state: T) | OpRemove(id: int)

  function Apply<T>(t: Table<T>, op: Op<T>): (r: Table<T>)
    requires Valid(t)
    ensures Valid(r)
  {
    match op
    case OpInsert(state) => InsertValid(t, state); Insert(t, state).0
    case OpRemove(id) => RemoveValid(t, id); Remove(t, id)
  }

  function Run<T>(t: Table<T>, ops: seq<Op<T>>): (r: Table<T>)
    requires Valid(t)
    ensures Valid(r)
    decreases |ops|
  {
    if ops == [] then t else Run(Apply(t, ops[0]), ops[1..])
  }

  /** `op` empties `slot`. */
  predicate Empties<T>(t: Table<T>, op: Op<T>, slot: nat) {
    op.OpRemove? && Get(t, op.id).Some? && SlotOf(op.id) == slot
  }

  /** How often the run `ops` empties `slot`. */
  function Removals<T>(t: Table<T>, ops: seq<Op<T>>, slot: nat): nat
    requires Valid(t)
    decreases |ops|
  {
    if ops == [] then 0
    else (if Empties(t, ops[0], slot) then 1 else 0) + Removals(Apply(t, ops[0]), ops[1..], slot)
  }

  /** The generation `n` steps after `gen` on the cycle 1, 2, ..., 255, 1, ... */
  function Cycle(gen: nat, n: nat): nat
    requires 1 <= gen
  {
    (gen - 1 + n) % 255 + 1
  }

  lemma {:induction false} CycleStep(gen: nat, n: nat)
    requires 1 <= gen <= GENERATIONS
    ensures Cycle(NextGen(gen), n) == Cycle(gen, 1 + n) && Cycle(gen, 0) == gen
  {
  }

  lemma {:induction false} CycleNext(gen: nat, emptied: bool, n: nat)
    requires 1 <= gen <= GENERATIONS
    ensures Cycle(if emptied then NextGen(gen) else gen, n) == Cycle(gen, (if emptied then 1 else 0) + n)
    ensures Cycle(gen, 0) == gen
  {
    CycleStep(gen, n);
  }

  lemma {:induction false} CycleReturns(gen: nat, n: nat)
    requires 1 <= gen <= GENERATIONS
    ensures Cycle(gen, n) == gen <==> n % 255 == 0
  {
  }

  lemma {:induction false} CycleBack(gen: nat, n: nat)
    requires 1 <= gen <= GENERATIONS
    ensures Cycle(NextGen(gen), n) == gen <==> (1 + n) % 255 == 0
    ensures 1 + n < 255 ==> Cycle(NextGen(gen), n) != gen
  {
    CycleStep(gen, n);
    CycleReturns(gen, 1 + n);
  }

  lemma {:induction false} ApplyGeneration<T>(t: Table<T>, op: Op<T>, slot: nat)
    requires Valid(t) && slot < |t.entries|
    ensures slot < |Apply(t, op).entries|
    ensures Apply(t, op).entries[slot].gen ==
            if Empties(t, op, slot) then NextGen(t.entries[slot].gen) else t.entries[slot].gen
  {
  }

  /** What the first operation of a run does to a slot. */
  lemma {:induction false} FirstOp<T>(t: Table<T>, ops: seq<Op<T>>, slot: nat)
    returns (t': Table<T>, rest: seq<Op<T>>, emptied: bool)
    requires Valid(t) && slot < |t.entries| && ops != []
    ensures Valid(t') && slot < |t'.entries| && |rest| < |ops| && Run(t, ops) == Run(t', rest)
    ensures Removals(t, ops, slot) == (if emptied then 1 else 0) + Removals(t', rest, slot)
    ensures t'.entries[slot].gen == if emptied then NextGen(t.entries[slot].gen) else t.entries[slot].gen
  {
    ApplyGeneration(t, ops[0], slot);
    t', rest, emptied := Apply(t, ops[0]), ops[1..], Empties(t, ops[0], slot);
  }

  /** A slot's generation counts its removals round the cycle of 255. */
  lemma {:induction false} GenerationCountsRemovals<T>(t: Table<T>, ops: seq<Op<T>>, slot: nat)
    requires Valid(t) && slot < |t.entries|
    ensures slot < |Run(t, ops).entries|
    ensures Run(t, ops).entries[slot].gen == Cycle(t.entries[slot].gen, Removals(t, ops, slot))
    decreases |ops|
  {
    var gen := t.entries[slot].gen;
    if ops == [] {
      CycleNext(gen, false, 0);
    } else {
      var t', rest, emptied := FirstOp(t, ops, slot);
      GenerationCountsRemovals(t', rest, slot);
      CycleNext(gen, emptied, Removals(t', rest, slot));
    }
  }

  /** Once emptied, a slot is back in generation `gen` after every 255th removal and not before. */
  lemma {:induction false} GenerationReturns<T>(t: Table<T>, gen: nat, slot: nat, ops: seq<Op<T>>)
    requires Valid(t) && slot < |t.entries| && 1 <= gen <= GENERATIONS
    requires t.entries[slot].gen == NextGen(gen)
    ensures slot < |Run(t, ops).entries|
    ensures Run(t, ops).entries[slot].gen == gen <==> (1 + Removals(t, ops, slot)) % 255 == 0
    ensures 1 + Removals(t, ops, slot) < 255 ==> Run(t, ops).entries[slot].gen != gen
  {
    GenerationCountsRemovals(t, ops, slot);
    CycleBack(gen, Removals(t, ops, slot));
  }

  /** A removed handle answers again exactly when its slot is occupied and has been emptied a
  multiple of 255 times, counting the removal of the handle itself. */
  lemma {:induction false} StaleHandleMisses<T>(t: Table<T>, id: int, ops: seq<Op<T>>)
    requires Valid(t) && Get(t, id).Some?
    ensures var removed := Apply(t, OpRemove(id));
            var removals := 1 + Removals(removed, ops, SlotOf(id));
            && (Get(Run(removed, ops), id).Some? <==>
                  Occupied(Run(removed, ops), SlotOf(id)) && removals % 255 == 0)
            && (removals < 255 ==> Get(Run(removed, ops), id).None?)
  {
    var removed := Apply(t, OpRemove(id));
    GenerationReturns(removed, t.entries[SlotOf(id)].gen, SlotOf(id), ops);
  }

  // ----- The object -----

  class Sessions<T> {
    var entries: seq<Entry<T>>
    var free: seq<nat>
    var freeHead: nat

    function Model(): Table<T>
      reads this
    {
      Table(entries, free, freeHead)
    }

    constructor ()
      ensures Model() == Empty<T>() && Valid(Model())
    {
      entries, free, freeHead := [], [], 0;
    }

    method Add(state: T) returns (id: int)
      requires Valid(Model())
      modifies this
      ensures (Model(), id) == Insert(old(Model()), state)
      ensures Valid(Model())
    {
      InsertValid(Model(), state);
      var slot;
      if freeHead < |free| {
        slot := TakeFree();
      } else {
        slot := |entries|;
        if slot >= SLOTS {
          return 0;
        }
        entries := entries + [Entry(1, None)];
      }
      ghost var before := entries;
      entries := entries[slot := entries[slot].(state := Some(state))];
      assert before == old(entries) || entries == old(entries) + [Entry(1, Some(state))];
      id := Handle(entries[slot].gen, slot);
    }

    /** Takes the slot that has been free longest off the queue. */
    method TakeFree() returns (slot: nat)
      requires Valid(Model()) && freeHead < |free|
      modifies `free, `freeHead
      ensures slot == old(free[freeHead]) && slot < |entries|
      ensures (free, freeHead) == Compact(old(free), old(freeHead) + 1)
    {
      slot := free[freeHead];
      assert slot == Queue(Model())[0] && slot in Queue(Model());
      freeHead := freeHead + 1;
      if freeHead >= COMPACT_AT && freeHead * 2 >= |free| {
        free, freeHead := free[freeHead..], 0;
      }
    }

    method Lookup(id: int) returns (state: Option<T>)
      ensures state == Get(Model(), id)
    {
      if !(id > 0) || SlotOf(id) >= |entries| {
        return None;
      }
      var e := entries[SlotOf(id)];
      state := if e.state.Some? && e.gen == GenOf(id) then e.state else None;
    }

    method Drop(id: int) returns (state: Option<T>)
      requires Valid(Model())
      modifies this
      ensures state == Get(old(Model()), id)
      ensures Model() == Remove(old(Model()), id) && Valid(Model())
    {
      state := Lookup(id);
      if state.Some? {
        var slot := SlotOf(id);
        entries := entries[slot := Entry(NextGen(entries[slot].gen), None)];
        free := free + [slot];
      }
      assert Model() == Remove(old(Model()), id);
      RemoveValid(old(Model()), id);
    }
  }
}
