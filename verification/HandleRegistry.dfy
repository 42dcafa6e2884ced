/** The registry of host values that a guest refers to by `js` handle ids: two maps, a stack of free
ids and a reference count per entry.
 */
module HandleRegistry {
  import opened Containers

  datatype Entry<V> = Entry(value: V, count: nat)

  datatype Registry<V(==)> = Registry(handles: map<nat, Entry<V>>, ids: map<V, nat>, freeIds: seq<nat>, nextId: nat)

  function Empty<V(==)>(): Registry<V> { Registry(map[], map[], [], 1) }

  // ----- Operations; `None` stands for null and undefined -----

  /** The id the next new entry gets. */
  function NewId<V(==)>(r: Registry<V>): nat {
    if r.freeIds != [] then r.freeIds[|r.freeIds| - 1] else r.nextId
  }

  function Recount<V(==)>(r: Registry<V>, id: nat, count: nat): Registry<V>
    requires id in r.handles
  {
    r.(handles := r.handles[id := r.handles[id].(count := count)])
  }

  function Create<V(==)>(r: Registry<V>, v: V): Registry<V> {
    var id := NewId(r);
    Registry(r.handles[id := Entry(v, 1)], r.ids[v := id],
             if r.freeIds != [] then r.freeIds[..|r.freeIds| - 1] else [],
             if r.freeIds != [] then r.nextId else r.nextId + 1)
  }

  function Delete<V(==)>(r: Registry<V>, v: V): Registry<V>
    requires v in r.ids
  {
    r.(handles := r.handles - {r.ids[v]}, ids := r.ids - {v}, freeIds := r.freeIds + [r.ids[v]])
  }

  function Register<V(==)>(r: Registry<V>, value: Option<V>): Registry<V>
    requires Valid(r)
  {
    if value.None? then r
    else if value.value in r.ids then
      var id := r.ids[value.value];
      Recount(r, id, r.handles[id].count + 1)
    else Create(r, value.value)
  }

  /** The id that `Register` hands out. */
  function RegisteredId<V(==)>(r: Registry<V>, value: Option<V>): nat {
    if value.None? then 0 else if value.value in r.ids then r.ids[value.value] else NewId(r)
  }

  function Deref<V(==)>(r: Registry<V>, id: nat): Option<V> {
    if id != 0 && id in r.handles then Some(r.handles[id].value) else None
  }

  function Retain<V(==)>(r: Registry<V>, value: Option<V>): Registry<V>
    requires Valid(r)
  {
    if value.None? || value.value !in r.ids then r
    else
      var id := r.ids[value.value];
      Recount(r, id, r.handles[id].count + 1)
  }

  function Release<V(==)>(r: Registry<V>, value: Option<V>): Registry<V>
    requires Valid(r)
  {
    if value.None? || value.value !in r.ids then r
    else
      var id := r.ids[value.value];
      if r.handles[id].count > 1 then Recount(r, id, r.handles[id].count - 1) else Delete(r, value.value)
  }

  // ----- What every operation keeps -----

  /** The two maps are inverse to each other and counts are positive. */
  ghost predicate Inverse<V>(r: Registry<V>) {
    && (forall v :: v in r.ids ==> r.ids[v] in r.handles && r.handles[r.ids[v]].value == v)
    && (forall id :: id in r.handles ==> r.handles[id].value in r.ids && r.ids[r.handles[id].value] == id)
    && (forall id :: id in r.handles ==> r.handles[id].count >= 1)
  }

  /** Live and free ids partition 1 to `nextId - 1`, and no id is free twice. */
  ghost predicate Partition<V>(r: Registry<V>) {
    && r.nextId >= 1
    && (forall id: nat :: 1 <= id < r.nextId <==> id in r.handles || id in r.freeIds)
    && (forall id :: id in r.handles ==> id !in r.freeIds)
    && (forall i, j :: 0 <= i < j < |r.freeIds| ==> r.freeIds[i] != r.freeIds[j])
  }

  ghost predicate Valid<V>(r: Registry<V>) { Inverse(r) && Partition(r) }

  lemma {:induction false} RecountValid<V>(r: Registry<V>, id: nat, count: nat)
    requires Valid(r) && id in r.handles && count >= 1
    ensures Valid(Recount(r, id, count))
  {
  }

  lemma {:induction false} CreateValid<V>(r: Registry<V>, v: V)
    requires Valid(r) && v !in r.ids
    ensures Valid(Create(r, v))
    ensures NewId(r) >= 1 && NewId(r) !in r.handles
  {
    var id, r' := NewId(r), Create(r, v);
    if r.freeIds != [] {
      assert r.freeIds == r'.freeIds + [id];
      assert forall i :: 0 <= i < |r'.freeIds| ==> r'.freeIds[i] == r.freeIds[i] != id;
      assert id in r.freeIds && id !in r.handles;
      assert forall x :: x in r.freeIds <==> x in r'.freeIds || x == id;
    }
    assert Inverse(r');
    assert Partition(r');
  }

  lemma {:induction false} DeleteValid<V>(r: Registry<V>, v: V)
    requires Valid(r) && v in r.ids
    ensures Valid(Delete(r, v))
  {
    var r' := Delete(r, v);
    assert r'.freeIds == r.freeIds + [r.ids[v]];
    assert r.ids[v] in r'.freeIds;
  }

  // ----- Runs -----

  datatype Event<V> = EvRegister(value: Option<V>) | EvRetain(value: Option<V>) | EvRelease(value: Option<V>)

  function Step<V(==)>(r: Registry<V>, e: Event<V>): Registry<V>
    requires Valid(r)
  {
    match e
    case EvRegister(value) => Register(r, value)
    case EvRetain(value) => Retain(r, value)
    case EvRelease(value) => Release(r, value)
  }

  lemma {:induction false} StepValid<V>(r: Registry<V>, e: Event<V>)
    requires Valid(r)
    ensures Valid(Step(r, e))
  {
    if e.value.Some? {
      var v := e.value.value;
      if v in r.ids {
        var count := r.handles[r.ids[v]].count;
        RecountValid(r, r.ids[v], count + 1);
        if e.EvRelease? && count > 1 {
          RecountValid(r, r.ids[v], count - 1);
        }
        DeleteValid(r, v);
      } else {
        CreateValid(r, v);
      }
    }
  }

  /** The registry after a sequence of operations; the maps stay inverse and the ids partitioned. */
  function Run<V(==)>(es: seq<Event<V>>): (r: Registry<V>)
    ensures Valid(r)
  {
    if es == [] then Empty()
    else
      var before := Run(es[..|es| - 1]);
      StepValid(before, es[|es| - 1]);
      Step(before, es[|es| - 1])
  }

  function CountOf<V(==)>(r: Registry<V>, v: V): nat
    requires Valid(r)
  {
    if v in r.ids then r.handles[r.ids[v]].count else 0
  }

  /** Registrations plus retains minus releases of `v`. */
  function Balance<V(==)>(es: seq<Event<V>>, v: V): int {
    if es == [] then 0
    else
      Balance(es[..|es| - 1], v) +
      if es[|es| - 1].value != Some(v) then 0 else if es[|es| - 1].EvRelease? then -1 else 1
  }

  /** Where the present entry of `v` was created. */
  function CreatedAt<V(==)>(es: seq<Event<V>>, v: V): nat
    requires v in Run(es).ids
    decreases |es|
  {
    var before := es[..|es| - 1];
    if v in Run(before).ids then CreatedAt(before, v) else |before|
  }

  /** What one operation does to the count and the id of a value. */
  lemma {:induction false} StepCounts<V>(r: Registry<V>, e: Event<V>, v: V)
    requires Valid(r) && Valid(Step(r, e))
    ensures e.value != Some(v) ==> CountOf(Step(r, e), v) == CountOf(r, v)
    ensures e.value == Some(v) ==>
              CountOf(Step(r, e), v) ==
              if v in r.ids then CountOf(r, v) + (if e.EvRelease? then -1 else 1)
              else if e.EvRegister? then 1 else 0
    ensures v in r.ids && v in Step(r, e).ids ==> Step(r, e).ids[v] == r.ids[v]
    ensures v !in r.ids && v in Step(r, e).ids ==> e == EvRegister(Some(v))
  {
    if e.value.Some? && e.value.value !in r.ids {
      CreateValid(r, e.value.value);
    }
  }

  /** The entry of `v` was created by a registration, when there was none. */
  lemma {:induction false} CreatedByRegistration<V>(es: seq<Event<V>>, v: V)
    requires v in Run(es).ids
    ensures var c := CreatedAt(es, v);
            c < |es| && es[c] == EvRegister(Some(v)) && v !in Run(es[..c]).ids
    decreases |es|
  {
    var n := |es| - 1;
    StepCounts(Run(es[..n]), es[n], v);
    if v in Run(es[..n]).ids {
      CreatedByRegistration(es[..n], v);
      assert es[..n][..CreatedAt(es, v)] == es[..CreatedAt(es, v)];
    }
  }

  lemma {:induction false} BalanceOfLast<V>(es: seq<Event<V>>, c: nat, v: V)
    requires c < |es|
    ensures Balance(es[c..], v) ==
            Balance(es[..|es| - 1][c..], v) +
            if es[|es| - 1].value != Some(v) then 0 else if es[|es| - 1].EvRelease? then -1 else 1
  {
    assert es[c..][..|es[c..]| - 1] == es[..|es| - 1][c..];
  }

  lemma {:induction false} BalanceSince<V>(es: seq<Event<V>>, v: V)
    requires v in Run(es).ids && CreatedAt(es, v) < |es|
    ensures CountOf(Run(es), v) == Balance(es[CreatedAt(es, v)..], v)
    decreases |es|
  {
    var n := |es| - 1;
    StepCounts(Run(es[..n]), es[n], v);
    BalanceOfLast(es, CreatedAt(es, v), v);
    if v in Run(es[..n]).ids {
      CreatedByRegistration(es[..n], v);
      BalanceSince(es[..n], v);
    } else {
      assert es[..n][n..] == [];
    }
  }

  lemma {:induction false} KeptByLast<V>(es: seq<Event<V>>, v: V)
    requires v in Run(es).ids && CreatedAt(es, v) < |es| - 1
    ensures var before := es[..|es| - 1];
            v in Run(before).ids && CreatedAt(before, v) == CreatedAt(es, v) && Run(es).ids[v] == Run(before).ids[v]
  {
    StepCounts(Run(es[..|es| - 1]), es[|es| - 1], v);
  }

  lemma {:induction false} IdSince<V>(es: seq<Event<V>>, v: V, k: nat)
    requires v in Run(es).ids && CreatedAt(es, v) < k <= |es|
    ensures v in Run(es[..k]).ids && Run(es[..k]).ids[v] == Run(es).ids[v]
    decreases |es|
  {
    var n := |es| - 1;
    if k == |es| {
      assert es[..k] == es;
    } else {
      KeptByLast(es, v);
      IdSince(es[..n], v, k);
      assert es[..n][..k] == es[..k];
    }
  }

  /** In every run the count of a live entry is at least 1 and is the balance of the operations on its
  value since the registration that created it, and all that time the value has kept its id. */
  lemma {:induction false} CountIsBalance<V>(es: seq<Event<V>>, v: V)
    requires v in Run(es).ids
    ensures var c := CreatedAt(es, v);
            && c < |es| && es[c] == EvRegister(Some(v)) && v !in Run(es[..c]).ids
            && 1 <= CountOf(Run(es), v) == Balance(es[c..], v)
            && (forall k :: c < k <= |es| ==> v in Run(es[..k]).ids && Run(es[..k]).ids[v] == Run(es).ids[v])
  {
    CreatedByRegistration(es, v);
    BalanceSince(es, v);
    forall k | CreatedAt(es, v) < k <= |es|
      ensures v in Run(es[..k]).ids && Run(es[..k]).ids[v] == Run(es).ids[v]
    {
      IdSince(es, v, k);
    }
  }

  // ----- What callers rely on -----

  /** Resolving a handle just registered gives the value back, under an id of no other live value. */
  lemma {:induction false} DerefAfterRegister<V>(r: Registry<V>, value: Option<V>)
    requires Valid(r)
    ensures var r' := Register(r, value);
            var id := RegisteredId(r, value);
            && Deref(r', id) == value && (id == 0 <==> value == None)
            && (forall other :: other != id ==> Deref(r', other) == Deref(r, other))
            && (forall w :: w in r.ids && Some(w) != value ==> r.ids[w] != id)
  {
    if value.Some? && value.value !in r.ids {
      CreateValid(r, value.value);
    }
  }

  /** Releasing what an id stands for takes one from the count of that id, or frees it if the count was
  one, and affects nothing else. */
  lemma {:induction false} ReleaseAffectsOne<V>(r: Registry<V>, id: nat)
    requires Valid(r)
    ensures var r' := Release(r, Deref(r, id));
            && (forall other :: other != id ==> (other in r'.handles <==> other in r.handles))
            && (forall other :: other != id && other in r.handles ==> r'.handles[other] == r.handles[other])
            && r'.nextId == r.nextId
            && if id in r.handles && r.handles[id].count > 1 then
                 r'.handles == r.handles[id := Entry(r.handles[id].value, r.handles[id].count - 1)] && r'.ids == r.ids && r'.freeIds == r.freeIds
               else if id in r.handles then
                 id !in r'.handles && Deref(r', id) == None && r.handles[id].value !in r'.ids && r'.freeIds == r.freeIds + [id]
               else r' == r
  {
  }

  lemma {:induction false} DeleteUndoesCreate<V>(r: Registry<V>, v: V)
    requires v !in r.ids && NewId(r) !in r.handles
    ensures v in Create(r, v).ids
    ensures var r' := Delete(Create(r, v), v);
            r'.handles == r.handles && r'.ids == r.ids && NewId(r') == NewId(r) && (r.freeIds != [] ==> r' == r)
  {
    if r.freeIds != [] {
      assert r.freeIds[..|r.freeIds| - 1] + [NewId(r)] == r.freeIds;
    }
  }

  lemma {:induction false} RecountBack<V>(r: Registry<V>, id: nat)
    requires id in r.handles
    ensures Recount(Recount(r, id, r.handles[id].count + 1), id, r.handles[id].count) == r
  {
  }

  /** A release undoes a registration: the maps are the same again, and so is the whole registry unless
  an id was used for the first time, which is then the next to be handed out. */
  lemma {:induction false} ReleaseUndoesRegister<V>(r: Registry<V>, v: V)
    requires Valid(r)
    ensures Valid(Register(r, Some(v)))
    ensures var r' := Release(Register(r, Some(v)), Some(v));
            r'.handles == r.handles && r'.ids == r.ids && NewId(r') == NewId(r) && (v in r.ids || r.freeIds != [] ==> r' == r)
  {
    StepValid(r, EvRegister(Some(v)));
    if v in r.ids {
      RecountBack(r, r.ids[v]);
    } else {
      CreateValid(r, v);
      DeleteUndoesCreate(r, v);
    }
  }

  /** A release undoes a retain of a live value. */
  lemma {:induction false} ReleaseUndoesRetain<V>(r: Registry<V>, v: V)
    requires Valid(r) && v in r.ids
    ensures Valid(Retain(r, Some(v))) && Release(Retain(r, Some(v)), Some(v)) == r
  {
    StepValid(r, EvRetain(Some(v)));
  }

  class HandleTable<V(==)> {
    var jsHandles: map<nat, Entry<V>>
    var jsIds: map<V, nat>
    var jsFreeIds: seq<nat>
    var jsNextId: nat

    ghost function Model(): Registry<V>
      reads this
    {
      Registry(jsHandles, jsIds, jsFreeIds, jsNextId)
    }

    constructor ()
      ensures Model() == Empty()
    {
      jsHandles, jsIds, jsFreeIds, jsNextId := map[], map[], [], 1;
    }

    method RegisterHandle(value: Option<V>) returns (id: nat)
      requires Valid(Model())
      modifies this
      ensures Valid(Model()) && Model() == Register(old(Model()), value) && id == RegisteredId(old(Model()), value)
    {
      StepValid(Model(), EvRegister(value));
      if value.None? {
        return 0;
      }
      if value.value in jsIds {
        id := jsIds[value.value];
        var entry := jsHandles[id];
        jsHandles := jsHandles[id := entry.(count := entry.count + 1)];
        return;
      }
      if |jsFreeIds| > 0 {
        id := jsFreeIds[|jsFreeIds| - 1];
        jsFreeIds := jsFreeIds[..|jsFreeIds| - 1];
      } else {
        id := jsNextId;
        jsNextId := jsNextId + 1;
      }
      jsHandles := jsHandles[id := Entry(value.value, 1)];
      jsIds := jsIds[value.value := id];
    }

    method DerefHandle(id: nat) returns (value: Option<V>)
      ensures value == Deref(Model(), id)
    {
      if id == 0 {
        return None;
      }
      return if id in jsHandles then Some(jsHandles[id].value) else None;
    }

    method RetainValue(value: Option<V>)
      requires Valid(Model())
      modifies this`jsHandles
      ensures Valid(Model()) && Model() == Retain(old(Model()), value)
    {
      StepValid(Model(), EvRetain(value));
      if value.None? || value.value !in jsIds {
        return;
      }
      var id := jsIds[value.value];
      jsHandles := jsHandles[id := jsHandles[id].(count := jsHandles[id].count + 1)];
    }

    method ReleaseValue(value: Option<V>)
      requires Valid(Model())
      modifies this`jsHandles, this`jsIds, this`jsFreeIds
      ensures Valid(Model()) && Model() == Release(old(Model()), value)
    {
      StepValid(Model(), EvRelease(value));
      if value.None? || value.value !in jsIds {
        return;
      }
      var id := jsIds[value.value];
      var count := jsHandles[id].count - 1;
      if count > 0 {
        jsHandles := jsHandles[id := jsHandles[id].(count := count)];
        return;
      }
      jsHandles := jsHandles - {id};
      jsIds := jsIds - {value.value};
      jsFreeIds := jsFreeIds + [id];
    }
  }
}
