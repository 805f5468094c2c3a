/** The entity-component-system world: generational entity handles with index
    recycling, and archetypes that store component values column by column. */
module Ecs {
  import opened Common

  /** The index of the null entity (`u32::MAX`). */
  const NULL_INDEX: nat := U32_MAX

  /** A handle naming a slot of the world and the generation it was issued for. */
  datatype Entity = Entity(index: nat, generation: nat)
  {
    predicate IsNull() { index == NULL_INDEX }
  }

  function NullEntity(): (e: Entity)
    ensures e.IsNull() && e.generation == 0
  {
    Entity(NULL_INDEX, 0)
  }

  /** A component type, standing for the `TypeId` of a component struct. */
  datatype ComponentType = ComponentType(id: nat)

  /** A component value; the world never looks inside one. */
  type ComponentValue(==)

  /** Per-slot bookkeeping: the slot's current generation, whether it is in use,
      and the archetype that holds its components. */
  datatype EntityMeta = EntityMeta(generation: nat, alive: bool, archetypeId: Option<nat>)

  /** Entities sharing one set of component types, with one storage column per type. */
  datatype Archetype = Archetype(
    id: nat,
    componentTypes: seq<ComponentType>,
    storages: map<ComponentType, seq<ComponentValue>>,
    entities: seq<Entity>)
  {
    predicate ContainsType(t: ComponentType)
    {
      t in componentTypes
    }

    /** Every column belongs to one of the archetype's types and holds one value per
        member row; once the archetype has members, every type has its column. */
    ghost predicate WellFormed()
    {
      && (forall t :: t in storages ==> t in componentTypes && |storages[t]| == |entities|)
      && (|entities| > 0 ==> forall t :: t in componentTypes ==> t in storages)
    }
  }

  /** The archetype an insertion targets: the existing one at `aid`, or the empty
      single-type archetype that is about to be created there. */
  function ArchetypeOrNew(archetypes: seq<Archetype>, aid: nat, t: ComponentType): Archetype
  {
    if aid < |archetypes| then archetypes[aid] else Archetype(aid, [t], map[], [])
  }

  function ColumnOrEmpty(a: Archetype, t: ComponentType): seq<ComponentValue>
  {
    if t in a.storages then a.storages[t] else []
  }

  /** The number of slots in use: what `entity_count` reports. */
  function CountAlive(metas: seq<EntityMeta>): (n: nat)
    ensures n <= |metas|
  {
    if |metas| == 0 then 0
    else CountAlive(metas[..|metas| - 1]) + (if metas[|metas| - 1].alive then 1 else 0)
  }

  /** The indices of the slots in use. */
  ghost function AliveIndices(metas: seq<EntityMeta>): set<nat>
  {
    set i: nat | i < |metas| && metas[i].alive
  }

  /** The count `entity_count` computes is the number of live slots. */
  lemma {:induction false} CountAliveIsCardinality(metas: seq<EntityMeta>)
    ensures CountAlive(metas) == |AliveIndices(metas)|
  {
    if |metas| > 0 {
      var init := metas[..|metas| - 1];
      CountAliveIsCardinality(init);
      var last := |metas| - 1;
      assert AliveIndices(metas) == AliveIndices(init) + (if metas[last].alive then {last} else {});
    }
  }

  lemma {:induction false} CountAliveAppend(metas: seq<EntityMeta>, m: EntityMeta)
    ensures CountAlive(metas + [m]) == CountAlive(metas) + (if m.alive then 1 else 0)
  {
    assert (metas + [m])[..|metas|] == metas;
  }

  /** Overwriting one slot changes the count by the change in that slot's liveness. */
  lemma {:induction false} CountAliveUpdate(metas: seq<EntityMeta>, i: nat, m: EntityMeta)
    requires i < |metas|
    ensures CountAlive(metas[i := m])
         == CountAlive(metas) - (if metas[i].alive then 1 else 0) + (if m.alive then 1 else 0)
  {
    var last := |metas| - 1;
    if i < last {
      assert metas[i := m][..last] == metas[..last][i := m];
      CountAliveUpdate(metas[..last], i, m);
    } else {
      assert metas[i := m][..last] == metas[..last];
    }
  }

  /** The slots on the free list are exactly the slots not in use, each listed once. */
  ghost predicate FreeListInv(metas: seq<EntityMeta>, free: seq<nat>)
  {
    && NoDuplicates(free)
    && (forall k :: 0 <= k < |free| ==> free[k] < |metas| && !metas[free[k]].alive)
    && (forall i :: 0 <= i < |metas| && !metas[i].alive ==> i in free)
  }

  /** Archetype ids are positions, and the type-set map points at matching archetypes. */
  ghost predicate ArchetypesInv(archetypes: seq<Archetype>, archetypeMap: map<seq<ComponentType>, nat>)
  {
    && (forall k :: 0 <= k < |archetypes| ==> archetypes[k].id == k && archetypes[k].WellFormed())
    && (forall ts :: ts in archetypeMap ==>
          archetypeMap[ts] < |archetypes| && archetypes[archetypeMap[ts]].componentTypes == ts)
  }

  predicate Live(metas: seq<EntityMeta>, e: Entity)
  {
    e.index < |metas| && metas[e.index].alive && metas[e.index].generation == e.generation
  }

  /** A row entry names a live entity and the row of its archetype that lists it. */
  ghost predicate RowOf(metas: seq<EntityMeta>, archetypes: seq<Archetype>, e: Entity, row: nat)
  {
    && Live(metas, e)
    && metas[e.index].archetypeId.Some?
    && var aid := metas[e.index].archetypeId.value;
    && aid < |archetypes|
    && row < |archetypes[aid].entities|
    && archetypes[aid].entities[row] == e
  }

  /** Slots placed in an archetype are live and have a row entry, and every row entry is accurate. */
  ghost predicate RowsInv(metas: seq<EntityMeta>, archetypes: seq<Archetype>, rows: map<Entity, nat>)
  {
    && (forall i :: 0 <= i < |metas| && metas[i].archetypeId.Some? ==>
          && metas[i].alive
          && metas[i].archetypeId.value < |archetypes|
          && Entity(i, metas[i].generation) in rows)
    && (forall e :: e in rows ==> RowOf(metas, archetypes, e, rows[e]))
  }

  /** Reusing the last free slot keeps the free list and the rows consistent. */
  lemma SpawnRecycledKeepsInv(metas: seq<EntityMeta>, free: seq<nat>, archetypes: seq<Archetype>,
                              rows: map<Entity, nat>)
    requires FreeListInv(metas, free) && RowsInv(metas, archetypes, rows) && |free| > 0
    ensures var i := free[|free| - 1];
      var metas' := metas[i := EntityMeta(metas[i].generation + 1, true, None)];
      && FreeListInv(metas', free[..|free| - 1])
      && RowsInv(metas', archetypes, rows)
  {
    var i := free[|free| - 1];
    var metas' := metas[i := EntityMeta(metas[i].generation + 1, true, None)];
    var free' := free[..|free| - 1];
    forall j | 0 <= j < |metas'| && !metas'[j].alive
      ensures j in free'
    {
      var k :| 0 <= k < |free| && free[k] == j;
      assert k < |free'|;
    }
    forall e | e in rows
      ensures RowOf(metas', archetypes, e, rows[e])
    {
      assert RowOf(metas, archetypes, e, rows[e]);
    }
  }

  /** Appending a fresh live slot keeps every invariant. */
  lemma SpawnFreshKeepsInv(metas: seq<EntityMeta>, free: seq<nat>, archetypes: seq<Archetype>,
                           rows: map<Entity, nat>)
    requires FreeListInv(metas, free) && RowsInv(metas, archetypes, rows) && |free| == 0
    ensures var metas' := metas + [EntityMeta(0, true, None)];
      FreeListInv(metas', free) && RowsInv(metas', archetypes, rows)
  {
    var metas' := metas + [EntityMeta(0, true, None)];
    forall e | e in rows
      ensures RowOf(metas', archetypes, e, rows[e])
    {
      assert RowOf(metas, archetypes, e, rows[e]);
    }
  }

  /** Marking a live slot dead, dropping its row entry and listing it as free keeps every invariant. */
  lemma DespawnKeepsInv(metas: seq<EntityMeta>, free: seq<nat>, archetypes: seq<Archetype>,
                        rows: map<Entity, nat>, e: Entity)
    requires FreeListInv(metas, free) && RowsInv(metas, archetypes, rows) && Live(metas, e)
    ensures var metas' := metas[e.index := EntityMeta(e.generation, false, None)];
      FreeListInv(metas', free + [e.index]) && RowsInv(metas', archetypes, rows - {e})
  {
    var metas' := metas[e.index := EntityMeta(e.generation, false, None)];
    var free' := free + [e.index];
    assert e.index !in free;
    forall j | 0 <= j < |metas'| && !metas'[j].alive
      ensures j in free'
    {
      if j != e.index {
        assert j in free;
      }
    }
    forall x | x in rows - {e}
      ensures RowOf(metas', archetypes, x, (rows - {e})[x])
    {
      assert RowOf(metas, archetypes, x, rows[x]);
    }
  }

  /** Whether the archetype of `e` lists type `t` (`has_component`). */
  predicate HasType(metas: seq<EntityMeta>, archetypes: seq<Archetype>, e: Entity, t: ComponentType)
  {
    && Live(metas, e)
    && metas[e.index].archetypeId.Some?
    && metas[e.index].archetypeId.value < |archetypes|
    && archetypes[metas[e.index].archetypeId.value].ContainsType(t)
  }

  /** The value stored for `e` in the `t` column of its archetype, at the row its entry names. */
  function ComponentOf(metas: seq<EntityMeta>, archetypes: seq<Archetype>, rows: map<Entity, nat>,
                       e: Entity, t: ComponentType): Option<ComponentValue>
  {
    if !Live(metas, e) || metas[e.index].archetypeId.None? || e !in rows then None
    else if metas[e.index].archetypeId.value >= |archetypes| then None
    else
      var a := archetypes[metas[e.index].archetypeId.value];
      var row := rows[e];
      if t in a.storages && row < |a.storages[t]| then Some(a.storages[t][row]) else None
  }

  /** Under the invariants a component is present exactly when the archetype lists its type. */
  lemma ComponentPresentIffType(metas: seq<EntityMeta>, archetypes: seq<Archetype>,
                                archetypeMap: map<seq<ComponentType>, nat>, rows: map<Entity, nat>,
                                e: Entity, t: ComponentType)
    requires ArchetypesInv(archetypes, archetypeMap) && RowsInv(metas, archetypes, rows)
    ensures ComponentOf(metas, archetypes, rows, e, t).Some? <==> HasType(metas, archetypes, e, t)
  {
    if HasType(metas, archetypes, e, t) {
      assert Entity(e.index, metas[e.index].generation) == e;
      assert RowOf(metas, archetypes, e, rows[e]);
      assert archetypes[metas[e.index].archetypeId.value].WellFormed();
    }
  }

  /** The archetype after `add_component` pushed `v` into its `t` column and `e` into its members. */
  function Appended(a: Archetype, t: ComponentType, v: ComponentValue, e: Entity): Archetype
  {
    a.(storages := a.storages[t := ColumnOrEmpty(a, t) + [v]], entities := a.entities + [e])
  }

  /** Appending to the single-type archetype of `t` and pointing the entity at it keeps the invariants. */
  lemma AddKeepsInv(metas: seq<EntityMeta>, free: seq<nat>, archetypes: seq<Archetype>,
                    archetypeMap: map<seq<ComponentType>, nat>, rows: map<Entity, nat>,
                    e: Entity, t: ComponentType, v: ComponentValue, aid: nat)
    requires FreeListInv(metas, free) && ArchetypesInv(archetypes, archetypeMap)
    requires RowsInv(metas, archetypes, rows) && Live(metas, e)
    requires [t] in archetypeMap && archetypeMap[[t]] == aid
    ensures aid < |archetypes|
    ensures var archetypes' := archetypes[aid := Appended(archetypes[aid], t, v, e)];
      var rows' := rows[e := |archetypes[aid].entities|];
      var metas' := metas[e.index := metas[e.index].(archetypeId := Some(aid))];
      && FreeListInv(metas', free)
      && ArchetypesInv(archetypes', archetypeMap)
      && RowsInv(metas', archetypes', rows')
  {
    var a := archetypes[aid];
    var archetypes' := archetypes[aid := Appended(a, t, v, e)];
    var rows' := rows[e := |a.entities|];
    var metas' := metas[e.index := metas[e.index].(archetypeId := Some(aid))];
    assert archetypes[aid].WellFormed();
    assert Appended(a, t, v, e).WellFormed();
    forall x | x in rows'
      ensures RowOf(metas', archetypes', x, rows'[x])
    {
      if x != e {
        assert RowOf(metas, archetypes, x, rows[x]);
        assert x.index != e.index;
      }
    }
  }

  /** After the append, `e` has exactly component `t`, holding `v`, and nobody else is affected. */
  lemma AddObservations(metas: seq<EntityMeta>, free: seq<nat>, archetypes: seq<Archetype>,
                        archetypeMap: map<seq<ComponentType>, nat>, rows: map<Entity, nat>,
                        e: Entity, t: ComponentType, v: ComponentValue, aid: nat)
    requires FreeListInv(metas, free) && ArchetypesInv(archetypes, archetypeMap)
    requires RowsInv(metas, archetypes, rows) && Live(metas, e)
    requires [t] in archetypeMap && archetypeMap[[t]] == aid
    ensures aid < |archetypes|
    ensures var archetypes' := archetypes[aid := Appended(archetypes[aid], t, v, e)];
      var rows' := rows[e := |archetypes[aid].entities|];
      var metas' := metas[e.index := metas[e.index].(archetypeId := Some(aid))];
      && ComponentOf(metas', archetypes', rows', e, t) == Some(v)
      && (forall u :: HasType(metas', archetypes', e, u) <==> u == t)
      && (forall x, u :: x != e ==>
            ComponentOf(metas', archetypes', rows', x, u) == ComponentOf(metas, archetypes, rows, x, u))
  {
    var a := archetypes[aid];
    var archetypes' := archetypes[aid := Appended(a, t, v, e)];
    var rows' := rows[e := |a.entities|];
    var metas' := metas[e.index := metas[e.index].(archetypeId := Some(aid))];
    assert a.WellFormed();
    assert ColumnOrEmpty(a, t) + [v] == archetypes'[aid].storages[t];
    forall x, u | x != e
      ensures ComponentOf(metas', archetypes', rows', x, u) == ComponentOf(metas, archetypes, rows, x, u)
    {
      if Live(metas, x) && metas[x.index].archetypeId == Some(aid) && x in rows {
        assert x.index != e.index;
        assert RowOf(metas, archetypes, x, rows[x]);
      }
    }
  }

  /** Creating an archetype leaves every entity's components where they were. */
  lemma ExtendKeepsComponents(metas: seq<EntityMeta>, archetypes: seq<Archetype>, rows: map<Entity, nat>,
                              extra: Archetype)
    requires RowsInv(metas, archetypes, rows)
    ensures forall x, u :: ComponentOf(metas, archetypes + [extra], rows, x, u)
                        == ComponentOf(metas, archetypes, rows, x, u)
  {
    forall x, u
      ensures ComponentOf(metas, archetypes + [extra], rows, x, u) == ComponentOf(metas, archetypes, rows, x, u)
    {
      if Live(metas, x) && metas[x.index].archetypeId.Some? {
        assert metas[x.index].archetypeId.value < |archetypes|;
      }
    }
  }

  /** The archetype after a write of `v` at `row` of its `t` column. */
  function Overwritten(a: Archetype, t: ComponentType, row: nat, v: ComponentValue): Archetype
    requires t in a.storages && row < |a.storages[t]|
  {
    a.(storages := a.storages[t := a.storages[t][row := v]])
  }

  /** Overwriting the value of `e` in column `t` keeps the invariants and changes that one value only. */
  lemma OverwriteKeepsInv(metas: seq<EntityMeta>, archetypes: seq<Archetype>,
                          archetypeMap: map<seq<ComponentType>, nat>, rows: map<Entity, nat>,
                          e: Entity, t: ComponentType, v: ComponentValue)
    requires ArchetypesInv(archetypes, archetypeMap) && RowsInv(metas, archetypes, rows)
    requires ComponentOf(metas, archetypes, rows, e, t).Some?
    ensures var aid := metas[e.index].archetypeId.value;
      var archetypes' := archetypes[aid := Overwritten(archetypes[aid], t, rows[e], v)];
      && ArchetypesInv(archetypes', archetypeMap)
      && RowsInv(metas, archetypes', rows)
      && ComponentOf(metas, archetypes', rows, e, t) == Some(v)
      && (forall x, u :: (x != e || u != t) ==>
            ComponentOf(metas, archetypes', rows, x, u) == ComponentOf(metas, archetypes, rows, x, u))
      && (forall x, u :: HasType(metas, archetypes', x, u) == HasType(metas, archetypes, x, u))
  {
    var aid := metas[e.index].archetypeId.value;
    var row := rows[e];
    var archetypes' := archetypes[aid := Overwritten(archetypes[aid], t, row, v)];
    assert archetypes[aid].WellFormed();
    assert RowOf(metas, archetypes, e, row);
    forall x | x in rows
      ensures RowOf(metas, archetypes', x, rows[x])
    {
      assert RowOf(metas, archetypes, x, rows[x]);
    }
    forall x, u | x != e || u != t
      ensures ComponentOf(metas, archetypes', rows, x, u) == ComponentOf(metas, archetypes, rows, x, u)
    {
      if x != e && Live(metas, x) && metas[x.index].archetypeId == Some(aid) && x in rows {
        assert RowOf(metas, archetypes, x, rows[x]);
      }
    }
  }

  class World {
    var entities: seq<EntityMeta>
    var freeIndices: seq<nat>
    var nextIndex: nat
    var archetypes: seq<Archetype>
    var archetypeMap: map<seq<ComponentType>, nat>
    var nextArchetypeId: nat
    var entityArchetypeRow: map<Entity, nat>

    ghost predicate Valid()
      reads this
    {
      && nextIndex == |entities|
      && nextArchetypeId == |archetypes|
      && FreeListInv(entities, freeIndices)
      && ArchetypesInv(archetypes, archetypeMap)
      && RowsInv(entities, archetypes, entityArchetypeRow)
    }

    constructor ()
      ensures Valid()
      ensures entities == [] && freeIndices == [] && nextIndex == 0
      ensures archetypes == [] && archetypeMap == map[] && nextArchetypeId == 0
      ensures entityArchetypeRow == map[]
    {
      entities := [];
      freeIndices := [];
      nextIndex := 0;
      archetypes := [];
      archetypeMap := map[];
      nextArchetypeId := 0;
      entityArchetypeRow := map[];
    }

    predicate IsAlive(e: Entity)
      reads this
    {
      Live(entities, e)
    }

    function EntityCount(): (n: nat)
      reads this
      ensures n <= |entities|
    {
      CountAlive(entities)
    }

    predicate HasComponent(e: Entity, t: ComponentType)
      reads this
    {
      HasType(entities, archetypes, e, t)
    }

    function GetComponent(e: Entity, t: ComponentType): (r: Option<ComponentValue>)
      reads this
    {
      ComponentOf(entities, archetypes, entityArchetypeRow, e, t)
    }

    /** `has_component` and `get_component` agree. */
    lemma HasComponentIffGetComponent(e: Entity, t: ComponentType)
      requires Valid()
      ensures GetComponent(e, t).Some? <==> HasComponent(e, t)
    {
      ComponentPresentIffType(entities, archetypes, archetypeMap, entityArchetypeRow, e, t);
    }

    method Spawn() returns (e: Entity)
      requires Valid()
      modifies this
      ensures Valid()
      ensures IsAlive(e) && forall t :: !HasComponent(e, t)
      ensures old(|entities|) < NULL_INDEX ==> !e.IsNull()
      ensures EntityCount() == old(EntityCount()) + 1
      ensures forall x :: old(IsAlive(x)) ==> IsAlive(x)
      ensures old(freeIndices) != [] ==>
        var i := old(freeIndices[|freeIndices| - 1]);
        && e == Entity(i, old(entities[i].generation) + 1)
        && entities == old(entities)[i := EntityMeta(e.generation, true, None)]
        && freeIndices == old(freeIndices[..|freeIndices| - 1])
        && nextIndex == old(nextIndex)
      ensures old(freeIndices) == [] ==>
        && e == Entity(old(nextIndex), 0)
        && entities == old(entities) + [EntityMeta(0, true, None)]
        && freeIndices == []
        && nextIndex == old(nextIndex) + 1
      ensures archetypes == old(archetypes) && archetypeMap == old(archetypeMap)
      ensures nextArchetypeId == old(nextArchetypeId) && entityArchetypeRow == old(entityArchetypeRow)
    {
      if |freeIndices| > 0 {
        e := SpawnRecycled();
      } else {
        e := SpawnFresh();
      }
    }

    /** `spawn` when a freed index is available: the last one is reused. */
    method SpawnRecycled() returns (e: Entity)
      requires Valid() && freeIndices != []
      modifies this
      ensures Valid()
      ensures IsAlive(e) && forall t :: !HasComponent(e, t)
      ensures old(|entities|) < NULL_INDEX ==> !e.IsNull()
      ensures EntityCount() == old(EntityCount()) + 1
      ensures forall x :: old(IsAlive(x)) ==> IsAlive(x)
      ensures old(freeIndices) != [] ==>
        var i := old(freeIndices[|freeIndices| - 1]);
        && e == Entity(i, old(entities[i].generation) + 1)
        && entities == old(entities)[i := EntityMeta(e.generation, true, None)]
        && freeIndices == old(freeIndices[..|freeIndices| - 1])
        && nextIndex == old(nextIndex)
      ensures archetypes == old(archetypes) && archetypeMap == old(archetypeMap)
      ensures nextArchetypeId == old(nextArchetypeId) && entityArchetypeRow == old(entityArchetypeRow)
    {
      var index := freeIndices[|freeIndices| - 1];
      var generation := entities[index].generation + 1;
      SpawnRecycledKeepsInv(entities, freeIndices, archetypes, entityArchetypeRow);
      CountAliveUpdate(entities, index, EntityMeta(generation, true, None));
      freeIndices := freeIndices[..|freeIndices| - 1];
      entities := entities[index := EntityMeta(generation, true, None)];
      e := Entity(index, generation);
    }

    /** `spawn` when no freed index is available: a fresh index is used. */
    method SpawnFresh() returns (e: Entity)
      requires Valid() && freeIndices == []
      modifies this
      ensures Valid()
      ensures IsAlive(e) && forall t :: !HasComponent(e, t)
      ensures old(|entities|) < NULL_INDEX ==> !e.IsNull()
      ensures EntityCount() == old(EntityCount()) + 1
      ensures forall x :: old(IsAlive(x)) ==> IsAlive(x)
      ensures old(freeIndices) == [] ==>
        && e == Entity(old(nextIndex), 0)
        && entities == old(entities) + [EntityMeta(0, true, None)]
        && freeIndices == []
        && nextIndex == old(nextIndex) + 1
      ensures archetypes == old(archetypes) && archetypeMap == old(archetypeMap)
      ensures nextArchetypeId == old(nextArchetypeId) && entityArchetypeRow == old(entityArchetypeRow)
    {
      var index := nextIndex;
      SpawnFreshKeepsInv(entities, freeIndices, archetypes, entityArchetypeRow);
      CountAliveAppend(entities, EntityMeta(0, true, None));
      nextIndex := nextIndex + 1;
      entities := entities + [EntityMeta(0, true, None)];
      e := Entity(index, 0);
    }

    method Despawn(e: Entity) returns (ok: bool)
      requires Valid()
      modifies this
      ensures Valid()
      ensures ok == old(IsAlive(e))
      ensures !ok ==> unchanged(this)
      ensures ok ==>
        && !IsAlive(e)
        && EntityCount() == old(EntityCount()) - 1
        && entities == old(entities)[e.index := EntityMeta(e.generation, false, None)]
        && freeIndices == old(freeIndices) + [e.index]
        && entityArchetypeRow == old(entityArchetypeRow) - {e}
        && nextIndex == old(nextIndex)
      // The archetype keeps the row that listed the entity.
      ensures archetypes == old(archetypes) && archetypeMap == old(archetypeMap)
      ensures nextArchetypeId == old(nextArchetypeId)
    {
      if !IsAlive(e) {
        return false;
      }
      var m := EntityMeta(e.generation, false, None);
      DespawnKeepsInv(entities, freeIndices, archetypes, entityArchetypeRow, e);
      CountAliveUpdate(entities, e.index, m);
      entities := entities[e.index := m];
      entityArchetypeRow := entityArchetypeRow - {e};
      freeIndices := freeIndices + [e.index];
      ok := true;
    }

    /** The archetype for the single type `t`, created on first use. */
    method GetOrCreateArchetypeForComponent(e: Entity, t: ComponentType) returns (aid: nat)
      requires Valid()
      modifies this
      ensures Valid()
      ensures aid < |archetypes| && [t] in archetypeMap && archetypeMap[[t]] == aid
      ensures [t] in old(archetypeMap) ==> aid == old(archetypeMap[[t]]) && unchanged(this)
      ensures [t] !in old(archetypeMap) ==>
        && aid == old(nextArchetypeId)
        && archetypes == old(archetypes) + [Archetype(aid, [t], map[], [])]
        && archetypeMap == old(archetypeMap)[[t] := aid]
        && nextArchetypeId == old(nextArchetypeId) + 1
      ensures entities == old(entities) && freeIndices == old(freeIndices)
      ensures nextIndex == old(nextIndex) && entityArchetypeRow == old(entityArchetypeRow)
    {
      var types := [t];
      if types in archetypeMap {
        return archetypeMap[types];
      }
      aid := nextArchetypeId;
      nextArchetypeId := nextArchetypeId + 1;
      archetypes := archetypes + [Archetype(aid, types, map[], [])];
      archetypeMap := archetypeMap[types := aid];
      forall x | x in entityArchetypeRow
        ensures RowOf(entities, archetypes, x, entityArchetypeRow[x])
      {
        assert RowOf(entities, old(archetypes), x, entityArchetypeRow[x]);
      }
    }

    /** Stores `v` as the `t` component of `e`. The entity moves to the archetype of the
        single type `t`, so components it had before can no longer be reached. */
    method AddComponent(e: Entity, t: ComponentType, v: ComponentValue) returns (ok: bool)
      requires Valid()
      modifies this
      ensures Valid()
      ensures ok == old(IsAlive(e))
      ensures !ok ==> unchanged(this)
      ensures ok ==> GetComponent(e, t) == Some(v)
      ensures ok ==> forall u :: HasComponent(e, u) <==> u == t
      ensures ok ==> forall x, u :: x != e ==> GetComponent(x, u) == old(GetComponent(x, u))
      ensures ok ==> EntityCount() == old(EntityCount())
      ensures ok ==>
        && [t] in archetypeMap
        && ([t] in old(archetypeMap) ==> archetypeMap == old(archetypeMap))
        && ([t] !in old(archetypeMap) ==> archetypeMap == old(archetypeMap)[[t] := old(|archetypes|)])
        && var aid := archetypeMap[[t]];
        && var before := ArchetypeOrNew(old(archetypes), aid, t);
        && |archetypes| == Max(old(|archetypes|), aid + 1)
        && archetypes[aid] == Appended(before, t, v, e)
        && (forall k :: 0 <= k < old(|archetypes|) && k != aid ==> archetypes[k] == old(archetypes[k]))
        && entityArchetypeRow == old(entityArchetypeRow)[e := |before.entities|]
        && entities == old(entities)[e.index := old(entities[e.index]).(archetypeId := Some(aid))]
        && freeIndices == old(freeIndices)
        && nextIndex == old(nextIndex)
    {
      if !IsAlive(e) {
        return false;
      }
      ghost var archetypes0 := archetypes;
      var aid := GetOrCreateArchetypeForComponent(e, t);
      if |archetypes| > |archetypes0| {
        ExtendKeepsComponents(entities, archetypes0, entityArchetypeRow, archetypes[aid]);
      }
      assert archetypes[aid] == ArchetypeOrNew(archetypes0, aid, t);
      ghost var metas1, archetypes1, rows1 := entities, archetypes, entityArchetypeRow;
      AddObservations(metas1, freeIndices, archetypes1, archetypeMap, rows1, e, t, v, aid);
      CountAliveUpdate(metas1, e.index, metas1[e.index].(archetypeId := Some(aid)));
      PushComponent(e, t, v, aid);
      ok := true;
    }

    /** The second half of `add_component`: push `v` and `e` onto archetype `aid` (the one
        for `[t]`), record the new row and point the entity at the archetype. */
    method PushComponent(e: Entity, t: ComponentType, v: ComponentValue, aid: nat)
      requires Valid() && IsAlive(e) && [t] in archetypeMap && archetypeMap[[t]] == aid
      modifies this
      ensures Valid()
      ensures aid < |archetypes|
      ensures archetypes == old(archetypes[aid := Appended(archetypes[aid], t, v, e)])
      ensures entityArchetypeRow == old(entityArchetypeRow[e := |archetypes[aid].entities|])
      ensures entities == old(entities[e.index := entities[e.index].(archetypeId := Some(aid))])
      ensures freeIndices == old(freeIndices) && nextIndex == old(nextIndex)
      ensures archetypeMap == old(archetypeMap) && nextArchetypeId == old(nextArchetypeId)
    {
      AddKeepsInv(entities, freeIndices, archetypes, archetypeMap, entityArchetypeRow, e, t, v, aid);
      var a := archetypes[aid];
      var row := |a.entities|;
      archetypes := archetypes[aid := Appended(a, t, v, e)];
      entityArchetypeRow := entityArchetypeRow[e := row];
      entities := entities[e.index := entities[e.index].(archetypeId := Some(aid))];
    }

    /** Obtains the `t` component of `e` for writing and stores `newValue` through it;
        every other component of every entity keeps its value. */
    method GetComponentMut(e: Entity, t: ComponentType, newValue: ComponentValue) returns (found: bool)
      requires Valid()
      modifies this
      ensures Valid()
      ensures found == old(GetComponent(e, t)).Some?
      ensures !found ==> unchanged(this)
      ensures found ==> GetComponent(e, t) == Some(newValue)
      ensures forall x, u :: (x != e || u != t) ==> GetComponent(x, u) == old(GetComponent(x, u))
      ensures forall x, u :: HasComponent(x, u) == old(HasComponent(x, u))
      ensures found ==>
        var aid := old(entities[e.index].archetypeId.value);
        archetypes == old(archetypes)[aid := Overwritten(old(archetypes[aid]), t, old(entityArchetypeRow[e]), newValue)]
      ensures entities == old(entities) && freeIndices == old(freeIndices) && nextIndex == old(nextIndex)
      ensures archetypeMap == old(archetypeMap) && nextArchetypeId == old(nextArchetypeId)
      ensures entityArchetypeRow == old(entityArchetypeRow)
    {
      if !IsAlive(e) {
        return false;
      }
      var archetypeId := entities[e.index].archetypeId;
      if archetypeId.None? {
        return false;
      }
      if e !in entityArchetypeRow {
        return false;
      }
      var row := entityArchetypeRow[e];
      var aid := archetypeId.value;
      var a := archetypes[aid];
      if t !in a.storages || row >= |a.storages[t]| {
        return false;
      }
      OverwriteKeepsInv(entities, archetypes, archetypeMap, entityArchetypeRow, e, t, newValue);
      archetypes := archetypes[aid := Overwritten(a, t, row, newValue)];
      found := true;
    }
  }

  /** A slot freed by `despawn` is handed out again with the next generation, and the
      old handle to it stays dead. */
  method RecyclingScenario()
  {
    var w := new World();
    var e1 := w.Spawn();
    var ok := w.Despawn(e1);
    assert ok && !w.IsAlive(e1);
    var e2 := w.Spawn();
    assert e2.index == e1.index && e2.generation == e1.generation + 1;
    assert w.IsAlive(e2) && !w.IsAlive(e1);
    assert w.EntityCount() == 1;
  }

  /** Adding a second component type moves the entity to that type's archetype, and
      the first component is no longer reachable. */
  method SecondComponentScenario(position: ComponentValue, velocity: ComponentValue)
  {
    var w := new World();
    var e := w.Spawn();
    var ok1 := w.AddComponent(e, ComponentType(0), position);
    assert w.GetComponent(e, ComponentType(0)) == Some(position);
    var ok2 := w.AddComponent(e, ComponentType(1), velocity);
    assert w.HasComponent(e, ComponentType(1));
    assert !w.HasComponent(e, ComponentType(0));
    w.HasComponentIffGetComponent(e, ComponentType(0));
    assert w.GetComponent(e, ComponentType(0)) == None;
  }
}
