/** The entity/component registry (EntityManager).

    Entities are named by caller-chosen string ids. Each entity maps
    component-type names to component-instance ids. An index is a list of
    component-type names; `getAll` on its key lists the entities that hold
    every one of those types at the moment of the call, whatever the order
    in which `create`, `add` and `index` were made.
 */
module Entities {
  import opened IndexKeys

  datatype Option<T> = None | Some(value: T)

  /** What `get` hands back: the entity's id and its component table. */
  datatype Entity = Entity(id: string, components: map<string, string>)

  /** The two ways `index` may be called: with the type names as separate
      arguments (`index("fizz", "buzz")`) or with one array of them
      (`index(["bla"])`). */
  datatype TypeSpec = Args(names: seq<string>) | Array(names: seq<string>)

  /** True when an entity's component table has every type of `types`. */
  predicate HasAll(components: map<string, string>, types: seq<string>) {
    forall i :: 0 <= i < |types| ==> types[i] in components
  }

  /** The entities an index over `types` stands for. */
  ghost function Matching(entities: map<string, map<string, string>>, types: seq<string>): set<string> {
    set e | e in entities && HasAll(entities[e], types)
  }

  predicate Distinct(ids: seq<string>) {
    forall i, j :: 0 <= i < j < |ids| ==> ids[i] != ids[j]
  }

  /** The key `index` returns for a call, or None where it returns false. */
  function IndexKey(spec: TypeSpec): (key: Option<string>)
    ensures key.None? <==> spec.names == []
    ensures |spec.names| == 1 ==> key == Some(spec.names[0])
  {
    if spec.names == [] then None else Some(Join(spec.names))
  }

  /** The type names can be read back from the key when none contains a
      comma: the key loses nothing, not even the order. */
  lemma IndexKeyRoundTrip(spec: TypeSpec)
    requires spec.names != [] && AllCommaFree(spec.names)
    ensures IndexKey(spec).Some? && Split(IndexKey(spec).value) == spec.names
  {
    SplitJoin(spec.names);
  }

  class EntityManager {
    /** entity id -> (component type -> component-instance id) */
    var entities: map<string, map<string, string>>
    /** index key -> the type names the index was created with */
    var indices: map<string, seq<string>>

    /** Every index was created from a non-empty list of types, and its key
        is the join of that list. */
    ghost predicate Valid()
      reads this
    {
      forall k :: k in indices ==> indices[k] != [] && Join(indices[k]) == k
    }

    constructor ()
      ensures Valid()
      ensures entities == map[] && indices == map[]
    {
      entities := map[];
      indices := map[];
    }

    /** `create(id)`: false when the id is missing or empty or already
        taken, otherwise a new entity with no components. */
    method Create(id: Option<string>) returns (ok: bool)
      requires Valid()
      modifies this
      ensures Valid()
      ensures ok <==> id.Some? && id.value != "" && id.value !in old(entities)
      ensures entities == if ok then old(entities)[id.value := map[]] else old(entities)
      ensures indices == old(indices)
    {
      if id.None? || id.value == "" || id.value in entities {
        return false;
      }
      entities := entities[id.value := map[]];
      return true;
    }

    /** `get(id)`: the entity, or None (JavaScript's undefined) when no
        entity has that id. */
    method Get(id: string) returns (r: Option<Entity>)
      ensures r.None? <==> id !in entities
      ensures r.Some? ==> r.value.id == id && r.value.components == entities[id]
    {
      if id !in entities {
        return None;
      }
      return Some(Entity(id, entities[id]));
    }

    /** `add(type, instanceId, entityId)`: false when the entity does not
        exist or already has a component of that type (the first instance
        is kept), otherwise records the component. */
    method Add(componentType: string, instanceId: string, entityId: string) returns (ok: bool)
      requires Valid()
      modifies this
      ensures Valid()
      ensures ok <==> entityId in old(entities) && componentType !in old(entities)[entityId]
      ensures ok ==> entities == old(entities)[entityId := old(entities)[entityId][componentType := instanceId]]
      ensures !ok ==> entities == old(entities)
      ensures indices == old(indices)
    {
      if entityId !in entities || componentType in entities[entityId] {
        return false;
      }
      entities := entities[entityId := entities[entityId][componentType := instanceId]];
      return true;
    }

    /** `index(...types)`: false for no types; otherwise the key, creating
        the index if no index has that key yet. */
    method Index(spec: TypeSpec) returns (key: Option<string>)
      requires Valid()
      modifies this
      ensures Valid()
      ensures key == IndexKey(spec)
      ensures key.None? ==> indices == old(indices)
      ensures key.Some? ==> key.value in indices
      ensures key.Some? && key.value in old(indices) ==> indices == old(indices)
      ensures key.Some? && key.value !in old(indices) ==> indices == old(indices)[key.value := spec.names]
      ensures key.Some? && AllCommaFree(spec.names) && AllCommaFree(indices[key.value]) ==>
                indices[key.value] == spec.names
      ensures entities == old(entities)
    {
      key := IndexKey(spec);
      if key.Some? && key.value !in indices {
        indices := indices[key.value := spec.names];
      }
      if key.Some? && AllCommaFree(spec.names) && AllCommaFree(indices[key.value]) {
        JoinInjective(spec.names, indices[key.value]);
      }
    }

    /** `getAll(key)`: None (JavaScript's null) for a key no index was
        created under, otherwise every entity holding all of the index's
        types, each once, in no particular order. */
    method GetAll(key: string) returns (r: Option<seq<string>>)
      ensures r.None? <==> key !in indices
      ensures r.Some? ==> forall e :: e in r.value <==> e in entities && HasAll(entities[e], indices[key])
      ensures r.Some? ==> Distinct(r.value) && |r.value| == |Matching(entities, indices[key])|
    {
      if key !in indices {
        return None;
      }
      var types := indices[key];
      var pending := entities.Keys;
      var found: seq<string> := [];
      ghost var done: set<string> := {};
      while pending != {}
        invariant pending <= entities.Keys
        invariant done == Matching(entities, types) - pending
        invariant forall e :: e in found <==> e in done
        invariant Distinct(found)
        decreases pending
      {
        var e :| e in pending;
        MatchingStep(entities, types, pending, e);
        if HasAll(entities[e], types) {
          found := found + [e];
          done := done + {e};
        }
        pending := pending - {e};
      }
      DistinctCount(found);
      assert (set x | x in found) == Matching(entities, types);
      return Some(found);
    }
  }

  /** A list without repeats has as many entries as distinct members. */
  lemma {:induction false} DistinctCount(ids: seq<string>)
    requires Distinct(ids)
    ensures |set x | x in ids| == |ids|
  {
    if ids != [] {
      var rest := ids[1..];
      DistinctCount(rest);
      assert (set x | x in ids) == (set x | x in rest) + {ids[0]};
      assert ids[0] !in rest;
    }
  }

  /** One step of the scan in `GetAll`: taking `e` off the pending set adds
      it to the qualifying entities seen so far exactly when it qualifies. */
  lemma MatchingStep(entities: map<string, map<string, string>>, types: seq<string>,
                     pending: set<string>, e: string)
    requires e in pending && e in entities
    ensures Matching(entities, types) - (pending - {e}) ==
              (Matching(entities, types) - pending) + (if HasAll(entities[e], types) then {e} else {})
  {
  }

  /** Adding a component never removes an entity from an index: the set an
      index stands for only grows. The entity that received the component
      joins it exactly when it now has all the index's types. */
  lemma AddGrowsMatching(entities: map<string, map<string, string>>, entityId: string,
                         componentType: string, instanceId: string, types: seq<string>)
    requires entityId in entities
    ensures var after := entities[entityId := entities[entityId][componentType := instanceId]];
            Matching(after, types) ==
              Matching(entities, types) + (if HasAll(after[entityId], types) then {entityId} else {})
  {
  }

  /** Creating an entity leaves every index unchanged: a fresh entity has no
      components, so it holds none of an index's (non-empty) types. */
  lemma CreateKeepsMatching(entities: map<string, map<string, string>>, id: string, types: seq<string>)
    requires id !in entities && types != []
    ensures Matching(entities[id := map[]], types) == Matching(entities, types)
  {
    var empty: map<string, string> := map[];
    assert !HasAll(empty, types) by { assert types[0] !in empty; }
  }

  /** Asking for more types can only narrow the result: every entity of an
      index over `a + b` is in the index over `a`. */
  lemma MoreTypesFewerEntities(entities: map<string, map<string, string>>, a: seq<string>, b: seq<string>)
    ensures Matching(entities, a + b) <= Matching(entities, a)
  {
    forall e | e in Matching(entities, a + b) ensures e in Matching(entities, a) {
      forall i | 0 <= i < |a| ensures a[i] in entities[e] {
        assert (a + b)[i] == a[i];
      }
    }
  }

  /** Only the set of types matters to the entities an index stands for, not
      their order, although the order changes the key. */
  lemma MatchingIgnoresOrder(entities: map<string, map<string, string>>, x: string, y: string)
    ensures Matching(entities, [x, y]) == Matching(entities, [y, x])
  {
    forall e | e in entities ensures HasAll(entities[e], [x, y]) == HasAll(entities[e], [y, x]) {
      if HasAll(entities[e], [x, y]) { assert [x, y][0] in entities[e] && [x, y][1] in entities[e]; }
      if HasAll(entities[e], [y, x]) { assert [y, x][0] in entities[e] && [y, x][1] in entities[e]; }
    }
  }
}
