/**
 * The set of live entities (Manager::EntityContainer in src/manager.hpp and
 * Manager::EntityContainer::create in src/manager.cpp): a fixed array of 4096
 * identifiers, a live count and the last identifier handed out.
 */
module EntityContainer {
  import opened Component

  const MAX_ENTITIES: nat := 4096
  const ENTITY_START_ID: nat := 10

  /** Index of the first occurrence of e in s. */
  function IndexOf(s: seq<Entity>, e: Entity): (k: nat)
    requires e in s
    ensures k < |s| && s[k] == e && e !in s[..k]
  {
    if s[0] == e then 0 else 1 + IndexOf(s[1..], e)
  }

  /** remove: the first occurrence is overwritten by the last entity and the count drops. */
  function RemoveSpec(s: seq<Entity>, e: Entity): (r: seq<Entity>)
  {
    if e in s then
      var k := IndexOf(s, e);
      s[k := s[|s| - 1]][..|s| - 1]
    else s
  }

  ghost predicate Distinct(s: seq<Entity>)
  {
    forall i, j :: 0 <= i < j < |s| ==> s[i] != s[j]
  }

  /** Removing from a duplicate-free sequence removes exactly that entity. */
  lemma RemoveSpecRemoves(s: seq<Entity>, e: Entity)
    requires Distinct(s)
    ensures Distinct(RemoveSpec(s, e))
    ensures (set x | x in RemoveSpec(s, e)) == (set x | x in s) - {e}
    ensures |RemoveSpec(s, e)| == if e in s then |s| - 1 else |s|
  {
    if e in s {
      var k := IndexOf(s, e);
      var r := RemoveSpec(s, e);
      var last := |s| - 1;
      forall x | x in s && x != e ensures x in r {
        var j :| 0 <= j < |s| && s[j] == x;
        if j == last { assert r[k] == x; } else { assert r[j] == x; }
      }
      forall x | x in r ensures x in s && x != e {
        var j :| 0 <= j < |r| && r[j] == x;
        if j == k { assert x == s[last]; } else { assert x == s[j]; }
      }
    }
  }

  class EntityContainer {
    const entities: array<Entity>
    var entitiesCount: nat
    var previousEntityId: nat

    /**
     * Live identifiers are distinct, never INVALID_ENTITY, and no larger than
     * the last identifier handed out.
     */
    ghost predicate Valid()
      reads this, entities
    {
      && entities.Length == MAX_ENTITIES
      && entitiesCount <= MAX_ENTITIES
      && ENTITY_START_ID <= previousEntityId
      && Distinct(entities[..entitiesCount])
      && (forall k :: 0 <= k < entitiesCount ==> ENTITY_START_ID < entities[k] <= previousEntityId)
    }

    /** The live identifiers in array order. */
    function Entities(): (s: seq<Entity>)
      reads this, entities
      requires entitiesCount <= entities.Length
    {
      entities[..entitiesCount]
    }

    function Live(): (s: set<Entity>)
      reads this, entities
      requires entitiesCount <= entities.Length
    {
      set x | x in entities[..entitiesCount]
    }

    constructor ()
      ensures Valid() && Entities() == [] && previousEntityId == ENTITY_START_ID
      ensures fresh(entities)
    {
      entities := new Entity[MAX_ENTITIES];
      entitiesCount := 0;
      previousEntityId := ENTITY_START_ID;
    }

    /** create: hands out the identifier after the previous one and appends it. */
    method Create() returns (e: Entity)
      requires Valid() && entitiesCount < MAX_ENTITIES
      requires previousEntityId + 1 < U64
      modifies this, entities
      ensures Valid()
      ensures e == old(previousEntityId) + 1 && previousEntityId == e
      ensures e !in old(Live())
      ensures Entities() == old(Entities()) + [e]
    {
      e := previousEntityId + 1;
      entities[entitiesCount] := e;
      entitiesCount := entitiesCount + 1;
      previousEntityId := e;
      assert entities[..entitiesCount] == old(Entities()) + [e];
    }

    method Remove(e: Entity)
      requires Valid()
      modifies this, entities
      ensures Valid()
      ensures previousEntityId == old(previousEntityId)
      ensures Entities() == RemoveSpec(old(Entities()), e)
      ensures Live() == old(Live()) - {e}
    {
      ghost var s := Entities();
      RemoveSpecRemoves(s, e);
      var k := 0;
      while k < entitiesCount && entities[k] != e
        invariant 0 <= k <= entitiesCount
        invariant e !in entities[..k]
      {
        k := k + 1;
      }
      if k == entitiesCount {
        assert entities[..k] == s;
        return;
      }
      assert e in s && IndexOf(s, e) == k by {
        assert s[k] == e;
        IndexOfFirst(s, e, k);
      }
      var last := entitiesCount - 1;
      entities[k], entities[last] := entities[last], entities[k];
      entitiesCount := last;
      assert entities[..entitiesCount] == s[k := s[last]][..last];
    }

    /** contains: INVALID_ENTITY is never contained; otherwise a linear search of the live prefix. */
    method Contains(e: Entity) returns (b: bool)
      requires Valid()
      ensures b <==> e != INVALID_ENTITY && e in Live()
    {
      if e == INVALID_ENTITY {
        return false;
      }
      var k := 0;
      while k < entitiesCount
        invariant 0 <= k <= entitiesCount
        invariant e !in entities[..k]
      {
        if entities[k] == e {
          assert e in entities[..entitiesCount];
          return true;
        }
        k := k + 1;
      }
      assert entities[..k] == entities[..entitiesCount];
      b := false;
    }
  }

  lemma {:induction false} IndexOfFirst(s: seq<Entity>, e: Entity, k: nat)
    requires k < |s| && s[k] == e && e !in s[..k]
    ensures IndexOf(s, e) == k
  {
    if k > 0 {
      assert s[1..][..k - 1] == s[1..k];
      assert s[0] != e by { assert s[0] == s[..k][0]; }
      IndexOfFirst(s[1..], e, k - 1);
    }
  }
}
