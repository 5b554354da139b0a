/** Validation of the API mappings against the entity schemas (configs/api.go). */
module ApiConfig {
  import opened Results
  import opened EntityConfig
  import opened EntityOrder

  type DatastoreSchemas = map<string, Schemas>

  /** The position of a root entity: place in the datastore list, schema, place in the schema. */
  datatype Slot = Slot(datastore: nat, schema: string, index: nat)

  predicate IsSlot(datastores: seq<string>, all: DatastoreSchemas, slot: Slot) {
    && slot.datastore < |datastores|
    && datastores[slot.datastore] in all
    && slot.schema in all[datastores[slot.datastore]]
    && slot.index < |all[datastores[slot.datastore]][slot.schema]|
  }

  function EntityAt(datastores: seq<string>, all: DatastoreSchemas, slot: Slot): Entity
    requires IsSlot(datastores, all, slot)
  {
    all[datastores[slot.datastore]][slot.schema][slot.index]
  }

  /** On every level below the entity, siblings go by different names. */
  predicate SiblingsDistinct(entity: Entity) {
    && (forall i, j :: 0 <= i < j < |entity.entities| ==> !Collide(entity.entities[i], entity.entities[j]))
    && forall i :: 0 <= i < |entity.entities| ==> SiblingsDistinct(entity.entities[i])
  }

  ghost predicate RootsDistinct(datastores: seq<string>, all: DatastoreSchemas) {
    forall a, b ::
      (IsSlot(datastores, all, a) && IsSlot(datastores, all, b)
       && Collide(EntityAt(datastores, all, a), EntityAt(datastores, all, b))) ==> a == b
  }

  ghost predicate NestedDistinct(datastores: seq<string>, all: DatastoreSchemas) {
    forall a :: IsSlot(datastores, all, a) ==> SiblingsDistinct(EntityAt(datastores, all, a))
  }

  /** What a valid mapping promises. */
  ghost predicate Consistent(datastores: seq<string>, all: DatastoreSchemas) {
    && (forall i :: 0 <= i < |datastores| ==> datastores[i] in all)
    && RootsDistinct(datastores, all)
    && NestedDistinct(datastores, all)
  }

  method FindEntityAmbiguity(entity: Entity) returns (ok: bool)
    ensures ok <==> SiblingsDistinct(entity)
    decreases entity
  {
    var duplicatesCache: map<string, nat> := map[];
    for i := 0 to |entity.entities|
      invariant forall j :: 0 <= j < i ==> SiblingsDistinct(entity.entities[j])
      invariant forall j :: 0 <= j < i ==> entity.entities[j].MappedName() in duplicatesCache
                                           && duplicatesCache[entity.entities[j].MappedName()] == j
      invariant forall n :: n in duplicatesCache ==>
                              duplicatesCache[n] < i && entity.entities[duplicatesCache[n]].MappedName() == n
    {
      var search := entity.entities[i].MappedName();
      if search in duplicatesCache {
        return false;
      }
      duplicatesCache := duplicatesCache[search := i];
      var nested := FindEntityAmbiguity(entity.entities[i]);
      if !nested {
        return false;
      }
    }
    return true;
  }

  /** The slots visited before reaching place `index` of schema `current`. */
  ghost predicate Visited(slot: Slot, datastore: nat, seen: set<string>, current: Option<string>, index: nat) {
    || slot.datastore < datastore
    || (slot.datastore == datastore
        && (slot.schema in seen || (current == Some(slot.schema) && slot.index < index)))
  }

  /** The cache names exactly the visited slots, and all of them have sound nested entities. */
  ghost predicate CacheInvariant(datastores: seq<string>, all: DatastoreSchemas, cache: map<string, Slot>,
                                 datastore: nat, seen: set<string>, current: Option<string>, index: nat)
  {
    && (forall slot :: IsSlot(datastores, all, slot) && Visited(slot, datastore, seen, current, index) ==>
          var e := EntityAt(datastores, all, slot);
          e.MappedName() in cache && cache[e.MappedName()] == slot && SiblingsDistinct(e))
    && (forall n :: n in cache ==>
          && IsSlot(datastores, all, cache[n])
          && Visited(cache[n], datastore, seen, current, index)
          && EntityAt(datastores, all, cache[n]).MappedName() == n)
  }

  /** Validate: succeeds exactly on consistent configurations, in whatever order the schemas are visited. */
  method Validate(datastores: seq<string>, all: DatastoreSchemas) returns (ok: bool)
    ensures ok <==> Consistent(datastores, all)
  {
    var duplicatesCache: map<string, Slot> := map[];
    NothingCached(datastores, all);
    hide CacheInvariant, SiblingsDistinct, Consistent;
    for i := 0 to |datastores|
      invariant forall j :: 0 <= j < i ==> datastores[j] in all
      invariant CacheInvariant(datastores, all, duplicatesCache, i, {}, None, 0)
    {
      if datastores[i] !in all {
        NeedsItsDatastores(datastores, all, i);
        return false;
      }
      var dsSchemas := all[datastores[i]];
      var rest := dsSchemas.Keys;
      assert dsSchemas.Keys - rest == {};
      while rest != {}
        invariant rest <= dsSchemas.Keys
        invariant CacheInvariant(datastores, all, duplicatesCache, i, dsSchemas.Keys - rest, None, 0)
        decreases rest
      {
        var schemaName :| schemaName in rest;
        ghost var seen := dsSchemas.Keys - rest;
        var entities := dsSchemas[schemaName];
        SchemaStarts(datastores, all, duplicatesCache, i, seen, schemaName);
        for k := 0 to |entities|
          invariant CacheInvariant(datastores, all, duplicatesCache, i, seen, Some(schemaName), k)
        {
          var search := entities[k].MappedName();
          var slot := Slot(i, schemaName, k);
          assert IsSlot(datastores, all, slot) && EntityAt(datastores, all, slot) == entities[k];
          if search in duplicatesCache {
            DuplicateRoots(datastores, all, duplicatesCache, i, seen, schemaName, k);
            return false;
          }
          var nested := FindEntityAmbiguity(entities[k]);
          if !nested {
            AmbiguousRoot(datastores, all, slot);
            return false;
          }
          ghost var before := duplicatesCache;
          duplicatesCache := duplicatesCache[search := slot];
          CacheGrows(datastores, all, before, i, seen, schemaName, k);
        }
        rest := rest - {schemaName};
        assert dsSchemas.Keys - rest == seen + {schemaName};
        SchemaDone(datastores, all, duplicatesCache, i, seen, schemaName, |entities|);
      }
      assert dsSchemas.Keys - rest == dsSchemas.Keys;
      DatastoreDone(datastores, all, duplicatesCache, i, dsSchemas.Keys);
    }
    AllVisited(datastores, all, duplicatesCache);
    return true;
  }

  lemma NothingCached(datastores: seq<string>, all: DatastoreSchemas)
    ensures CacheInvariant(datastores, all, map[], 0, {}, None, 0)
  {
  }

  lemma NeedsItsDatastores(datastores: seq<string>, all: DatastoreSchemas, i: nat)
    requires i < |datastores| && datastores[i] !in all
    ensures !Consistent(datastores, all)
  {
  }

  /** Two roots with one mapped name. */
  lemma DuplicateRoots(datastores: seq<string>, all: DatastoreSchemas, cache: map<string, Slot>,
                       i: nat, seen: set<string>, schema: string, k: nat)
    requires IsSlot(datastores, all, Slot(i, schema, k)) && schema !in seen
    requires CacheInvariant(datastores, all, cache, i, seen, Some(schema), k)
    requires EntityAt(datastores, all, Slot(i, schema, k)).MappedName() in cache
    ensures !Consistent(datastores, all)
  {
    hide SiblingsDistinct;
    assert cache[EntityAt(datastores, all, Slot(i, schema, k)).MappedName()] != Slot(i, schema, k);
  }

  lemma AmbiguousRoot(datastores: seq<string>, all: DatastoreSchemas, slot: Slot)
    requires IsSlot(datastores, all, slot) && !SiblingsDistinct(EntityAt(datastores, all, slot))
    ensures !Consistent(datastores, all)
  {
  }

  lemma AllVisited(datastores: seq<string>, all: DatastoreSchemas, cache: map<string, Slot>)
    requires forall j :: 0 <= j < |datastores| ==> datastores[j] in all
    requires CacheInvariant(datastores, all, cache, |datastores|, {}, None, 0)
    ensures Consistent(datastores, all)
  {
    hide SiblingsDistinct;
  }

  lemma SchemaStarts(datastores: seq<string>, all: DatastoreSchemas, cache: map<string, Slot>,
                     i: nat, seen: set<string>, schema: string)
    requires CacheInvariant(datastores, all, cache, i, seen, None, 0)
    ensures CacheInvariant(datastores, all, cache, i, seen, Some(schema), 0)
  {
    hide SiblingsDistinct;
  }

  lemma CacheGrows(datastores: seq<string>, all: DatastoreSchemas, cache: map<string, Slot>,
                   i: nat, seen: set<string>, schema: string, k: nat)
    requires IsSlot(datastores, all, Slot(i, schema, k)) && schema !in seen
    requires CacheInvariant(datastores, all, cache, i, seen, Some(schema), k)
    requires EntityAt(datastores, all, Slot(i, schema, k)).MappedName() !in cache
    requires SiblingsDistinct(EntityAt(datastores, all, Slot(i, schema, k)))
    ensures CacheInvariant(datastores, all,
                           cache[EntityAt(datastores, all, Slot(i, schema, k)).MappedName() := Slot(i, schema, k)],
                           i, seen, Some(schema), k + 1)
  {
  }

  lemma SchemaDone(datastores: seq<string>, all: DatastoreSchemas, cache: map<string, Slot>,
                   i: nat, seen: set<string>, schema: string, k: nat)
    requires i < |datastores| && datastores[i] in all && schema in all[datastores[i]]
    requires k == |all[datastores[i]][schema]|
    requires CacheInvariant(datastores, all, cache, i, seen, Some(schema), k)
    ensures CacheInvariant(datastores, all, cache, i, seen + {schema}, None, 0)
  {
  }

  lemma DatastoreDone(datastores: seq<string>, all: DatastoreSchemas, cache: map<string, Slot>, i: nat,
                      seen: set<string>)
    requires i < |datastores| && datastores[i] in all && seen == all[datastores[i]].Keys
    requires CacheInvariant(datastores, all, cache, i, seen, None, 0)
    ensures CacheInvariant(datastores, all, cache, i + 1, {}, None, 0)
  {
  }

  /** A validated configuration makes the search for the schema of an entity independent of the
      order in which a Go map is visited, and makes the found entity the only one of that name. */
  lemma ValidationMakesLookupDeterministic(datastores: seq<string>, all: DatastoreSchemas, alias: string)
    requires Consistent(datastores, all) && alias in datastores
    ensures Unambiguous(all[alias])
    ensures forall schema :: schema in all[alias] ==> DistinctRoots(all[alias][schema])
  {
    var d :| 0 <= d < |datastores| && datastores[d] == alias;
    forall search, s1, s2, e1, e2 | Declares(all[alias], s1, search, e1) && Declares(all[alias], s2, search, e2)
      ensures s1 == s2
    {
      FirstNamedExists(all[alias][s1], search);
      FirstNamedExists(all[alias][s2], search);
      var i :| 0 <= i < |all[alias][s1]| && all[alias][s1][i] == e1 && e1.MappedName() == search;
      var j :| 0 <= j < |all[alias][s2]| && all[alias][s2][j] == e2 && e2.MappedName() == search;
      assert IsSlot(datastores, all, Slot(d, s1, i)) && IsSlot(datastores, all, Slot(d, s2, j));
      assert EntityAt(datastores, all, Slot(d, s1, i)).MappedName() ==
          EntityAt(datastores, all, Slot(d, s2, j)).MappedName();
    }
    forall schema | schema in all[alias] ensures DistinctRoots(all[alias][schema]) {
      var roots := all[alias][schema];
      forall i, j | 0 <= i < j < |roots| ensures roots[i].MappedName() != roots[j].MappedName() {
        assert IsSlot(datastores, all, Slot(d, schema, i)) && IsSlot(datastores, all, Slot(d, schema, j));
        assert EntityAt(datastores, all, Slot(d, schema, i)) == roots[i];
        assert EntityAt(datastores, all, Slot(d, schema, j)) == roots[j];
      }
    }
  }

  /** What is found below an entity by a list of names is one entity at most exactly when its siblings are distinct
      on every level. */
  lemma {:induction false} SiblingsDistinctExactly(entity: Entity)
    ensures SiblingsDistinct(entity) <==> AllDistinct(entity.entities)
    ensures SiblingsDistinct(entity) <==> NamesAreWays(entity.entities)
    decreases entity
  {
    forall i | 0 <= i < |entity.entities| {
      SiblingsDistinctExactly(entity.entities[i]);
    }
    DistinctExactlyWhenNamesAreWays(entity.entities);
  }

  /** A valid mapping finds every name in one datastore only, in one of its schemas, and below every root a list of
      names leads to one entity at most. */
  lemma ValidationMakesNamesUnique(datastores: seq<string>, all: DatastoreSchemas, a: string, b: string,
                                   s: string, t: string, d: Entity, e: Entity, name: string)
    requires Consistent(datastores, all) && a in datastores && b in datastores
    requires s in all[a] && d in all[a][s] && Called(d, name)
    requires t in all[b] && e in all[b][t] && Called(e, name)
    ensures a == b && s == t && d == e && NamesAreWays(d.entities)
  {
    var i :| 0 <= i < |datastores| && datastores[i] == a;
    var j :| 0 <= j < |datastores| && datastores[j] == b;
    var k :| 0 <= k < |all[a][s]| && all[a][s][k] == d;
    var l :| 0 <= l < |all[b][t]| && all[b][t][l] == e;
    var first, second := Slot(i, s, k), Slot(j, t, l);
    assert IsSlot(datastores, all, first) && IsSlot(datastores, all, second);
    assert EntityAt(datastores, all, first) == d && EntityAt(datastores, all, second) == e;
    CollidingNames(d, e);
    SiblingsDistinctExactly(d);
  }

  /** No two roots of the mapping go by one name. */
  ghost predicate RootNamesUnique(datastores: seq<string>, all: DatastoreSchemas) {
    forall a, b, name ::
      (IsSlot(datastores, all, a) && IsSlot(datastores, all, b)
       && Called(EntityAt(datastores, all, a), name) && Called(EntityAt(datastores, all, b), name)) ==> a == b
  }

  /** Below every root, a list of names leads to one entity at most. */
  ghost predicate NestedNamesAreWays(datastores: seq<string>, all: DatastoreSchemas) {
    forall a :: IsSlot(datastores, all, a) ==> NamesAreWays(EntityAt(datastores, all, a).entities)
  }

  /** A mapping is valid exactly when its datastores are configured and names identify entities. */
  lemma ConsistentExactly(datastores: seq<string>, all: DatastoreSchemas)
    ensures Consistent(datastores, all) <==>
            && (forall ds :: ds in datastores ==> ds in all)
            && RootNamesUnique(datastores, all)
            && NestedNamesAreWays(datastores, all)
  {
    hide SiblingsDistinct, NamesAreWays, Called, Collide;
    forall a | IsSlot(datastores, all, a)
      ensures SiblingsDistinct(EntityAt(datastores, all, a)) <==> NamesAreWays(EntityAt(datastores, all, a).entities)
    {
      SiblingsDistinctExactly(EntityAt(datastores, all, a));
    }
    forall a, b | IsSlot(datastores, all, a) && IsSlot(datastores, all, b)
      ensures Collide(EntityAt(datastores, all, a), EntityAt(datastores, all, b)) <==>
              exists name :: Called(EntityAt(datastores, all, a), name) && Called(EntityAt(datastores, all, b), name)
    {
      CollidingNames(EntityAt(datastores, all, a), EntityAt(datastores, all, b));
    }
  }
}
