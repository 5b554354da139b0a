/** Entity schemas and the path index over entity trees (configs/datastore.go). */
module EntityConfig {
  import opened Results

  datatype Entity = Entity(name: string, alias: string, entities: seq<Entity>) {
    /** The alias when there is one, otherwise the name. */
    function MappedName(): string {
      if alias != "" then alias else name
    }
  }

  /** The entity goes by this name: its alias if it has one, its own name otherwise. */
  predicate Called(entity: Entity, name: string) {
    (entity.alias != "" && entity.alias == name) || (entity.alias == "" && entity.name == name)
  }

  /** Both entities go by one name. */
  predicate Collide(a: Entity, b: Entity) {
    || (a.alias != "" && b.alias != "" && a.alias == b.alias)
    || (a.alias == "" && b.alias == "" && a.name == b.name)
    || (a.alias != "" && b.alias == "" && a.alias == b.name)
    || (a.alias == "" && b.alias != "" && a.name == b.alias)
  }

  lemma CalledByMappedName(entity: Entity, name: string)
    ensures entity.MappedName() == name <==> Called(entity, name)
  {
  }

  lemma CollidingNames(a: Entity, b: Entity)
    ensures a.MappedName() == b.MappedName() <==> Collide(a, b)
    ensures Collide(a, b) <==> exists name :: Called(a, name) && Called(b, name)
  {
    if Collide(a, b) {
      assert Called(a, a.MappedName()) && Called(b, a.MappedName());
    }
  }

  /** The schemas of one datastore: schema name to root entities. */
  type Schemas = map<string, seq<Entity>>

  // ---------------------------------------------------------------- lookup

  /** The first entity of the list with the given mapped name. */
  function FirstNamed(entities: seq<Entity>, search: string): Option<Entity> {
    if entities == [] then None
    else if entities[0].MappedName() == search then Some(entities[0])
    else FirstNamed(entities[1..], search)
  }

  lemma {:induction false} FirstNamedExists(entities: seq<Entity>, search: string)
    ensures FirstNamed(entities, search).Some? <==>
            exists i :: 0 <= i < |entities| && entities[i].MappedName() == search
    ensures FirstNamed(entities, search).Some? ==>
              exists i :: 0 <= i < |entities| && entities[i] == FirstNamed(entities, search).value
                          && entities[i].MappedName() == search
  {
    if entities != [] && entities[0].MappedName() != search {
      FirstNamedExists(entities[1..], search);
      if FirstNamed(entities[1..], search).Some? {
        var i :| 0 <= i < |entities[1..]| && entities[1..][i] == FirstNamed(entities[1..], search).value
                 && entities[1..][i].MappedName() == search;
        assert entities[i + 1] == entities[1..][i];
      } else {
        forall i | 0 <= i < |entities| ensures entities[i].MappedName() != search {
          assert i > 0 ==> entities[i] == entities[1..][i - 1];
        }
      }
    }
  }

  /** The entity is the first one that goes by the name. */
  ghost predicate FirstCalled(entities: seq<Entity>, name: string, entity: Entity) {
    exists i :: 0 <= i < |entities| && entities[i] == entity && Called(entity, name)
                && forall j :: 0 <= j < i ==> !Called(entities[j], name)
  }

  ghost predicate NoneCalled(entities: seq<Entity>, name: string) {
    forall i :: 0 <= i < |entities| ==> !Called(entities[i], name)
  }

  lemma {:induction false} FirstNamedExactly(entities: seq<Entity>, search: string)
    ensures FirstNamed(entities, search) == None <==> NoneCalled(entities, search)
    ensures FirstNamed(entities, search).Some? ==> FirstCalled(entities, search, FirstNamed(entities, search).value)
  {
    if entities != [] {
      CalledByMappedName(entities[0], search);
      if Called(entities[0], search) {
        assert FirstCalled(entities, search, entities[0]);
      } else {
        FirstNamedExactly(entities[1..], search);
        assert forall i :: 0 < i < |entities| ==> entities[i] == entities[1..][i - 1];
        var rest := entities[1..];
        if FirstNamed(rest, search).Some? {
          var i :| 0 <= i < |rest| && rest[i] == FirstNamed(rest, search).value && Called(rest[i], search)
                   && forall j :: 0 <= j < i ==> !Called(rest[j], search);
          assert entities[i + 1] == rest[i];
        }
      }
    }
  }

  method ContainsEntity(entities: seq<Entity>, search: string) returns (r: Option<Entity>)
    ensures r == FirstNamed(entities, search)
    ensures r == None <==> NoneCalled(entities, search)
    ensures r.Some? ==> FirstCalled(entities, search, r.value)
  {
    FirstNamedExactly(entities, search);
    for i := 0 to |entities|
      invariant FirstNamed(entities, search) == FirstNamed(entities[i..], search)
    {
      if search == entities[i].MappedName() {
        return Some(entities[i]);
      }
    }
    return None;
  }

  /** `schema` declares `search` among its root entities, as `entity`. */
  predicate Declares(schemas: Schemas, schema: string, search: string, entity: Entity) {
    schema in schemas && FirstNamed(schemas[schema], search) == Some(entity)
  }

  /** No mapped name is declared by two schemas. */
  ghost predicate Unambiguous(schemas: Schemas) {
    forall search, s1, s2, e1, e2 ::
      Declares(schemas, s1, search, e1) && Declares(schemas, s2, search, e2) ==> s1 == s2
  }

  /** The declaration of an entity; well-determined when the schemas are unambiguous. */
  ghost function Lookup(schemas: Schemas, search: string): (r: Option<(string, Entity)>)
    ensures r.Some? ==> Declares(schemas, r.value.0, search, r.value.1)
    ensures r.None? ==> forall s, e :: !Declares(schemas, s, search, e)
  {
    if exists s, e :: Declares(schemas, s, search, e) then
      var s, e :| Declares(schemas, s, search, e);
      Some((s, e))
    else None
  }

  /** findSchemaForEntity: visits the schemas in the arbitrary order of a Go map. */
  method FindSchemaForEntity(schemas: Schemas, search: string) returns (r: Option<(string, Entity)>)
    ensures r.Some? ==> Declares(schemas, r.value.0, search, r.value.1)
    ensures r.None? ==> forall s, e :: !Declares(schemas, s, search, e)
    ensures Unambiguous(schemas) ==> r == Lookup(schemas, search)
    ensures r.Some? ==> r.value.0 in schemas && FirstCalled(schemas[r.value.0], search, r.value.1)
    ensures r == None <==> forall s :: s in schemas ==> NoneCalled(schemas[s], search)
  {
    forall s | s in schemas {
      FirstNamedExactly(schemas[s], search);
    }
    var rest := schemas.Keys;
    while rest != {}
      invariant rest <= schemas.Keys
      invariant forall s, e :: s !in rest ==> !Declares(schemas, s, search, e)
      decreases rest
    {
      var s :| s in rest;
      var found := ContainsEntity(schemas[s], search);
      if found.Some? {
        assert Declares(schemas, s, search, found.value);
        return Some((s, found.value));
      }
      rest := rest - {s};
    }
    forall s | s in schemas ensures NoneCalled(schemas[s], search) {
      if FirstNamed(schemas[s], search).Some? {
        assert Declares(schemas, s, search, FirstNamed(schemas[s], search).value);
      }
    }
    return None;
  }

  // ---------------------------------------------------------------- path index

  type Paths = map<string, map<string, seq<string>>>

  /** The mapped names of a subtree in preorder, each with the names on the way to it. */
  function Listing(curr: Entity, history: seq<string>): seq<(string, seq<string>)>
    decreases curr, 1
  {
    [(curr.MappedName(), history + [curr.name])] + ListingAll(curr.entities, history + [curr.name])
  }

  function ListingAll(entities: seq<Entity>, history: seq<string>): seq<(string, seq<string>)>
    decreases entities, 0
  {
    if entities == [] then []
    else Listing(entities[0], history) + ListingAll(entities[1..], history)
  }

  /** Writes the entries one after the other; a later entry replaces an earlier one. */
  function Store(paths: map<string, seq<string>>, entries: seq<(string, seq<string>)>): map<string, seq<string>>
    decreases |entries|
  {
    if entries == [] then paths
    else Store(paths[entries[0].0 := entries[0].1], entries[1..])
  }

  function StoreUnder(paths: Paths, start: string, entries: seq<(string, seq<string>)>): Paths {
    paths[start := Store(if start in paths then paths[start] else map[], entries)]
  }

  lemma {:induction false} StoreAppend(
    paths: map<string, seq<string>>, a: seq<(string, seq<string>)>, b: seq<(string, seq<string>)>)
    ensures Store(paths, a + b) == Store(Store(paths, a), b)
    decreases |a|
  {
    if a == [] {
      assert a + b == b;
    } else {
      assert (a + b)[1..] == a[1..] + b;
      StoreAppend(paths[a[0].0 := a[0].1], a[1..], b);
    }
  }

  lemma StoreUnderAppend(paths: Paths, start: string, a: seq<(string, seq<string>)>, b: seq<(string, seq<string>)>)
    ensures StoreUnder(paths, start, a + b) == StoreUnder(StoreUnder(paths, start, a), start, b)
  {
    StoreAppend(if start in paths then paths[start] else map[], a, b);
  }

  class PathIndex {
    var paths: Paths

    constructor ()
      ensures paths == map[]
    {
      paths := map[];
    }

    method GenerateEntityPaths(entities: seq<Entity>)
      modifies this
      ensures paths == PathsOf(entities)
    {
      paths := map[];
      for i := 0 to |entities|
        invariant paths == PathsOf(entities[..i])
      {
        Crawl(entities[i].MappedName(), entities[i], []);
        assert entities[..i + 1] == entities[..i] + [entities[i]];
      }
      assert entities[..|entities|] == entities;
    }

    method Crawl(start: string, curr: Entity, pathHistory: seq<string>)
      modifies this
      ensures paths == StoreUnder(old(paths), start, Listing(curr, pathHistory))
      decreases curr
    {
      if start !in paths {
        paths := paths[start := map[]];
      }
      var history := pathHistory + [curr.name];
      paths := paths[start := paths[start][curr.MappedName() := history]];
      ghost var before := paths;
      ghost var entry := [(curr.MappedName(), history)];
      ghost var known := if start in old(paths) then old(paths)[start] else map[];
      assert entry[1..] == [] && Store(known, entry) == Store(known[curr.MappedName() := history], []);
      assert before == StoreUnder(old(paths), start, entry);
      for i := 0 to |curr.entities|
        invariant start in before && paths == StoreUnder(before, start, ListingAll(curr.entities[..i], history))
      {
        Crawl(start, curr.entities[i], history);
        StoreUnderAppend(before, start, ListingAll(curr.entities[..i], history), Listing(curr.entities[i], history));
        ListingAllSnoc(curr.entities[..i], curr.entities[i], history);
        assert curr.entities[..i + 1] == curr.entities[..i] + [curr.entities[i]];
      }
      assert curr.entities[..|curr.entities|] == curr.entities;
      StoreUnderAppend(old(paths), start, entry, ListingAll(curr.entities, history));
    }
  }

  lemma {:induction false} ListingAllSnoc(entities: seq<Entity>, last: Entity, history: seq<string>)
    ensures ListingAll(entities + [last], history) == ListingAll(entities, history) + Listing(last, history)
  {
    if entities == [] {
      assert [last][1..] == [];
    } else {
      assert (entities + [last])[1..] == entities[1..] + [last];
      ListingAllSnoc(entities[1..], last, history);
    }
  }

  /** The whole index: the entries of the roots, written in order. */
  function PathsOf(entities: seq<Entity>): Paths {
    if entities == [] then map[]
    else
      var root := entities[|entities| - 1];
      StoreUnder(PathsOf(entities[..|entities| - 1]), root.MappedName(), Listing(root, []))
  }

  // ---------------------------------------------------------------- what the index means

  /** `path` spells the names from `root` down to an entity with the given mapped name. */
  ghost predicate LeadsTo(root: Entity, path: seq<string>, mapped: string)
    decreases |path|
  {
    && path != [] && path[0] == root.name
    && if |path| == 1 then Called(root, mapped)
       else exists i :: 0 <= i < |root.entities| && LeadsTo(root.entities[i], path[1..], mapped)
  }

  /** Some entity of the tree has the mapped name. */
  ghost predicate OccursIn(root: Entity, mapped: string) {
    exists path :: LeadsTo(root, path, mapped)
  }

  /** The last entry for a name. */
  ghost predicate IsLast(entries: seq<(string, seq<string>)>, mapped: string, path: seq<string>) {
    exists k :: 0 <= k < |entries| && entries[k] == (mapped, path)
                && forall l :: k < l < |entries| ==> entries[l].0 != mapped
  }

  lemma {:induction false} StoreKeepsLast(paths: map<string, seq<string>>, entries: seq<(string, seq<string>)>,
                                          mapped: string)
    ensures mapped in Store(paths, entries) <==>
            mapped in paths || exists k :: 0 <= k < |entries| && entries[k].0 == mapped
    ensures (exists k :: 0 <= k < |entries| && entries[k].0 == mapped) ==>
              mapped in Store(paths, entries) && IsLast(entries, mapped, Store(paths, entries)[mapped])
    ensures mapped in paths && (forall k :: 0 <= k < |entries| ==> entries[k].0 != mapped) ==>
              mapped in Store(paths, entries) && Store(paths, entries)[mapped] == paths[mapped]
    decreases |entries|
  {
    if entries != [] {
      var next := paths[entries[0].0 := entries[0].1];
      var rest := entries[1..];
      StoreKeepsLast(next, rest, mapped);
      assert forall k :: 0 <= k < |rest| ==> entries[k + 1] == rest[k];
      assert forall k :: 0 < k < |entries| ==> entries[k] == rest[k - 1];
      if exists k :: 0 <= k < |rest| && rest[k].0 == mapped {
        var path := Store(next, rest)[mapped];
        var k :| 0 <= k < |rest| && rest[k] == (mapped, path) && forall l :: k < l < |rest| ==> rest[l].0 != mapped;
        assert entries[k + 1] == (mapped, path);
      } else if entries[0].0 == mapped {
        assert entries[0] == (mapped, Store(paths, entries)[mapped]);
      }
    }
  }

  ghost predicate Lists(entries: seq<(string, seq<string>)>, mapped: string, path: seq<string>) {
    exists k :: 0 <= k < |entries| && entries[k] == (mapped, path)
  }

  lemma ListsAppend(a: seq<(string, seq<string>)>, b: seq<(string, seq<string>)>, mapped: string, path: seq<string>)
    ensures Lists(a + b, mapped, path) <==> Lists(a, mapped, path) || Lists(b, mapped, path)
  {
    if Lists(a, mapped, path) {
      var k :| 0 <= k < |a| && a[k] == (mapped, path);
      assert (a + b)[k] == (mapped, path);
    }
    if Lists(b, mapped, path) {
      var k :| 0 <= k < |b| && b[k] == (mapped, path);
      assert (a + b)[|a| + k] == (mapped, path);
    }
  }

  /** The crawl lists exactly the paths of the tree. */
  lemma {:induction false} ListingIsPaths(root: Entity, history: seq<string>, mapped: string, path: seq<string>)
    ensures Lists(Listing(root, history), mapped, path) <==>
            history <= path && LeadsTo(root, path[|history|..], mapped)
    decreases root, 1
  {
    var h := history + [root.name];
    var head := [(root.MappedName(), h)];
    ListsAppend(head, ListingAll(root.entities, h), mapped, path);
    ListingAllIsPaths(root.entities, h, mapped, path);
    assert Lists(head, mapped, path) <==> path == h && mapped == root.MappedName() by {
      assert head[0] == (root.MappedName(), h);
    }
    if history <= path && LeadsTo(root, path[|history|..], mapped) {
      assert path[|history|..][0] == path[|history|];
      assert h <= path;
      assert path[|history|..][1..] == path[|h|..];
      if |path| == |h| {
        assert path == h;
      }
    }
    if Lists(ListingAll(root.entities, h), mapped, path) {
      var i :| 0 <= i < |root.entities| && h <= path && LeadsTo(root.entities[i], path[|h|..], mapped);
      assert path[|history|..][1..] == path[|h|..];
      assert path[|history|..][0] == h[|history|];
    }
  }

  lemma {:induction false} ListingAllIsPaths(entities: seq<Entity>, history: seq<string>, mapped: string,
                                             path: seq<string>)
    ensures Lists(ListingAll(entities, history), mapped, path) <==>
            exists i :: 0 <= i < |entities| && history <= path && LeadsTo(entities[i], path[|history|..], mapped)
    decreases entities, 0
  {
    if entities != [] {
      ListsAppend(Listing(entities[0], history), ListingAll(entities[1..], history), mapped, path);
      ListingIsPaths(entities[0], history, mapped, path);
      ListingAllIsPaths(entities[1..], history, mapped, path);
      if exists i :: 0 <= i < |entities[1..]| && history <= path
          && LeadsTo(entities[1..][i], path[|history|..], mapped) {
        var i :| 0 <= i < |entities[1..]| && history <= path && LeadsTo(entities[1..][i], path[|history|..], mapped);
        assert entities[i + 1] == entities[1..][i];
      }
      assert forall i :: 0 < i < |entities| ==> entities[i] == entities[1..][i - 1];
    }
  }

  predicate DistinctRoots(roots: seq<Entity>) {
    forall i, j :: 0 <= i < j < |roots| ==> !Collide(roots[i], roots[j])
  }

  lemma {:induction false} PathsOfRoot(roots: seq<Entity>, i: nat)
    requires DistinctRoots(roots) && i < |roots|
    ensures roots[i].MappedName() in PathsOf(roots)
    ensures PathsOf(roots)[roots[i].MappedName()] == Store(map[], Listing(roots[i], []))
    ensures forall start :: start in PathsOf(roots) ==> exists j :: 0 <= j < |roots| && roots[j].MappedName() == start
  {
    PathsOfStarts(roots);
    if i < |roots| - 1 {
      PathsOfRoot(roots[..|roots| - 1], i);
    } else {
      PathsOfStarts(roots[..i]);
      assert roots[i].MappedName() !in PathsOf(roots[..i]);
    }
  }

  lemma {:induction false} PathsOfStarts(roots: seq<Entity>)
    ensures forall start :: start in PathsOf(roots) ==> exists j :: 0 <= j < |roots| && roots[j].MappedName() == start
  {
    if roots != [] {
      PathsOfStarts(roots[..|roots| - 1]);
    }
  }

  /** For roots with distinct mapped names, the index of a root holds exactly the mapped names
      of its tree; the stored path leads to an entity with that name and is the path of the
      last such entity in preorder. */
  lemma PathIndexAgreesWithTree(roots: seq<Entity>, i: nat, mapped: string)
    requires DistinctRoots(roots) && i < |roots|
    ensures roots[i].MappedName() in PathsOf(roots)
    ensures var index := PathsOf(roots)[roots[i].MappedName()];
            && (mapped in index <==> OccursIn(roots[i], mapped))
            && (mapped in index ==>
                  LeadsTo(roots[i], index[mapped], mapped) && IsLast(Listing(roots[i], []), mapped, index[mapped]))
  {
    PathsOfRoot(roots, i);
    var entries := Listing(roots[i], []);
    var index := Store(map[], entries);
    StoreKeepsLast(map[], entries, mapped);
    forall path ensures Lists(entries, mapped, path) <==> LeadsTo(roots[i], path, mapped) {
      ListingIsPaths(roots[i], [], mapped, path);
      assert path[0..] == path;
    }
    if mapped in index {
      assert Lists(entries, mapped, index[mapped]);
    }
    if OccursIn(roots[i], mapped) {
      var path :| LeadsTo(roots[i], path, mapped);
      assert Lists(entries, mapped, path);
      var k :| 0 <= k < |entries| && entries[k] == (mapped, path);
      assert entries[k].0 == mapped;
      assert LeadsTo(roots[i], path, mapped);
    }
  }

  /** A name that occurs on one path only is indexed with that path. */
  lemma UniqueNameHasItsPath(roots: seq<Entity>, i: nat, mapped: string, path: seq<string>)
    requires DistinctRoots(roots) && i < |roots|
    requires LeadsTo(roots[i], path, mapped)
    requires forall other :: LeadsTo(roots[i], other, mapped) ==> other == path
    ensures roots[i].MappedName() in PathsOf(roots)
    ensures mapped in PathsOf(roots)[roots[i].MappedName()]
    ensures PathsOf(roots)[roots[i].MappedName()][mapped] == path
  {
    PathIndexAgreesWithTree(roots, i, mapped);
    assert LeadsTo(roots[i], path, mapped);
  }

  // ---------------------------------------------------------------- several schemas

  /** The index of a datastore takes the entry of every root from one of its schemas. */
  ghost predicate MergedFrom(schemas: Schemas, paths: Paths) {
    && (forall s, root :: s in schemas && root in PathsOf(schemas[s]) ==> root in paths)
    && (forall root :: root in paths ==> HasEntry(schemas, root, paths[root]))
  }

  ghost predicate HasEntry(schemas: Schemas, root: string, entry: map<string, seq<string>>) {
    exists s :: s in schemas && root in PathsOf(schemas[s]) && entry == PathsOf(schemas[s])[root]
  }

  lemma MergeOne(schemas: Schemas, s: string, roots: seq<Entity>, paths: Paths)
    requires MergedFrom(schemas, paths) && s !in schemas
    ensures MergedFrom(schemas[s := roots], paths + PathsOf(roots))
  {
    hide PathsOf;
    var more := schemas[s := roots];
    assert more[s] == roots;
    forall root | root in paths + PathsOf(roots) ensures HasEntry(more, root, (paths + PathsOf(roots))[root]) {
      if root !in PathsOf(roots) {
        assert HasEntry(schemas, root, paths[root]);
        var t :| t in schemas && root in PathsOf(schemas[t]) && paths[root] == PathsOf(schemas[t])[root];
        assert more[t] == schemas[t];
      }
    }
  }

  /** Copies the index of one schema after the other, in the arbitrary order of a Go map. */
  method MergePaths(schemas: Schemas) returns (paths: Paths)
    ensures MergedFrom(schemas, paths)
  {
    paths := map[];
    var rest := schemas.Keys;
    ghost var merged: Schemas := map[];
    while rest != {}
      invariant rest <= schemas.Keys && merged.Keys == schemas.Keys - rest
      invariant forall s :: s in merged ==> merged[s] == schemas[s]
      invariant MergedFrom(merged, paths)
      decreases rest
    {
      hide MergedFrom, PathsOf;
      var s :| s in rest;
      MergeOne(merged, s, schemas[s], paths);
      merged := merged[s := schemas[s]];
      var index := new PathIndex();
      index.GenerateEntityPaths(schemas[s]);
      paths := paths + index.paths;
      rest := rest - {s};
    }
    assert merged == schemas;
  }

  /** The mapped names of roots are declared by their schema. */
  lemma RootIsDeclared(schemas: Schemas, s: string, i: nat)
    requires s in schemas && i < |schemas[s]|
    ensures exists e :: Declares(schemas, s, schemas[s][i].MappedName(), e)
  {
    var name := schemas[s][i].MappedName();
    FirstNamedExists(schemas[s], name);
    var found := FirstNamed(schemas[s], name);
    assert Declares(schemas, s, name, found.value);
  }

  /** Where no name is declared by two schemas, a root's entry is that of its own schema, in whatever order
      the schemas are merged. */
  lemma MergingKeepsIndexes(schemas: Schemas, paths: Paths, s: string, i: nat)
    requires MergedFrom(schemas, paths) && Unambiguous(schemas)
    requires s in schemas && i < |schemas[s]| && DistinctRoots(schemas[s])
    ensures var root := schemas[s][i].MappedName();
            root in paths && root in PathsOf(schemas[s]) && paths[root] == PathsOf(schemas[s])[root]
  {
    var root := schemas[s][i].MappedName();
    PathsOfRoot(schemas[s], i);
    RootIsDeclared(schemas, s, i);
    assert HasEntry(schemas, root, paths[root]);
    var other :| other in schemas && root in PathsOf(schemas[other]) && paths[root] == PathsOf(schemas[other])[root];
    PathsOfStarts(schemas[other]);
    var j :| 0 <= j < |schemas[other]| && schemas[other][j].MappedName() == root;
    RootIsDeclared(schemas, other, j);
  }
}
