/** Which table an entity name stands for when several schemas declare it: findSchemaForEntity visits the
    schemas in the arbitrary order of a Go map (internal/pkg/data/sql-datastore-translator.go). */
module SqlLookups {
  import opened Results
  import opened EntityConfig
  import opened QueryAst
  import opened Tokens
  import opened SqlTranslator
  import opened SqlWords

  /** The translation of a union does not depend on the order of the schemas. */
  ghost predicate OneOutcome(cfg: Config, union: seq<Query>) {
    forall r1, r2 ::
      MayRun(cfg, INITIAL, WalkUnion(union), r1) && MayRun(cfg, INITIAL, WalkUnion(union), r2) ==> r1 == r2
  }

  ghost predicate AlwaysOneOutcome(cfg: Config) {
    forall union :: OneOutcome(cfg, union)
  }

  /** The union of one query that counts the rows of a table. */
  function Counting(entity: string): seq<Query> {
    [Query(entity, [], [])]
  }

  function Counted(table: string): (r: Result<State, SqlError>)
    ensures r.Ok? && |r.value.query| == 1 && r.value.query[0] == "SELECT count(*) FROM " + table
  {
    assert "SELECT count(*) FROM " + table + "" + "" == "SELECT count(*) FROM " + table;
    Ok(INITIAL.(query := ["SELECT count(*) FROM " + table]))
  }

  lemma MayContinue(
    cfg: Config, s: State, visits: seq<Visit>, i: nat, next: State, end: Result<State, SqlError>
  )
    requires i < |visits| && MayStep(cfg, s, visits[i], Ok(next)) && MayRun(cfg, next, visits[i + 1..], end)
    ensures MayRun(cfg, s, visits[i..], end)
  {
    hide Step;
    assert visits[i..][0] == visits[i] && visits[i..][1..] == visits[i + 1..];
  }

  /** The visits of a query without link and clauses, from the initial state. */
  lemma CountingSteps(cfg: Config, table: string)
    ensures forall v :: v in {VisitLink, VisitConjunction, VisitCondition} ==> Step(cfg, INITIAL, v) == Ok(INITIAL)
    ensures var selected := INITIAL.(selects := ["SELECT count(*) FROM " + table]);
            && Step(cfg, INITIAL.(entities := [table]), VisitQuery) == Ok(selected)
            && Step(cfg, selected, VisitUnion) == Counted(table)
  {
    assert [] + JoinClauses([]) == [];
    assert SelectText(table, [], "") == "SELECT count(*) FROM " + table;
    assert [] + [Join(["SELECT count(*) FROM " + table], " UNION ")] == ["SELECT count(*) FROM " + table];
  }

  lemma CountingVisits(entity: string)
    ensures WalkUnion(Counting(entity)) ==
            [VisitLink, VisitConjunction, VisitCondition, VisitEntity(entity), VisitQuery, VisitUnion]
  {
    assert WalkQueries(Counting(entity)) == WalkQuery(Counting(entity)[0]);
    assert WalkEntities([]) == [] && WalkOperands([]) == [];
  }

  lemma CountingMayRun(cfg: Config, entity: string, schema: string, e: Entity)
    requires Declares(cfg.schemas, schema, entity, e)
    ensures MayRun(cfg, INITIAL, WalkUnion(Counting(entity)), Counted(TableText(cfg.platform, schema, e.name)))
  {
    hide Step, MayRun, Counted;
    var table := TableText(cfg.platform, schema, e.name);
    var visits := [VisitLink, VisitConjunction, VisitCondition, VisitEntity(entity), VisitQuery, VisitUnion];
    var end := Counted(table);
    CountingVisits(entity);
    hide WalkUnion, JoinClauses, SelectText, TableText;
    CountingSteps(cfg, table);
    var named := INITIAL.(entities := [table]);
    var selected := INITIAL.(selects := ["SELECT count(*) FROM " + table]);
    Ends(cfg, end.value);
    assert visits[6..] == [];
    MayContinue(cfg, selected, visits, 5, end.value, end);
    MayContinue(cfg, named, visits, 4, selected, end);
    assert MayStep(cfg, INITIAL, VisitEntity(entity), Ok(named)) by {
      assert INITIAL.entities + [table] == [table];
    }
    MayContinue(cfg, INITIAL, visits, 3, named, end);
    MayContinue(cfg, INITIAL, visits, 2, INITIAL, end);
    MayContinue(cfg, INITIAL, visits, 1, INITIAL, end);
    MayContinue(cfg, INITIAL, visits, 0, INITIAL, end);
    assert visits[0..] == visits;
  }

  lemma Ends(cfg: Config, s: State)
    ensures MayRun(cfg, s, [], Ok(s))
  {
  }

  /** After validation every name means one table. */
  lemma UnambiguousIsOneTable(cfg: Config)
    requires Unambiguous(cfg.schemas)
    ensures OneTable(cfg)
  {
  }

  /** The translation never depends on the order of the schemas exactly when every name means one table. */
  lemma OneOutcomeExactly(cfg: Config)
    ensures AlwaysOneOutcome(cfg) <==> OneTable(cfg)
  {
    if OneTable(cfg) {
      forall union ensures OneOutcome(cfg, union) {
        forall r1, r2 | MayRun(cfg, INITIAL, WalkUnion(union), r1) && MayRun(cfg, INITIAL, WalkUnion(union), r2)
          ensures r1 == r2
        {
          OneTableRun(cfg, INITIAL, WalkUnion(union), r1);
          OneTableRun(cfg, INITIAL, WalkUnion(union), r2);
        }
      }
    }
    if AlwaysOneOutcome(cfg) {
      forall search, s1, s2, e1, e2 | Declares(cfg.schemas, s1, search, e1) && Declares(cfg.schemas, s2, search, e2)
        ensures TableText(cfg.platform, s1, e1.name) == TableText(cfg.platform, s2, e2.name)
      {
        assert OneOutcome(cfg, Counting(search));
        CountingMayRun(cfg, search, s1, e1);
        CountingMayRun(cfg, search, s2, e2);
        var t1, t2 := TableText(cfg.platform, s1, e1.name), TableText(cfg.platform, s2, e2.name);
        var lead := "SELECT count(*) FROM ";
        assert Counted(t1).value.query[0] == Counted(t2).value.query[0];
        assert t1 == (lead + t1)[|lead|..] && t2 == (lead + t2)[|lead|..];
      }
    }
  }

  // ---------------------------------------------------------------- the table of an entity

  /** Some schema has a root entity of this name. */
  predicate IsDeclared(schemas: Schemas, name: string) {
    exists s, e :: s in schemas && e in schemas[s] && Called(e, name)
  }

  /** The text is that of the table in which the schema stores its first entity of this name. */
  ghost predicate Stores(schemas: Schemas, name: string, text: string) {
    exists s, e :: s in schemas && FirstCalled(schemas[s], name, e)
                   && ('.' !in s && '.' !in e.name ==> ReadTable(text) == (s, e.name))
  }

  /** An entity is known exactly when some schema has a root that goes by its name, and its text is that of the
      schema and the root's own name, not of its alias. */
  lemma EntityIsItsTable(cfg: Config, entity: string)
    ensures EntityText(cfg, entity).Ok? <==> IsDeclared(cfg.schemas, entity)
    ensures EntityText(cfg, entity).Ok? ==> Stores(cfg.schemas, entity, EntityText(cfg, entity).value)
  {
    hide ReadTable, Called, TableText;
    if EntityText(cfg, entity).Ok? {
      var (s, e) := Lookup(cfg.schemas, entity).value;
      FirstNamedExactly(cfg.schemas[s], entity);
      if '.' !in s && '.' !in e.name {
        TableIsRead(cfg.platform, s, e.name);
      }
      assert FirstCalled(cfg.schemas[s], entity, e) && e in cfg.schemas[s] && Called(e, entity);
    }
    if IsDeclared(cfg.schemas, entity) {
      var s, e :| s in cfg.schemas && e in cfg.schemas[s] && Called(e, entity);
      FirstNamedExactly(cfg.schemas[s], entity);
      assert Declares(cfg.schemas, s, entity, FirstNamed(cfg.schemas[s], entity).value);
    }
  }
}
