/** What a structured SELECT means on a database, and that lowering keeps the meaning of a query. */
module SqlMeaning {
  import opened Results
  import opened QueryAst
  import opened Meaning
  import opened Templates
  import opened SqlStructure
  import opened SqlPlaceholders

  /** Tables by the name they have in the statement. */
  type SqlDatabase = string -> Table

  /** The number of arguments each operator is registered with. */
  function Arities(templates: TemplateTable): string -> nat {
    op => if op in templates then templates[op].argsCount else 0
  }

  // ---------------------------------------------------------------- statements

  function ExprValue(i: Interpretation, arity: string -> nat, db: SqlDatabase, values: seq<string>,
                     keys: string -> Value, e: SqlExpr): Value
    decreases e, 1
  {
    match e
    case Column(table, column) => Cell(db(table), keys(table), column)
    case Param(k) => if 1 <= k <= |values| then i.constant(values[k - 1]) else Undefined
    case Apply(op, args) => CallValue(i, arity(op), op, ExprValues(i, arity, db, values, keys, args))
  }

  function ExprValues(i: Interpretation, arity: string -> nat, db: SqlDatabase, values: seq<string>,
                      keys: string -> Value, es: seq<SqlExpr>): (r: seq<Value>)
    ensures |r| == |es|
    decreases es, 0
  {
    if es == [] then []
    else [ExprValue(i, arity, db, values, keys, es[0])] + ExprValues(i, arity, db, values, keys, es[1..])
  }

  function ColumnTables(e: SqlExpr): set<string>
    decreases e, 1
  {
    match e
    case Column(table, _) => {table}
    case Param(_) => {}
    case Apply(_, args) => AllColumnTables(args)
  }

  function AllColumnTables(es: seq<SqlExpr>): set<string>
    decreases es, 0
  {
    if es == [] then {} else ColumnTables(es[0]) + AllColumnTables(es[1..])
  }

  /** The tables of a SELECT are pairwise different and its condition uses no others; a database
      rejects anything else. */
  predicate WellScoped(s: Select) {
    && s.from !in s.joins
    && (forall j, k :: 0 <= j < k < |s.joins| ==> s.joins[j] != s.joins[k])
    && AllColumnTables(s.where) <= {s.from} + set t | t in s.joins
  }

  predicate RowCounts(i: Interpretation, arity: string -> nat, db: SqlDatabase, values: seq<string>,
                      keys: string -> Value, s: Select)
  {
    && (forall t :: t in {s.from} + (set t | t in s.joins) ==> keys(t) in db(t))
    && (forall k :: 0 <= k < |s.where| ==> i.holds(ExprValues(i, arity, db, values, keys, s.where)[k]))
  }

  /** Whether `SELECT count(*)` counts more than zero rows; None when the statement is rejected. */
  ghost function SelectMeaning(i: Interpretation, arity: string -> nat, db: SqlDatabase, values: seq<string>,
                               s: Select):
    Option<bool>
  {
    if WellScoped(s) then Some(exists keys: string -> Value :: RowCounts(i, arity, db, values, keys, s)) else None
  }

  // ---------------------------------------------------------------- query trees

  function OperandValue(i: Interpretation, arity: string -> nat, tables: string -> Table,
                        keys: string -> Value, o: Operand): Value
    decreases o, 1
  {
    match o
    case Attribute(entity, name) => Cell(tables(entity), keys(entity), name)
    case Const(c) => i.constant(c.value)
    case Call(op, args) => CallValue(i, arity(op), op, OperandValues(i, arity, tables, keys, args))
  }

  function OperandValues(i: Interpretation, arity: string -> nat, tables: string -> Table,
                         keys: string -> Value, os: seq<Operand>): (r: seq<Value>)
    ensures |r| == |os|
    decreases os, 0
  {
    if os == [] then []
    else [OperandValue(i, arity, tables, keys, os[0])] + OperandValues(i, arity, tables, keys, os[1..])
  }

  predicate ClausesHold(i: Interpretation, arity: string -> nat, tables: string -> Table,
                        keys: string -> Value, entities: set<string>, clauses: seq<Operand>)
  {
    && (forall e :: e in entities ==> keys(e) in tables(e))
    && (forall k :: 0 <= k < |clauses| ==> i.holds(OperandValues(i, arity, tables, keys, clauses)[k]))
  }

  /** Some choice of one row per entity satisfies all clauses. */
  ghost predicate ClausesTrue(i: Interpretation, arity: string -> nat, tables: string -> Table,
                              entities: set<string>, clauses: seq<Operand>)
  {
    exists keys: string -> Value :: ClausesHold(i, arity, tables, keys, entities, clauses)
  }

  // ---------------------------------------------------------------- lowering keeps the meaning

  /** Rows and chosen keys of entities are those of their tables. */
  ghost predicate SameRows(setup: Setup, db: SqlDatabase, keys: string -> Value,
                           tables: string -> Table, entityKeys: string -> Value, entities: set<string>)
  {
    forall e :: e in entities ==> tables(e) == db(TableOf(setup, e)) && entityKeys(e) == keys(TableOf(setup, e))
  }

  lemma {:induction false} LowerKeepsValue(
    setup: Setup, i: Interpretation, arity: string -> nat, db: SqlDatabase, values: seq<string>, keys: string -> Value,
    tables: string -> Table, entityKeys: string -> Value, o: Operand, at: nat)
    requires StandsAt(values, at, ParamValues(o))
    requires SameRows(setup, db, keys, tables, entityKeys, EntitiesOf(o))
    ensures ExprValue(i, arity, db, values, keys, Lower(setup, o, at)) == OperandValue(i, arity, tables, entityKeys, o)
    decreases o, 1
  {
    match o
    case Attribute(entity, name) =>
      assert entity in EntitiesOf(o);
    case Const(c) =>
      assert values[at] == values[at..at + 1][0];
    case Call(op, args) =>
      LowerKeepsValues(setup, i, arity, db, values, keys, tables, entityKeys, args, at);
  }

  lemma {:induction false} LowerKeepsValues(
    setup: Setup, i: Interpretation, arity: string -> nat, db: SqlDatabase, values: seq<string>, keys: string -> Value,
    tables: string -> Table, entityKeys: string -> Value, os: seq<Operand>, at: nat)
    requires StandsAt(values, at, AllParamValues(os))
    requires SameRows(setup, db, keys, tables, entityKeys, EntitiesOfAll(os))
    ensures ExprValues(i, arity, db, values, keys, LowerAll(setup, os, at)) ==
            OperandValues(i, arity, tables, entityKeys, os)
    decreases os, 0
  {
    if os != [] {
      StandsAtParts(values, at, ParamValues(os[0]), AllParamValues(os[1..]));
      LowerKeepsValue(setup, i, arity, db, values, keys, tables, entityKeys, os[0], at);
      var next := at + |ParamValues(os[0])|;
      LowerKeepsValues(setup, i, arity, db, values, keys, tables, entityKeys, os[1..], next);
      var first, rest := Lower(setup, os[0], at), LowerAll(setup, os[1..], next);
      assert ([first] + rest)[1..] == rest;
    }
  }

  ghost function TableNames(setup: Setup, entities: set<string>): set<string> {
    set e | e in entities :: TableOf(setup, e)
  }

  lemma {:induction false} LowerTables(setup: Setup, o: Operand, at: nat)
    ensures ColumnTables(Lower(setup, o, at)) == TableNames(setup, EntitiesOf(o))
    decreases o, 1
  {
    if o.Call? {
      LowerAllTables(setup, o.args, at);
    }
  }

  lemma {:induction false} LowerAllTables(setup: Setup, os: seq<Operand>, at: nat)
    ensures AllColumnTables(LowerAll(setup, os, at)) == TableNames(setup, EntitiesOfAll(os))
    decreases os, 0
  {
    if os != [] {
      var next := at + |ParamValues(os[0])|;
      LowerTables(setup, os[0], at);
      LowerAllTables(setup, os[1..], next);
      var first, rest := Lower(setup, os[0], at), LowerAll(setup, os[1..], next);
      assert ([first] + rest)[1..] == rest;
      assert TableNames(setup, EntitiesOfAll(os)) ==
             TableNames(setup, EntitiesOf(os[0])) + TableNames(setup, EntitiesOfAll(os[1..]));
    }
  }

  /** Different entities are stored in different tables. */
  ghost predicate DistinctTables(setup: Setup, entities: set<string>) {
    forall e, f :: e in entities && f in entities && TableOf(setup, e) == TableOf(setup, f) ==> e == f
  }

  ghost function QueryEntities(q: Query): set<string> {
    {q.from} + (set e | e in q.link)
  }

  lemma SelectTables(setup: Setup, q: Query, at: nat)
    ensures var s := LowerQuery(setup, q, at);
            {s.from} + (set t | t in s.joins) == TableNames(setup, QueryEntities(q))
  {
  }

  /** The lowered query is accepted exactly when From and Link are stored in different tables and its
      condition uses no others. */
  lemma WellScopedExactly(setup: Setup, q: Query, at: nat)
    requires q.from !in q.link && forall j, k :: 0 <= j < k < |q.link| ==> q.link[j] != q.link[k]
    ensures WellScoped(LowerQuery(setup, q, at)) <==>
            && DistinctTables(setup, QueryEntities(q))
            && TableNames(setup, EntitiesOfAll(q.clauses)) <= TableNames(setup, QueryEntities(q))
  {
    var s := LowerQuery(setup, q, at);
    SelectTables(setup, q, at);
    LowerAllTables(setup, q.clauses, at);
    DifferentStorage(setup, q);
    assert forall j :: 0 <= j < |q.link| ==> s.joins[j] == TableOf(setup, q.link[j]);
  }

  /** From and Link are stored in different tables exactly when their storage names are pairwise different. */
  lemma DifferentStorage(setup: Setup, q: Query)
    requires q.from !in q.link && forall j, k :: 0 <= j < k < |q.link| ==> q.link[j] != q.link[k]
    ensures DistinctTables(setup, QueryEntities(q)) <==>
            && (forall j :: 0 <= j < |q.link| ==> TableOf(setup, q.link[j]) != TableOf(setup, q.from))
            && (forall j, k :: 0 <= j < k < |q.link| ==> TableOf(setup, q.link[j]) != TableOf(setup, q.link[k]))
  {
    hide TableOf;
    assert forall j :: 0 <= j < |q.link| ==> q.link[j] in QueryEntities(q) && q.link[j] != q.from;
    assert q.from in QueryEntities(q);
  }

  /** Where all entities are stored in different tables, the names can be left out. */
  lemma WellScopedEntities(setup: Setup, q: Query, at: nat)
    requires DistinctTables(setup, QueryEntities(q) + EntitiesOfAll(q.clauses))
    requires q.from !in q.link && forall j, k :: 0 <= j < k < |q.link| ==> q.link[j] != q.link[k]
    ensures WellScoped(LowerQuery(setup, q, at)) <==> EntitiesOfAll(q.clauses) <= QueryEntities(q)
  {
    hide TableOf, WellScoped;
    WellScopedExactly(setup, q, at);
    if TableNames(setup, EntitiesOfAll(q.clauses)) <= TableNames(setup, QueryEntities(q)) {
      forall e | e in EntitiesOfAll(q.clauses) ensures e in QueryEntities(q) {
        assert TableOf(setup, e) in TableNames(setup, EntitiesOfAll(q.clauses));
      }
    }
  }

  /** Two entities of From and Link in one table: the database rejects the SELECT. */
  lemma SharedStorageIsRejected(setup: Setup, i: Interpretation, arity: string -> nat, db: SqlDatabase,
                                values: seq<string>, q: Query, at: nat)
    requires q.from !in q.link && forall j, k :: 0 <= j < k < |q.link| ==> q.link[j] != q.link[k]
    requires !DistinctTables(setup, QueryEntities(q))
    ensures SelectMeaning(i, arity, db, values, LowerQuery(setup, q, at)) == None
  {
    WellScopedExactly(setup, q, at);
  }

  /** For distinct tables, a SELECT counts rows exactly when some choice of rows for From and Link
      satisfies the clauses, and it is rejected exactly when the clauses leave From and Link. */
  lemma SelectMeansQuery(setup: Setup, i: Interpretation, arity: string -> nat, db: SqlDatabase, values: seq<string>,
                         tables: string -> Table, q: Query, at: nat)
    requires DistinctTables(setup, QueryEntities(q) + EntitiesOfAll(q.clauses))
    requires q.from !in q.link && forall j, k :: 0 <= j < k < |q.link| ==> q.link[j] != q.link[k]
    requires StandsAt(values, at, QueryValues(q))
    requires forall e :: e in QueryEntities(q) ==> tables(e) == db(TableOf(setup, e))
    ensures SelectMeaning(i, arity, db, values, LowerQuery(setup, q, at)) ==
            if EntitiesOfAll(q.clauses) <= QueryEntities(q)
            then Some(ClausesTrue(i, arity, tables, QueryEntities(q), q.clauses))
            else None
  {
    hide LowerQuery, RowCounts, ClausesHold, WellScoped, TableOf;
    WellScopedEntities(setup, q, at);
    if EntitiesOfAll(q.clauses) <= QueryEntities(q) {
      var s := LowerQuery(setup, q, at);
      if keys: string -> Value :| RowCounts(i, arity, db, values, keys, s) {
        var entityKeys := KeysOfEntities(setup, keys);
        assert SameRows(setup, db, keys, tables, entityKeys, QueryEntities(q));
        RowsMatch(setup, i, arity, db, values, keys, tables, entityKeys, q, at);
      }
      if entityKeys: string -> Value :| ClausesHold(i, arity, tables, entityKeys, QueryEntities(q), q.clauses) {
        var keys := KeysOfTables(setup, QueryEntities(q), entityKeys);
        assert SameRows(setup, db, keys, tables, entityKeys, QueryEntities(q));
        RowsMatch(setup, i, arity, db, values, keys, tables, entityKeys, q, at);
      }
    }
  }

  ghost function KeysOfEntities(setup: Setup, keys: string -> Value): (entityKeys: string -> Value)
    ensures forall e :: entityKeys(e) == keys(TableOf(setup, e))
  {
    (e: string) => keys(TableOf(setup, e))
  }

  ghost function KeysOfTables(setup: Setup, entities: set<string>, entityKeys: string -> Value): (keys: string -> Value)
    requires DistinctTables(setup, entities)
    ensures forall e :: e in entities ==> keys(TableOf(setup, e)) == entityKeys(e)
  {
    assert forall e :: e in entities ==> EntityOf(setup, entities, TableOf(setup, e)) == e;
    (t: string) => entityKeys(EntityOf(setup, entities, t))
  }

  ghost function EntityOf(setup: Setup, entities: set<string>, table: string): (r: string)
    ensures forall e :: e in entities && TableOf(setup, e) == table ==> r in entities && TableOf(setup, r) == table
  {
    if e :| e in entities && TableOf(setup, e) == table then e else ""
  }

  lemma RowsMatch(setup: Setup, i: Interpretation, arity: string -> nat, db: SqlDatabase, values: seq<string>,
                  keys: string -> Value, tables: string -> Table, entityKeys: string -> Value, q: Query, at: nat)
    requires EntitiesOfAll(q.clauses) <= QueryEntities(q)
    requires StandsAt(values, at, QueryValues(q))
    requires SameRows(setup, db, keys, tables, entityKeys, QueryEntities(q))
    ensures RowCounts(i, arity, db, values, keys, LowerQuery(setup, q, at)) <==>
            ClausesHold(i, arity, tables, entityKeys, QueryEntities(q), q.clauses)
  {
    var s := LowerQuery(setup, q, at);
    SelectTables(setup, q, at);
    LowerKeepsValues(setup, i, arity, db, values, keys, tables, entityKeys, q.clauses, at);
    forall e | e in QueryEntities(q) ensures TableOf(setup, e) in TableNames(setup, QueryEntities(q)) {
    }
    if ClausesHold(i, arity, tables, entityKeys, QueryEntities(q), q.clauses) {
      forall t | t in TableNames(setup, QueryEntities(q)) ensures keys(t) in db(t) {
        var e :| e in QueryEntities(q) && TableOf(setup, e) == t;
      }
    }
  }
}
