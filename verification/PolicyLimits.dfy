/** Every condition of faithfulness is needed: without it some database tells body and clauses apart, under a
    meaning of the operators in which all of them are true. */
module PolicyLimits {
  import QueryAst
  import opened RegoAst
  import opened RegoMeaning
  import opened Meaning
  import opened Processor
  import opened SqlMeaning
  import opened PolicyMeaning

  /** All values are accepted as true. */
  const PERMISSIVE := Interpretation((s: string) => Undefined, (op: string, args: seq<Value>) => Undefined,
                                     (a: Value, b: Value) => Undefined, (v: Value) => true)

  /** A row whose cells are all zero. */
  const ZEROS: Row := (column: string) => Number(0)

  /** One row of zeros, stored under the key 1. */
  const SINGLE: Table := map[Number(1) := ZEROS]

  function Everywhere(table: Table): SqlDatabase {
    (n: string) => table
  }

  function ExceptAt(n0: string, here: Table, elsewhere: Table): SqlDatabase {
    (n: string) => if n == n0 then here else elsewhere
  }

  /** One row under the key 1, with a one in a single cell and zeros elsewhere. */
  function OneAt(n0: string, column: string): SqlDatabase {
    ExceptAt(n0, map[Number(1) := (c: string) => if c == column then Number(1) else Number(0)], SINGLE)
  }

  ghost function SomeKeys(tables: string -> Table): (keys: string -> Value)
    ensures forall t :: tables(t) != map[] ==> keys(t) in tables(t)
  {
    (t: string) => if k :| k in tables(t) then k else Undefined
  }

  lemma {:induction false} PermissiveClauses(arity: string -> nat, tables: string -> Table, entities: set<string>,
                                             clauses: seq<QueryAst.Operand>)
    requires forall t :: t in entities ==> tables(t) != map[]
    ensures ClausesTrue(PERMISSIVE, arity, tables, entities, clauses)
  {
    assert ClausesHold(PERMISSIVE, arity, tables, SomeKeys(tables), entities, clauses);
  }

  /** Under the permissive reading a satisfied body has no negation, its declarations hold, and its
      iterators are in range. */
  lemma PermissiveBody(arity: string -> nat, db: Database, env: string -> Value, body: seq<RExpr>)
    requires Satisfies(PERMISSIVE, arity, db, env, body)
    ensures NoNegation(body)
    ensures forall d :: d in Declarations(body) ==>
              env(d.1.iter) in db(d.1.datastore, d.1.table)
              && env(d.0) == Cell(db(d.1.datastore, d.1.table), env(d.1.iter), d.1.column)
  {
    forall k | 0 <= k < |body| ensures !body[k].negated {
      assert ExprHolds(PERMISSIVE, arity, db, env, body[k]);
    }
    DeclarationColumns(body);
    forall d | d in Declarations(body)
      ensures env(d.1.iter) in db(d.1.datastore, d.1.table)
              && env(d.0) == Cell(db(d.1.datastore, d.1.table), env(d.1.iter), d.1.column)
    {
      DeclarationsHold(PERMISSIVE, arity, db, env, body, d);
    }
  }

  /** The clauses are true wherever the tables they mention have rows; so is the body, if both agree. */
  lemma BodyFollowsClauses(arity: string -> nat, name: string -> string, db: SqlDatabase, body: seq<RExpr>,
                           compiled: Body)
    returns (env: string -> Value)
    requires SameTruth(PERMISSIVE, arity, name, db, body, compiled)
    requires forall t :: t in BodyTables(compiled) ==> db(name(t)) != map[]
    ensures Satisfies(PERMISSIVE, arity, StoredDatabase(name, db), env, body)
  {
    PermissiveClauses(arity, Stored(name, db), Elements(BodyTables(compiled)), Clauses(compiled));
    env :| Satisfies(PERMISSIVE, arity, StoredDatabase(name, db), env, body);
  }

  ghost predicate DistinctNames(name: string -> string, tables: set<string>) {
    forall t, u :: t in tables && u in tables && name(t) == name(u) ==> t == u
  }

  /** On a single row, iterators and local variables differ in value. */
  lemma SingleRowValues(arity: string -> nat, name: string -> string, env: string -> Value, body: seq<RExpr>)
    requires Satisfies(PERMISSIVE, arity, StoredDatabase(name, Everywhere(SINGLE)), env, body)
    ensures forall c :: c in Columns(body) ==> env(c.iter) == Number(1)
    ensures forall d :: d in Declarations(body) ==> env(d.0) == Number(0)
  {
    PermissiveBody(arity, StoredDatabase(name, Everywhere(SINGLE)), env, body);
    hide ExprHolds, Declarations, Columns;
  }

  lemma NeedsNoNegation(arity: string -> nat, name: string -> string, body: seq<RExpr>, compiled: Body)
    requires SameTruth(PERMISSIVE, arity, name, Everywhere(SINGLE), body, compiled)
    ensures NoNegation(body) && LocalsAreNoIterators(Declarations(body), Columns(body))
  {
    hide SameTruth, Satisfies, Columns, Declarations, NoNegation;
    assert Number(1) in SINGLE;
    var env := BodyFollowsClauses(arity, name, Everywhere(SINGLE), body, compiled);
    PermissiveBody(arity, StoredDatabase(name, Everywhere(SINGLE)), env, body);
    SingleRowValues(arity, name, env, body);
    forall d, c | d in Declarations(body) && c in Columns(body) ensures d.0 != c.iter {
      assert env(c.iter) == Number(1) && env(d.0) == Number(0);
    }
  }

  lemma RowsOfColumn(arity: string -> nat, name: string -> string, db: SqlDatabase, env: string -> Value,
                     body: seq<RExpr>, c: RTerm)
    requires Satisfies(PERMISSIVE, arity, StoredDatabase(name, db), env, body) && c in Columns(body)
    ensures c.table in TablesOfColumns(Columns(body)) && env(c.iter) in db(name(c.table))
  {
  }

  lemma NeedsUnsharedIterators(arity: string -> nat, name: string -> string, body: seq<RExpr>, compiled: Body,
                               c: RTerm, d: RTerm)
    requires c in Columns(body) && d in Columns(body) && c.iter == d.iter
    requires DistinctNames(name, TablesOfColumns(Columns(body)))
    requires SameTruth(PERMISSIVE, arity, name, ExceptAt(name(c.table), SINGLE, map[Number(2) := ZEROS]), body,
                       compiled)
    ensures c.table == d.table
  {
    hide SameTruth, Satisfies, Columns, TablesOfColumns, BodyTables;
    var other: Table := map[Number(2) := ZEROS];
    var db := ExceptAt(name(c.table), SINGLE, other);
    assert Number(1) in SINGLE && Number(2) in other;
    var env := BodyFollowsClauses(arity, name, db, body, compiled);
    RowsOfColumn(arity, name, db, env, body, c);
    RowsOfColumn(arity, name, db, env, body, d);
  }

  /** The marked cell is recognised by its value. */
  lemma MarkedCell(n0: string, column0: string, n: string, key: Value, column: string)
    ensures OneAt(n0, column0)(n) != map[]
    ensures key in OneAt(n0, column0)(n) ==>
              (Cell(OneAt(n0, column0)(n), key, column) == Number(1) <==> n == n0 && column == column0)
  {
    assert Number(1) in OneAt(n0, column0)(n);
  }

  lemma NeedsOneColumnPerLocal(arity: string -> nat, name: string -> string, body: seq<RExpr>, compiled: Body,
                               d: (string, RTerm), e: (string, RTerm))
    requires d in Declarations(body) && e in Declarations(body) && d.0 == e.0
    requires DistinctNames(name, TablesOfColumns(Columns(body)))
    requires SameTruth(PERMISSIVE, arity, name, OneAt(name(d.1.table), d.1.column), body, compiled)
    ensures d.1.table == e.1.table && d.1.column == e.1.column
  {
    var db := OneAt(name(d.1.table), d.1.column);
    forall t ensures db(name(t)) != map[] {
      MarkedCell(name(d.1.table), d.1.column, name(t), Undefined, "");
    }
    hide OneAt;
    var env := BodyFollowsClauses(arity, name, db, body, compiled);
    PermissiveBody(arity, StoredDatabase(name, db), env, body);
    DeclarationColumns(body);
    hide Satisfies, SameTruth;
    assert d.1.table in TablesOfColumns(Columns(body)) && e.1.table in TablesOfColumns(Columns(body));
    MarkedCell(name(d.1.table), d.1.column, name(d.1.table), env(d.1.iter), d.1.column);
    MarkedCell(name(d.1.table), d.1.column, name(e.1.table), env(e.1.iter), e.1.column);
  }

  lemma TableInUse(arity: string -> nat, db: Database, env: string -> Value, body: seq<RExpr>, c: RTerm)
    requires c in Columns(body) && Satisfies(PERMISSIVE, arity, db, env, body)
    ensures db(c.datastore, c.table) != map[]
  {
  }

  lemma NeedsItsTables(arity: string -> nat, name: string -> string, body: seq<RExpr>, compiled: Body, c: RTerm)
    requires c in Columns(body)
    requires DistinctNames(name, TablesOfColumns(Columns(body)))
    requires Elements(BodyTables(compiled)) <= TablesOfColumns(Columns(body))
    requires SameTruth(PERMISSIVE, arity, name, ExceptAt(name(c.table), map[], SINGLE), body, compiled)
    ensures c.table in BodyTables(compiled)
  {
    if c.table !in BodyTables(compiled) {
      var db := ExceptAt(name(c.table), map[], SINGLE);
      assert c.table in TablesOfColumns(Columns(body));
      forall t | t in BodyTables(compiled) ensures db(name(t)) != map[] {
        assert t in Elements(BodyTables(compiled));
        assert Number(1) in SINGLE;
      }
      var env := BodyFollowsClauses(arity, name, db, body, compiled);
      TableInUse(arity, StoredDatabase(name, db), env, body, c);
    }
  }

  /** A body whose clauses agree with it on every database is faithful, apart from the linking of its
      tables, which the statement itself demands. */
  lemma AgreementNeedsFaithfulness(arity: string -> nat, name: string -> string, body: seq<RExpr>, compiled: Body)
    requires DistinctNames(name, TablesOfColumns(Columns(body)))
    requires Elements(BodyTables(compiled)) <= TablesOfColumns(Columns(body))
    requires forall db :: SameTruth(PERMISSIVE, arity, name, db, body, compiled)
    ensures NoNegation(body) && LocalsAreNoIterators(Declarations(body), Columns(body))
    ensures UnsharedIterators(Columns(body)) && OneColumnPerLocal(Declarations(body))
    ensures KeepsTables(Columns(body), compiled)
  {
    NeedsNoNegation(arity, name, body, compiled);
    forall c, d | c in Columns(body) && d in Columns(body) && c.iter == d.iter ensures c.table == d.table {
      NeedsUnsharedIterators(arity, name, body, compiled, c, d);
    }
    forall d, e | d in Declarations(body) && e in Declarations(body) && d.0 == e.0
      ensures d.1.table == e.1.table && d.1.column == e.1.column
    {
      NeedsOneColumnPerLocal(arity, name, body, compiled, d, e);
    }
    forall c | c in Columns(body) ensures c.table in BodyTables(compiled) {
      NeedsItsTables(arity, name, body, compiled, c);
    }
  }
}
