/** From a policy body to the answer of a MongoDB datastore. Entities nested in a collection are parts of its
    documents, so a body is read within one document: all of its iterators stand for the same one. */
module MongoPolicy {
  import QueryAst
  import opened RegoAst
  import opened RegoMeaning
  import opened Meaning
  import opened Templates
  import opened PreprocessorTheorems
  import opened Processor
  import opened SqlMeaning
  import opened PolicyMeaning
  import opened EndToEnd
  import opened MongoMarkers
  import opened MongoMeaning
  import opened MongoDecisions
  import EntityConfig

  // ---------------------------------------------------------------- bodies within a document

  function DocumentKeys(n: nat): (r: set<Value>)
    ensures forall v :: v in r <==> v.Number? && 0 <= v.n < n
  {
    if n == 0 then {} else DocumentKeys(n - 1) + {Number(n - 1)}
  }

  /** The rows of an entity: one per document, with the cells that stand under the entity's path. */
  function DocumentRows(path: string -> string, docs: seq<Document>, entity: string): Table {
    map d | d in DocumentKeys(|docs|) :: (column: string) => docs[d.n](path(entity) + column)
  }

  function RowsByEntity(path: string -> string, docs: seq<Document>): (tables: string -> Table)
    ensures forall t :: tables(t) == DocumentRows(path, docs, t)
  {
    (t: string) => DocumentRows(path, docs, t)
  }

  function DocumentDatabase(path: string -> string, docs: seq<Document>): (db: Database)
    ensures forall ds, t :: db(ds, t) == DocumentRows(path, docs, t)
  {
    (ds: string, t: string) => DocumentRows(path, docs, t)
  }

  predicate OneDocument(env: string -> Value, columns: set<RTerm>, d: Value)
    requires forall c :: c in columns ==> c.RColumn?
  {
    forall c :: c in columns ==> env(c.iter) == d
  }

  /** Some assignment satisfies the body within one document. */
  ghost predicate TrueInDocument(i: Interpretation, arity: string -> nat, db: Database, body: seq<RExpr>) {
    exists env: string -> Value, d :: Satisfies(i, arity, db, env, body) && OneDocument(env, Columns(body), d)
  }

  /** Comparisons as the operators of the policy make them. */
  function ReadingOf(i: Interpretation): Reading {
    Reading((c: QueryAst.Constant) => i.constant(c.value), (op: string, x: Value,
                                                            y: Value) => i.holds(i.apply(op, [x, y])))
  }

  /** What a body read within one document has to keep to. */
  ghost predicate Documentary(body: seq<RExpr>) {
    && Columns(body) != {}
    && NoNegation(body)
    && OneColumnPerLocal(Declarations(body))
    && LocalsAreNoIterators(Declarations(body), Columns(body))
  }

  function ConstantKey(d: Value): (keys: string -> Value)
    ensures forall t :: keys(t) == d
  {
    (t: string) => d
  }

  // ---------------------------------------------------------------- clauses

  lemma ComparandMeans(i: Interpretation, arity: string -> nat, path: string -> string, docs: seq<Document>, k: nat,
                       o: QueryAst.Operand)
    requires k < |docs| && !o.Call?
    ensures OperandValue(i, arity, RowsByEntity(path, docs), ConstantKey(Number(k)), o) ==
            ComparandValue(ReadingOf(i), docs[k], path, o)
  {
    if o.Attribute? {
      var table := DocumentRows(path, docs, o.entity);
      assert Number(k) in table && table[Number(k)](o.name) == docs[k](path(o.entity) + o.name);
    }
  }

  lemma TwoOperands(i: Interpretation, arity: string -> nat, tables: string -> Table, keys: string -> Value,
                    o: QueryAst.Operand)
    requires o.Call? && |o.args| == 2 && arity(o.op) == 2
    ensures OperandValue(i, arity, tables, keys, o) ==
            i.apply(o.op, [OperandValue(i, arity, tables, keys, o.args[0]),
                           OperandValue(i, arity, tables, keys, o.args[1])])
  {
    var a, b := o.args[0], o.args[1];
    assert o.args == [a, b] && o.args[1..] == [b] && [b][1..] == [];
    assert OperandValues(i, arity, tables, keys, [b]) == [OperandValue(i, arity, tables, keys, b)];
    var values := OperandValues(i, arity, tables, keys, o.args);
    assert values == [OperandValue(i, arity, tables, keys, a), OperandValue(i, arity, tables, keys, b)];
  }

  lemma ClauseMeans(i: Interpretation, arity: string -> nat, path: string -> string, docs: seq<Document>, k: nat,
                    o: QueryAst.Operand)
    requires k < |docs| && Comparison(o) && arity(o.op) == 2
    ensures i.holds(OperandValue(i, arity, RowsByEntity(path, docs), ConstantKey(Number(k)), o)) <==>
            ConditionHolds(ReadingOf(i), docs[k], path, o)
  {
    var a, b := o.args[0], o.args[1];
    ComparandMeans(i, arity, path, docs, k, a);
    ComparandMeans(i, arity, path, docs, k, b);
    hide ComparandValue, OperandValue;
    TwoOperands(i, arity, RowsByEntity(path, docs), ConstantKey(Number(k)), o);
  }

  lemma {:induction false} ClausesMean(i: Interpretation, arity: string -> nat, path: string -> string,
                                       docs: seq<Document>, k: nat, os: seq<QueryAst.Operand>)
    requires k < |docs| && AllComparisons(os) && forall j :: 0 <= j < |os| ==> arity(os[j].op) == 2
    ensures AllHold(i, OperandValues(i, arity, RowsByEntity(path, docs), ConstantKey(Number(k)), os)) <==>
            ConditionsHold(ReadingOf(i), docs[k], path, os)
    decreases |os|
  {
    hide Comparison, ConditionHolds, OperandValue, AllHold;
    var tables, keys := RowsByEntity(path, docs), ConstantKey(Number(k));
    if os == [] {
      AllOfNothing(i);
    } else {
      ClauseMeans(i, arity, path, docs, k, os[0]);
      assert forall j :: 0 <= j < |os| - 1 ==> os[1..][j] == os[j + 1];
      assert forall j :: 0 < j < |os| ==> os[j] == os[1..][j - 1];
      ClausesMean(i, arity, path, docs, k, os[1..]);
      var first := OperandValue(i, arity, tables, keys, os[0]);
      AllHoldCons(i, first, OperandValues(i, arity, tables, keys, os[1..]));
    }
  }

  lemma AllOfNothing(i: Interpretation)
    ensures AllHold(i, [])
  {
  }

  lemma AllHoldCons(i: Interpretation, first: Value, rest: seq<Value>)
    ensures AllHold(i, [first] + rest) <==> i.holds(first) && AllHold(i, rest)
  {
    AllHoldAppend(i, [first], rest);
    assert [first][0] == first;
  }

  // ---------------------------------------------------------------- assignments

  ghost function EnvInDocument(tables: string -> Table, d: Value, columns: set<RTerm>,
                               declarations: set<(string, RTerm)>): (env: string -> Value)
    requires forall c :: c in columns ==> c.RColumn?
    requires forall e :: e in declarations ==> e.1.RColumn?
    requires OneColumnPerLocal(declarations) && LocalsAreNoIterators(declarations, columns)
    ensures OneDocument(env, columns, d)
    ensures forall e :: e in declarations ==> env(e.0) == Cell(tables(e.1.table), d, e.1.column)
  {
    (x: string) => ValueInDocument(tables, d, columns, declarations, x)
  }

  ghost function ValueInDocument(tables: string -> Table, d: Value, columns: set<RTerm>,
                                 declarations: set<(string, RTerm)>, x: string): Value
    requires forall c :: c in columns ==> c.RColumn?
    requires forall e :: e in declarations ==> e.1.RColumn?
  {
    if exists c :: c in columns && c.iter == x then d
    else if e :| e in declarations && e.0 == x then Cell(tables(e.1.table), d, e.1.column)
    else Undefined
  }

  /** The clauses hold in the k-th document. */
  predicate HoldIn(i: Interpretation, arity: string -> nat, path: string -> string, docs: seq<Document>, k: nat,
                   clauses: seq<QueryAst.Operand>)
  {
    k < |docs| && AllHold(i, OperandValues(i, arity, RowsByEntity(path, docs), ConstantKey(Number(k)), clauses))
  }

  /** The body's clauses, in the k-th document, against the body. */
  lemma DocumentCorresponds(i: Interpretation, arity: string -> nat, path: string -> string, docs: seq<Document>,
                            k: nat, env: string -> Value, body: seq<RExpr>)
    requires k < |docs| && BodyDirectLocals(body) && DeclaredFirst(body, {}) && NoNegation(body)
    requires OneDocument(env, Columns(body), Number(k))
    requires forall e :: e in Declarations(body) ==>
               env(e.0) == Cell(DocumentRows(path, docs, e.1.table), Number(k), e.1.column)
    ensures Satisfies(i, arity, DocumentDatabase(path, docs), env, body) <==>
            HoldIn(i, arity, path, docs, k, Clauses(CompiledBody(body)))
  {
    var db, tables, keys := DocumentDatabase(path, docs), RowsByEntity(path, docs), ConstantKey(Number(k));
    var locals: Locals := map[];
    assert locals.Keys == {};
    assert InRange(db, env, Columns(body));
    assert Corresponds(db, tables, env, keys, Columns(body), Declarations(body));
    hide Corresponds, Columns, Declarations, DeclaredFirst, DocumentRows, AllHold, OperandValues;
    BodyCorresponds(i, arity, db, tables, env, keys, Columns(body), Declarations(body), locals, body);
  }

  lemma RowKey(path: string -> string, docs: seq<Document>, entity: string, d: Value)
    requires d in DocumentRows(path, docs, entity)
    ensures d.Number? && 0 <= d.n < |docs|
  {
  }

  lemma BodyReachesClauses(i: Interpretation, arity: string -> nat, path: string -> string, docs: seq<Document>,
                           body: seq<RExpr>, env: string -> Value, d: Value)
    returns (k: nat)
    requires BodyDirectLocals(body) && DeclaredFirst(body, {}) && Documentary(body)
    requires Satisfies(i, arity, DocumentDatabase(path, docs), env, body) && OneDocument(env, Columns(body), d)
    ensures HoldIn(i, arity, path, docs, k, Clauses(CompiledBody(body)))
  {
    var db := DocumentDatabase(path, docs);
    hide Declarations, DeclaredFirst, Clauses, CompiledBody, HoldIn, ExprHolds, Columns;
    var c :| c in Columns(body);
    RowKey(path, docs, c.table, d);
    k := d.n;
    hide Satisfies;
    LocalsInDocument(i, arity, db, env, body, d);
    DocumentCorresponds(i, arity, path, docs, k, env, body);
  }

  /** A body is true within a document exactly when its clauses hold in some document. */
  lemma BodyIsClauses(i: Interpretation, arity: string -> nat, path: string -> string, docs: seq<Document>,
                      body: seq<RExpr>)
    requires BodyDirectLocals(body) && DeclaredFirst(body, {}) && Documentary(body)
    ensures TrueInDocument(i, arity, DocumentDatabase(path, docs), body) <==>
            exists k: nat :: HoldIn(i, arity, path, docs, k, Clauses(CompiledBody(body)))
  {
    hide Satisfies, Declarations, DeclaredFirst, Clauses, CompiledBody, DocumentRows, Columns, BodyDirectLocals;
    var db := DocumentDatabase(path, docs);
    if env: string -> Value, d :| Satisfies(i, arity, db, env, body) && OneDocument(env, Columns(body), d) {
      var k := BodyReachesClauses(i, arity, path, docs, body, env, d);
    }
    if k: nat :| HoldIn(i, arity, path, docs, k, Clauses(CompiledBody(body))) {
      var env := EnvInDocument(RowsByEntity(path, docs), Number(k), Columns(body), Declarations(body));
      DocumentCorresponds(i, arity, path, docs, k, env, body);
    }
  }

  lemma LocalsInDocument(i: Interpretation, arity: string -> nat, db: Database, env: string -> Value, body: seq<RExpr>,
                         d: Value)
    requires NoNegation(body) && Satisfies(i, arity, db, env, body) && OneDocument(env, Columns(body), d)
    ensures forall e :: e in Declarations(body) ==> env(e.0) == Cell(db(e.1.datastore, e.1.table), d, e.1.column)
  {
    DeclarationColumns(body);
    forall e | e in Declarations(body) ensures env(e.0) == Cell(db(e.1.datastore, e.1.table), d, e.1.column) {
      DeclarationsHold(i, arity, db, env, body, e);
    }
  }

  // ---------------------------------------------------------------- the decision

  lemma CompiledClauses(pool: seq<string>, q: Body, body: seq<RExpr>, query: QueryAst.Query)
    requires "" !in pool && CompilesTo(pool, q, body, query)
    ensures query.clauses == Clauses(CompiledBody(body)) && BodyDirectLocals(body) && DeclaredFirst(body, {})
  {
    PreprocessingFacts(pool, q, body);
  }

  lemma ConditionsInDocuments(i: Interpretation, ts: TemplateTable, paths: EntityConfig.Paths, docs: Collections,
                              query: QueryAst.Query)
    requires AllComparisons(query.clauses) && BinaryTemplates(ts, query.clauses)
    ensures QuerySatisfied(ReadingOf(i), docs, paths, query) <==>
            exists k: nat :: HoldIn(i, Arities(ts), PathOf(paths, query.from), docs(query.from), k, query.clauses)
  {
    var path, here := PathOf(paths, query.from), docs(query.from);
    assert forall j :: 0 <= j < |query.clauses| ==> Arities(ts)(query.clauses[j].op) == 2;
    hide ConditionsHold, AllHold, OperandValues, PathOf, Arities, Comparison;
    forall k: nat | k < |here|
      ensures HoldIn(i, Arities(ts), path, here, k, query.clauses) <==>
              ConditionsHold(ReadingOf(i), here[k], path, query.clauses)
    {
      ClausesMean(i, Arities(ts), path, here, k, query.clauses);
    }
  }

  /** A query is satisfied by some document exactly when its body is true within some document. */
  lemma QueryMeansBody(i: Interpretation, ts: TemplateTable, paths: EntityConfig.Paths, docs: Collections,
                       pool: seq<string>, q: Body, body: seq<RExpr>, query: QueryAst.Query)
    requires "" !in pool && CompilesTo(pool, q, body, query) && Documentary(body)
    requires AllComparisons(query.clauses) && BinaryTemplates(ts, query.clauses)
    ensures QuerySatisfied(ReadingOf(i), docs, paths, query) <==>
            TrueInDocument(i, Arities(ts), DocumentDatabase(PathOf(paths, query.from), docs(query.from)), body)
  {
    hide *;
    CompiledClauses(pool, q, body, query);
    BodyIsClauses(i, Arities(ts), PathOf(paths, query.from), docs(query.from), body);
    ConditionsInDocuments(i, ts, paths, docs, query);
  }
}
