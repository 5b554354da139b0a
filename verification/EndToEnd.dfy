/** From a policy body to the answer of one datastore. */
module EndToEnd {
  import opened Results
  import QueryAst
  import opened RegoAst
  import opened RegoMeaning
  import opened Meaning
  import opened Preprocessor
  import opened PreprocessorTheorems
  import opened Processor
  import opened ProcessorTheorems
  import opened SqlStructure
  import opened SqlPlaceholders
  import opened SqlMeaning
  import opened SqlExecutor
  import opened PolicyMeaning
  import opened PolicyLimits

  /** A body of the language, its reading, and the query it compiles to. */
  ghost predicate CompilesTo(pool: seq<string>, q: Body, body: seq<RExpr>, query: QueryAst.Query) {
    && ReadBody(map[], q) == Some(body)
    && TransformQuery(pool, q).Ok?
    && BuiltFrom(query, TransformQuery(pool, q).value.query)
  }

  /** The inlined and stripped body. */
  function CompiledBody(body: seq<RExpr>): Body {
    StripBody(Inline(body, map[]))
  }

  ghost function StorageName(setup: Setup): (name: string -> string)
    ensures forall t :: name(t) == TableOf(setup, t)
  {
    (t: string) => TableOf(setup, t)
  }

  /** The body's truth, on the tables as the database stores them. */
  ghost predicate PolicyTrue(setup: Setup, i: Interpretation, db: SqlDatabase, body: seq<RExpr>) {
    BodyTrue(i, Arities(setup.templates), StoredDatabase(StorageName(setup), db), body)
  }

  /** On every database, and for every meaning of constants and operators with which the database reads the
      query's statement, the datastore answers the query with the truth of the body. */
  ghost predicate KeepsMeaning(setup: Setup, parse: Parser, body: seq<RExpr>, query: QueryAst.Query) {
    forall i, db :: ReadsAs(setup, parse, i, LowerUnion(setup, [query], 0)) ==>
      Answer(setup, parse, i, db, [query]) == Ok(PolicyTrue(setup, i, db, body))
  }

  /** On every database, if operators hold of all operands. */
  ghost predicate AgreesPermissively(setup: Setup, parse: Parser, body: seq<RExpr>, query: QueryAst.Query) {
    forall db :: Answer(setup, parse, PERMISSIVE, db, [query]) == Ok(PolicyTrue(setup, PERMISSIVE, db, body))
  }

  ghost function BodyTableSet(body: seq<RExpr>): set<string> {
    TablesOfColumns(Columns(body))
  }

  /** What preprocessing contributes. */
  lemma PreprocessingFacts(pool: seq<string>, q: Body, body: seq<RExpr>)
    requires "" !in pool && ReadBody(map[], q) == Some(body) && TransformQuery(pool, q).Ok?
    ensures TransformQuery(pool, q).value.query == CompiledBody(body)
    ensures BodyDirectLocals(body) && DeclaredFirst(body, {})
    ensures exists ds, names :: Agrees(ds, names, Columns(body))
    ensures Elements(BodyTables(CompiledBody(body))) <= BodyTableSet(body)
  {
    var locals: Locals := map[];
    assert Related(INITIAL, map[]) && LocalsMatch(INITIAL, locals) && locals.Keys == {};
    TransformReads(pool, INITIAL, map[], locals, q);
    var s := TransformExprs(pool, INITIAL, q).value.0;
    assert Agrees(s.expectedDatastore, s.tableNames, Columns(body));
    ReadBodyShape(map[], q);
    CompiledTables(body, locals, Columns(body));
  }

  /** What processing contributes: the tables of the query. */
  lemma ProcessingFacts(query: QueryAst.Query, compiled: Body)
    requires BuiltFrom(query, compiled)
    ensures query.clauses == Clauses(compiled)
    ensures query.from !in query.link && forall j, k :: 0 <= j < k < |query.link| ==> query.link[j] != query.link[k]
    ensures QueryAst.EntitiesOfAll(query.clauses) == Elements(BodyTables(compiled))
    ensures QueryEntities(query) <= Elements(BodyTables(compiled))
    ensures QueryAst.EntitiesOfAll(query.clauses) <= QueryEntities(query) <==> Linked(compiled)
  {
    ClausesEntities(compiled);
    FromAndLinkExact(query, compiled);
    assert query.from !in Elements(query.link);
    forall t | t in query.link ensures t in BodyTables(compiled) {
      var u :| ShareExpression(compiled, t, u);
      SharedIsMentioned(compiled, t, u);
    }
    assert QueryEntities(query) == {query.from} + Elements(query.link);
  }

  lemma {:induction false} SharedIsMentioned(q: Body, t: string, u: string)
    requires ShareExpression(q, t, u)
    ensures t in BodyTables(q)
  {
    var i :| 0 <= i < |q| && t in TermsTables(q[i].args) && u in TermsTables(q[i].args);
    if i > 0 {
      assert q[1..][i - 1] == q[i];
      SharedIsMentioned(q[1..], t, u);
    }
  }

  /** The statement's answer in terms of the clauses. */
  lemma SelectAgainstClauses(setup: Setup, query: QueryAst.Query, compiled: Body, stored: string -> Table,
                             at: nat, values: seq<string>, i: Interpretation, arity: string -> nat, db: SqlDatabase)
    requires BuiltFrom(query, compiled) && DistinctTables(setup, Elements(BodyTables(compiled)))
    requires StandsAt(values, at, QueryValues(query))
    requires forall e :: e in QueryEntities(query) ==> stored(e) == db(TableOf(setup, e))
    ensures SelectMeaning(i, arity, db, values, LowerQuery(setup, query, at)) ==
            if Linked(compiled)
            then Some(ClausesTrue(i, arity, stored, Elements(BodyTables(compiled)), Clauses(compiled)))
            else None
  {
    ProcessingFacts(query, compiled);
    hide *;
    var mentioned := Elements(BodyTables(compiled));
    assert QueryEntities(query) + mentioned == mentioned;
    SelectMeansQuery(setup, i, arity, db, values, stored, query, at);
    assert mentioned <= QueryEntities(query) ==> QueryEntities(query) == mentioned;
  }

  lemma SubsetDistinct(setup: Setup, some: set<string>, all: set<string>)
    requires some <= all && DistinctTables(setup, all)
    ensures DistinctTables(setup, some)
  {
  }

  /** The body is in the language and compiles, its tables are stored under different names, and the
      parameters of its query stand among the values of a statement. */
  ghost predicate Placed(setup: Setup, pool: seq<string>, q: Body, body: seq<RExpr>, query: QueryAst.Query,
                         at: nat, values: seq<string>)
  {
    && "" !in pool
    && CompilesTo(pool, q, body, query)
    && DistinctTables(setup, BodyTableSet(body))
    && StandsAt(values, at, QueryValues(query))
  }

  ghost predicate SelectTells(setup: Setup, body: seq<RExpr>, query: QueryAst.Query, at: nat, values: seq<string>,
                              i: Interpretation, db: SqlDatabase)
  {
    SelectMeaning(i, Arities(setup.templates), db, values, LowerQuery(setup, query, at)) ==
    Some(PolicyTrue(setup, i, db, body))
  }

  lemma SelectOfCompiled(setup: Setup, pool: seq<string>, q: Body, body: seq<RExpr>, query: QueryAst.Query,
                         at: nat, values: seq<string>, i: Interpretation, db: SqlDatabase)
    requires Placed(setup, pool, q, body, query, at, values)
    ensures SelectTells(setup, body, query, at, values, i, db) <==>
            && Linked(CompiledBody(body))
            && SameTruth(i, Arities(setup.templates), StorageName(setup), db, body, CompiledBody(body))
  {
    PreprocessingFacts(pool, q, body);
    SubsetDistinct(setup, Elements(BodyTables(CompiledBody(body))), BodyTableSet(body));
    SelectAgainstClauses(setup, query, CompiledBody(body), Stored(StorageName(setup), db), at, values,
                         i, Arities(setup.templates), db);
  }

  /** Wherever the query of a faithful body stands in a statement, its SELECT is accepted and tells the truth
      of the body. */
  lemma FaithfulSelectTells(setup: Setup, pool: seq<string>, q: Body, body: seq<RExpr>, query: QueryAst.Query,
                            at: nat, values: seq<string>, i: Interpretation, db: SqlDatabase)
    requires Placed(setup, pool, q, body, query, at, values) && Faithful(body, CompiledBody(body))
    ensures SelectTells(setup, body, query, at, values, i, db)
  {
    hide SelectTells, SameTruth, PolicyTrue;
    PreprocessingFacts(pool, q, body);
    var ds, names :| Agrees(ds, names, Columns(body));
    SelectOfCompiled(setup, pool, q, body, query, at, values, i, db);
    FaithfulKeepsTruth(i, Arities(setup.templates), StorageName(setup), db, body, ds, names);
  }

  lemma TellingNeedsFaithfulness(setup: Setup, pool: seq<string>, q: Body, body: seq<RExpr>, query: QueryAst.Query,
                                 at: nat, values: seq<string>)
    requires Placed(setup, pool, q, body, query, at, values)
    requires forall db :: SelectTells(setup, body, query, at, values, PERMISSIVE, db)
    ensures Faithful(body, CompiledBody(body))
  {
    var arity, name := Arities(setup.templates), StorageName(setup);
    PreprocessingFacts(pool, q, body);
    assert DistinctNames(name, BodyTableSet(body));
    hide SelectTells, SameTruth, Linked;
    forall db ensures SameTruth(PERMISSIVE, arity, name, db, body, CompiledBody(body)) && Linked(CompiledBody(body)) {
      SelectOfCompiled(setup, pool, q, body, query, at, values, PERMISSIVE, db);
    }
    assert SameTruth(PERMISSIVE, arity, name, Everywhere(SINGLE), body, CompiledBody(body));
    AgreementNeedsFaithfulness(arity, name, body, CompiledBody(body));
  }

  // ---------------------------------------------------------------- one body on one datastore

  /** Tables of the body that share their storage with another one are all in From and Link. */
  ghost predicate StoredApart(setup: Setup, body: seq<RExpr>, query: QueryAst.Query) {
    forall t, u ::
      t in BodyTableSet(body) && u in BodyTableSet(body) && t != u && TableOf(setup, t) == TableOf(setup, u) ==>
        t in QueryEntities(query) && u in QueryEntities(query)
  }

  /** The hypotheses of the main result: the body is in the language and compiles, tables outside From and
      Link have their own storage, and the operators of the query have sound templates that keep the order of
      unnumbered placeholders. */
  ghost predicate Compiled(setup: Setup, pool: seq<string>, q: Body, body: seq<RExpr>, query: QueryAst.Query) {
    && "" !in pool
    && CompilesTo(pool, q, body, query)
    && StoredApart(setup, body, query)
    && Readable(setup, [query])
  }

  lemma {:induction false} ClausesAreCalls(q: Body)
    ensures forall i :: 0 <= i < |Clauses(q)| ==> Clauses(q)[i].Call?
  {
    if q != [] {
      ClausesAreCalls(q[1..]);
    }
  }

  lemma SingleUnion(setup: Setup, i: Interpretation, arity: string -> nat, db: SqlDatabase, query: QueryAst.Query)
    ensures RenderableUnion(setup, [query]) <==> RenderableQuery(setup, query)
    ensures UnionValues([query]) == QueryValues(query) && StandsAt(QueryValues(query), 0, QueryValues(query))
    ensures UnionMeaning(i, arity, db, UnionValues([query]), LowerUnion(setup, [query], 0)) ==
            SelectMeaning(i, arity, db, QueryValues(query), LowerQuery(setup, query, 0))
  {
    hide RenderableQuery, SelectMeaning, LowerQuery, QueryValues;
    assert [query][1..] == [] && QueryValues(query) + [] == QueryValues(query);
    assert QueryValues(query)[0..|QueryValues(query)|] == QueryValues(query);
    assert LowerUnion(setup, [query], 0) == [LowerQuery(setup, query, 0)];
    SingleSelect(i, arity, db, QueryValues(query), LowerQuery(setup, query, 0));
  }

  lemma SingleSelect(i: Interpretation, arity: string -> nat, db: SqlDatabase, values: seq<string>,
                     select: Select)
    ensures UnionMeaning(i, arity, db, values, [select]) == SelectMeaning(i, arity, db, values, select)
  {
    hide SelectMeaning;
    var selects := [select];
    assert SelectMeaning(i, arity, db, values, selects[0]) == SelectMeaning(i, arity, db, values, select);
    if SelectMeaning(i, arity, db, values, select).None? {
      assert UnionMeaning(i, arity, db, values, selects) == None;
    } else {
      var b := SelectMeaning(i, arity, db, values, select).value;
      assert forall k :: 0 <= k < |selects| ==> selects[k] == select;
      assert Some(b) == Some(true) <==> b;
      assert UnionMeaning(i, arity, db, values, selects).Some?;
      assert UnionMeaning(i, arity, db, values, selects).value <==> b;
    }
  }

  /** The datastore's answer to a single query. */
  lemma SingleAnswer(setup: Setup, parse: Parser, query: QueryAst.Query, i: Interpretation, db: SqlDatabase, b: bool)
    requires QueryAst.AllCallClauses([query]) && Readable(setup, [query])
    requires ReadsAs(setup, parse, i, LowerUnion(setup, [query], 0))
    ensures Answer(setup, parse, i, db, [query]) == Ok(b) <==>
            && RenderableQuery(setup, query)
            && SelectMeaning(i, Arities(setup.templates), db, QueryValues(query), LowerQuery(setup, query, 0)) ==
               Some(b)
  {
    hide QueryAst.AllCallClauses, Readable, ReadsAs, RenderableUnion, RenderableQuery, UnionMeaning, SelectMeaning,
      LowerQuery, LowerUnion, Answer;
    SingleUnion(setup, i, Arities(setup.templates), db, query);
    AnswerIsMeaning(setup, parse, i, db, [query]);
  }

  lemma CompiledCalls(pool: seq<string>, q: Body, body: seq<RExpr>, query: QueryAst.Query)
    requires CompilesTo(pool, q, body, query)
    ensures QueryAst.AllCallClauses([query])
  {
    ClausesAreCalls(TransformQuery(pool, q).value.query);
  }

  /** The datastore's answer to the query of a body, in terms of its SELECT. */
  lemma AnswerTells(setup: Setup, parse: Parser, pool: seq<string>, q: Body, body: seq<RExpr>, query: QueryAst.Query,
                    i: Interpretation, db: SqlDatabase)
    requires Compiled(setup, pool, q, body, query) && DistinctTables(setup, BodyTableSet(body))
    requires ReadsAs(setup, parse, i, LowerUnion(setup, [query], 0))
    ensures Placed(setup, pool, q, body, query, 0, QueryValues(query))
    ensures Answer(setup, parse, i, db, [query]) == Ok(PolicyTrue(setup, i, db, body)) <==>
            RenderableQuery(setup, query) && SelectTells(setup, body, query, 0, QueryValues(query), i, db)
  {
    CompiledCalls(pool, q, body, query);
    hide CompilesTo, QueryAst.AllCallClauses, BodyTableSet, DistinctTables, Readable, ReadsAs, RenderableQuery,
      SelectMeaning, LowerQuery, LowerUnion, PolicyTrue, Answer, QueryValues;
    assert QueryValues(query)[0..|QueryValues(query)|] == QueryValues(query);
    SingleAnswer(setup, parse, query, i, db, PolicyTrue(setup, i, db, body));
  }

  lemma FaithfulKeepsMeaning(setup: Setup, parse: Parser, pool: seq<string>, q: Body, body: seq<RExpr>,
                             query: QueryAst.Query, i: Interpretation, db: SqlDatabase)
    requires Compiled(setup, pool, q, body, query) && DistinctTables(setup, BodyTableSet(body))
    requires RenderableQuery(setup, query) && Faithful(body, CompiledBody(body))
    requires ReadsAs(setup, parse, i, LowerUnion(setup, [query], 0))
    ensures Answer(setup, parse, i, db, [query]) == Ok(PolicyTrue(setup, i, db, body))
  {
    hide Compiled, Placed, Faithful, SelectTells, RenderableQuery, Answer, PolicyTrue, ReadsAs, DistinctTables;
    AnswerTells(setup, parse, pool, q, body, query, i, db);
    FaithfulSelectTells(setup, pool, q, body, query, 0, QueryValues(query), i, db);
  }

  lemma ApartFromTheRest(setup: Setup, body: seq<RExpr>, query: QueryAst.Query)
    requires StoredApart(setup, body, query) && DistinctTables(setup, QueryEntities(query))
    ensures DistinctTables(setup, BodyTableSet(body))
  {
    hide TableOf, QueryEntities, BodyTableSet;
  }

  lemma AcceptedIsApart(setup: Setup, i: Interpretation, db: SqlDatabase, query: QueryAst.Query, compiled: Body,
                        b: bool)
    requires BuiltFrom(query, compiled)
    requires SelectMeaning(i, Arities(setup.templates), db, QueryValues(query), LowerQuery(setup, query, 0)) == Some(b)
    ensures DistinctTables(setup, QueryEntities(query))
  {
    hide SelectMeaning, LowerQuery, QueryValues, DistinctTables, Arities;
    if !DistinctTables(setup, QueryEntities(query)) {
      SharedStorageIsRejected(setup, i, Arities(setup.templates), db, QueryValues(query), query, 0);
    }
  }

  /** Tables of From and Link that are stored together make the database reject the statement. */
  lemma KeptMeaningNeedsStorage(setup: Setup, parse: Parser, pool: seq<string>, q: Body, body: seq<RExpr>,
                                query: QueryAst.Query)
    requires Compiled(setup, pool, q, body, query) && AgreesPermissively(setup, parse, body, query)
    requires ReadsAs(setup, parse, PERMISSIVE, LowerUnion(setup, [query], 0))
    ensures RenderableQuery(setup, query) && DistinctTables(setup, BodyTableSet(body))
  {
    var db := Everywhere(SINGLE);
    CompiledCalls(pool, q, body, query);
    var truth := PolicyTrue(setup, PERMISSIVE, db, body);
    assert BuiltFrom(query, TransformQuery(pool, q).value.query) && StoredApart(setup, body, query);
    assert Readable(setup, [query]) && Answer(setup, parse, PERMISSIVE, db, [query]) == Ok(truth);
    hide *;
    SingleAnswer(setup, parse, query, PERMISSIVE, db, truth);
    AcceptedIsApart(setup, PERMISSIVE, db, query, TransformQuery(pool, q).value.query, truth);
    ApartFromTheRest(setup, body, query);
  }

  lemma KeptMeaningNeedsFaithfulness(setup: Setup, parse: Parser, pool: seq<string>, q: Body, body: seq<RExpr>,
                                     query: QueryAst.Query)
    requires Compiled(setup, pool, q, body, query) && AgreesPermissively(setup, parse, body, query)
    requires ReadsAs(setup, parse, PERMISSIVE, LowerUnion(setup, [query], 0))
    ensures RenderableQuery(setup, query) && DistinctTables(setup, BodyTableSet(body))
    ensures Faithful(body, CompiledBody(body))
  {
    KeptMeaningNeedsStorage(setup, parse, pool, q, body, query);
    hide Compiled, Placed, Faithful, SelectTells, RenderableQuery, Answer, PolicyTrue, ReadsAs, DistinctTables;
    forall db
      ensures SelectTells(setup, body, query, 0, QueryValues(query), PERMISSIVE, db)
      ensures Placed(setup, pool, q, body, query, 0, QueryValues(query))
    {
      AnswerTells(setup, parse, pool, q, body, query, PERMISSIVE, db);
    }
    AnswerTells(setup, parse, pool, q, body, query, PERMISSIVE, Everywhere(SINGLE));
    TellingNeedsFaithfulness(setup, pool, q, body, query, 0, QueryValues(query));
  }

  /** The compiler keeps the meaning of a body exactly when its query can be rendered, its tables are stored
      apart, and the body is faithful: it has no negated expression, shares no iterator between tables,
      declares every local variable with one column and under a name that is no iterator, still mentions all
      of its tables after inlining, and every table but the first shares an expression with another one. What
      is kept is the answer to the statement that the stack machine writes, for every meaning with which the
      database reads it. All that is asked of the database is that it finds the statement's tables in the
      text, which is what reading it with permissive operators amounts to. */
  lemma CompilationKeepsMeaningExactly(setup: Setup, parse: Parser, pool: seq<string>, q: Body, body: seq<RExpr>,
                                       query: QueryAst.Query)
    requires Compiled(setup, pool, q, body, query)
    requires ReadsAs(setup, parse, PERMISSIVE, LowerUnion(setup, [query], 0))
    ensures KeepsMeaning(setup, parse, body, query) <==>
            && RenderableQuery(setup, query)
            && DistinctTables(setup, BodyTableSet(body))
            && Faithful(body, CompiledBody(body))
  {
    hide Compiled, Faithful, RenderableQuery, Answer, PolicyTrue, ReadsAs, DistinctTables;
    if
      && RenderableQuery(setup, query)
      && DistinctTables(setup, BodyTableSet(body))
      && Faithful(body, CompiledBody(body))
    {
      forall i, db | ReadsAs(setup, parse, i, LowerUnion(setup, [query], 0))
        ensures Answer(setup, parse, i, db, [query]) == Ok(PolicyTrue(setup, i, db, body))
      {
        FaithfulKeepsMeaning(setup, parse, pool, q, body, query, i, db);
      }
    }
    if KeepsMeaning(setup, parse, body, query) {
      KeptMeaningNeedsFaithfulness(setup, parse, pool, q, body, query);
    }
  }
}
