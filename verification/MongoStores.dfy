/** MongoDB datastores answer the bodies they serve truly. */
module MongoStores {
  import opened Results
  import QueryAst
  import opened RegoAst
  import opened RegoMeaning
  import opened Meaning
  import opened Templates
  import opened Processor
  import opened SqlMeaning
  import opened EndToEnd
  import opened AstTranslator
  import opened Decisions
  import MongoTranslator
  import opened MongoMarkers
  import opened MongoDirect
  import opened MongoEntities
  import opened MongoMeaning
  import opened MongoDecisions
  import opened MongoPolicy

  /** A configured datastore, the operators that are symmetric in it, its reader of filters, and its data. */
  datatype MongoStore = MongoStore(
    cfg: MongoTranslator.Config,
    templates: TemplateTable,
    symmetric: set<string>,
    parse: FilterParser,
    docs: Collections)

  /** The templates are compiled and safe, and the symmetric operators are symmetric. */
  ghost predicate Configured(store: MongoStore, i: Interpretation) {
    && store.cfg.callOps == CompiledOperands(store.templates)
    && SafeTemplates(store.templates) && UsesEveryOperand(store.templates)
    && Symmetric(ReadingOf(i), store.symmetric)
  }

  /** The datastore translates a union, in some order of collections, runs the filters and reports the answer
      or some error. */
  ghost predicate ExecutesFilters(execute: Execute, store: MongoStore, i: Interpretation) {
    forall qs :: ExecutesUnion(execute(qs), store, i, qs)
  }

  ghost predicate ExecutesUnion(answer: Result<bool, string>, store: MongoStore, i: Interpretation,
                                qs: seq<QueryAst.Query>)
  {
    exists r :: MongoTranslator.Translated(store.cfg, qs, r) && ReportsFilters(answer, store, i, r)
  }

  ghost predicate ReportsFilters(answer: Result<bool, string>, store: MongoStore, i: Interpretation,
                                 r: Result<map<string, string>, MongoTranslator.MongoError>)
  {
    match r
    case Err(_) => answer.Err?
    case Ok(result) =>
      var found := RunFilters(store.parse, ReadingOf(i), store.docs, result);
      if found.Some? then answer == Ok(found.value) else answer.Err?
  }

  /** From and condition of the body's query. */
  function QueryShape(body: seq<RExpr>): QueryAst.Query {
    var tables := BodyTables(CompiledBody(body));
    QueryAst.Query(if tables == [] then "" else tables[0], [], ClausesOf(body))
  }

  /** What a query has to be like to be answered truly; only From and condition matter. */
  ghost predicate Answerable(store: MongoStore, q: QueryAst.Query) {
    && AllComparisons(q.clauses) && BinaryTemplates(store.templates, q.clauses) && q.clauses != []
    && AllSafe(q.clauses) && Quotable(PathOf(store.cfg.entityPaths, q.from), q)
    && EntitiesHavePaths(store.cfg.entityPaths, q)
    && Keepable(store.symmetric, store.cfg.entityPaths, q)
  }

  ghost predicate Served(store: MongoStore, body: seq<RExpr>) {
    Documentary(body) && Answerable(store, QueryShape(body))
  }

  /** The executor reads the filters over the queries of the datastore's bodies with their meaning. */
  ghost predicate Understands(store: MongoStore, i: Interpretation, bodies: seq<seq<RExpr>>, ds: string) {
    forall qs :: QueriesOf(bodies, ds, qs) ==>
      ReadsFiltersAs(store.templates, store.parse, ReadingOf(i), store.cfg.entityPaths, qs)
  }

  /** The body is true within some document of its collection. */
  ghost predicate TrueInStore(store: MongoStore, i: Interpretation, body: seq<RExpr>) {
    var from := QueryShape(body).from;
    TrueInDocument(i, Arities(store.templates), DocumentDatabase(PathOf(store.cfg.entityPaths, from), store.docs(from)),
                   body)
  }

  ghost predicate TruthIn(store: MongoStore, i: Interpretation, ds: string, bodies: seq<seq<RExpr>>, truth: seq<bool>)
    requires |bodies| == |truth|
  {
    forall k :: 0 <= k < |bodies| && HomeOf(bodies[k]) == ds ==> truth[k] == TrueInStore(store, i, bodies[k])
  }

  lemma ShapeMatters(store: MongoStore, q: QueryAst.Query, shape: QueryAst.Query)
    requires q.from == shape.from && q.clauses == shape.clauses && Answerable(store, shape)
    ensures Answerable(store, q)
  {
  }

  lemma BuiltHasShape(query: QueryAst.Query, body: seq<RExpr>)
    requires BuiltFrom(query, CompiledBody(body))
    ensures query.from == QueryShape(body).from && query.clauses == QueryShape(body).clauses
  {
  }

  /** A query of a served body is answerable, and satisfied exactly when the body is true. */
  ghost predicate Settled(store: MongoStore, i: Interpretation, query: QueryAst.Query, b: bool) {
    Answerable(store, query) && (QuerySatisfied(ReadingOf(i), store.docs, store.cfg.entityPaths, query) <==> b)
  }

  lemma ServedIsSettled(store: MongoStore, i: Interpretation, pool: seq<string>, q: Body, body: seq<RExpr>,
                        query: QueryAst.Query)
    requires "" !in pool && Accepts(pool, q, body) && Served(store, body) && BuiltFrom(query, CompiledBody(body))
    ensures Settled(store, i, query, TrueInStore(store, i, body))
  {
    hide Answerable, BuiltFrom, QuerySatisfied, TrueInDocument, Documentary, CompilesTo, QueryShape;
    AcceptedIsCompiled(pool, q, body);
    AcceptedCompiles(pool, q, body, query);
    BuiltHasShape(query, body);
    ShapeMatters(store, query, QueryShape(body));
    AnswerableCompares(store, query);
    QueryMeansBody(i, store.templates, store.cfg.entityPaths, store.docs, pool, q, body, query);
  }

  lemma AcceptedCompiles(pool: seq<string>, q: Body, body: seq<RExpr>, query: QueryAst.Query)
    requires "" !in pool && Accepts(pool, q, body) && BuiltFrom(query, CompiledBody(body))
    ensures CompilesTo(pool, q, body, query)
  {
    AcceptedIsCompiled(pool, q, body);
  }

  lemma AnswerableCompares(store: MongoStore, query: QueryAst.Query)
    requires Answerable(store, query)
    ensures AllComparisons(query.clauses) && BinaryTemplates(store.templates, query.clauses)
  {
  }

  lemma GroupIsAnswerable(store: MongoStore, group: seq<QueryAst.Query>)
    requires forall k :: 0 <= k < |group| ==> Answerable(store, group[k])
    ensures SafeQueries(group) && AllQueriesCompare(group) && AllBinary(store.templates, group) && Conditional(group)
    ensures QuotableQueries(store.cfg.entityPaths, group)
    ensures forall k :: 0 <= k < |group| ==>
              && EntitiesHavePaths(store.cfg.entityPaths, group[k])
              && Keepable(store.symmetric, store.cfg.entityPaths, group[k])
  {
    hide AllSafe, Quotable, EntitiesHavePaths, Keepable, AllComparisons, BinaryTemplates;
  }

  /** A union over settled queries is answered with their disjunction. */
  lemma GroupAnswers(execute: Execute, store: MongoStore, i: Interpretation, group: seq<QueryAst.Query>,
                     answers: seq<bool>)
    requires Configured(store, i) && ExecutesFilters(execute, store, i) && |group| == |answers|
    requires forall k :: 0 <= k < |group| ==> Settled(store, i, group[k], answers[k])
    requires ReadsFiltersAs(store.templates, store.parse, ReadingOf(i), store.cfg.entityPaths, group)
    ensures execute(group) == Ok(exists k :: 0 <= k < |answers| && answers[k])
  {
    GroupIsAnswerable(store, group);
    hide Answerable, QuerySatisfied, ReadsFiltersAs, RunFilters, MongoTranslator.Translated, Symmetric, SafeTemplates,
      UsesEveryOperand, SafeQueries, AllQueriesCompare, AllBinary, Conditional, QuotableQueries, EntitiesHavePaths,
      Keepable, CompiledOperands, ObjectResult;
    assert ExecutesUnion(execute(group), store, i, group);
    var r :| MongoTranslator.Translated(store.cfg, group, r) && ReportsFilters(execute(group), store, i, r);
    TranslationKeepsDecision(store.cfg, store.templates, store.symmetric, store.parse, ReadingOf(i), store.docs, group,
                             r);
  }

  lemma QueryIsSettled(store: MongoStore, i: Interpretation, pool: seq<string>, ds: string, qs: seq<Body>,
                       bodies: seq<seq<RExpr>>, truth: seq<bool>, query: QueryAst.Query, b: bool)
    requires "" !in pool && |qs| == |bodies| == |truth| && TruthIn(store, i, ds, bodies, truth)
    requires forall k :: 0 <= k < |qs| && HomeOf(bodies[k]) == ds ==>
               Accepts(pool, qs[k], bodies[k]) && Served(store, bodies[k])
    requires QueryFor(bodies, truth, ds, query, b)
    ensures Settled(store, i, query, b)
  {
    hide HomeOf, Accepts, Served, BuiltFrom, CompiledBody, TrueInStore, Settled;
    var j :| 0 <= j < |bodies| && HomeOf(bodies[j]) == ds && BuiltFrom(query, CompiledBody(bodies[j])) && b == truth[j];
    ServedIsSettled(store, i, pool, qs[j], bodies[j], query);
  }

  /** A MongoDB datastore whose executor reads its filters answers the bodies it serves truly. Success of the
      translation is not assumed. */
  lemma MongoAnswersTruly(execute: Execute, store: MongoStore, i: Interpretation, pool: seq<string>, ds: string,
                          qs: seq<Body>, bodies: seq<seq<RExpr>>, truth: seq<bool>)
    requires "" !in pool && |qs| == |bodies| == |truth| && TruthIn(store, i, ds, bodies, truth)
    requires forall k :: 0 <= k < |qs| && HomeOf(bodies[k]) == ds ==>
               Accepts(pool, qs[k], bodies[k]) && Served(store, bodies[k])
    requires Configured(store, i) && ExecutesFilters(execute, store, i) && Understands(store, i, bodies, ds)
    ensures AnswersTruly(execute, ds, bodies, truth)
  {
    hide TruthIn, HomeOf, Accepts, Served, Settled, ReadsFiltersAs, BuiltFrom, CompiledBody, Configured,
      ExecutesFilters;
    forall group, answers | QueriesFor(bodies, truth, ds, group, answers)
      ensures execute(group) == Ok(exists k :: 0 <= k < |answers| && answers[k])
    {
      forall k | 0 <= k < |group| ensures Settled(store, i, group[k], answers[k]) {
        QueryIsSettled(store, i, pool, ds, qs, bodies, truth, group[k], answers[k]);
      }
      assert QueriesOf(bodies, ds, group);
      GroupAnswers(execute, store, i, group, answers);
    }
  }
}
