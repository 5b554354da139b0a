/** SQL datastores answer the bodies they serve truly. */
module SqlDecisions {
  import opened Results
  import QueryAst
  import opened RegoAst
  import opened RegoMeaning
  import opened Meaning
  import opened Processor
  import opened SqlStructure
  import opened SqlPlaceholders
  import opened SqlPositions
  import opened SqlMeaning
  import opened SqlExecutor
  import opened PolicyMeaning
  import opened EndToEnd
  import opened AstTranslator
  import opened Decisions

  // ---------------------------------------------------------------- unions

  /** Wherever the query stands in a statement, its SELECT answers b. */
  ghost predicate QueryMeans(setup: Setup, i: Interpretation, db: SqlDatabase, query: QueryAst.Query, b: bool) {
    forall at: nat, values :: StandsAt(values, at, QueryValues(query)) ==>
      SelectMeaning(i, Arities(setup.templates), db, values, LowerQuery(setup, query, at)) == Some(b)
  }

  /** The place of the parameters of the k-th query. */
  function PlaceOf(qs: seq<QueryAst.Query>, k: nat): nat
    requires k <= |qs|
  {
    if k == 0 then 0 else |QueryValues(qs[0])| + PlaceOf(qs[1..], k - 1)
  }

  lemma {:induction false} UnionParts(setup: Setup, qs: seq<QueryAst.Query>, start: nat, values: seq<string>, k: nat)
    requires k < |qs| && StandsAt(values, start, UnionValues(qs))
    ensures LowerUnion(setup, qs, start)[k] == LowerQuery(setup, qs[k], start + PlaceOf(qs, k))
    ensures StandsAt(values, start + PlaceOf(qs, k), QueryValues(qs[k]))
    decreases k
  {
    hide StandsAt, LowerQuery, QueryValues;
    StandsAtParts(values, start, QueryValues(qs[0]), UnionValues(qs[1..]));
    if k > 0 {
      UnionParts(setup, qs[1..], start + |QueryValues(qs[0])|, values, k - 1);
    }
  }

  lemma SelectsMean(setup: Setup, i: Interpretation, db: SqlDatabase, qs: seq<QueryAst.Query>, truth: seq<bool>)
    requires |truth| == |qs| && forall k :: 0 <= k < |qs| ==> QueryMeans(setup, i, db, qs[k], truth[k])
    ensures UnionMeaning(i, Arities(setup.templates), db, UnionValues(qs), LowerUnion(setup, qs, 0)) ==
            Some(exists k :: 0 <= k < |qs| && truth[k])
  {
    var values, selects := UnionValues(qs), LowerUnion(setup, qs, 0);
    assert StandsAt(values, 0, UnionValues(qs));
    forall k | 0 <= k < |qs|
      ensures SelectMeaning(i, Arities(setup.templates), db, values, selects[k]) == Some(truth[k])
    {
      hide SelectMeaning, LowerQuery, LowerUnion, StandsAt;
      UnionParts(setup, qs, 0, values, k);
    }
  }

  /** A union is answered with the disjunction of its queries, each reading its own parameters. */
  lemma UnionMeans(setup: Setup, parse: Parser, i: Interpretation, db: SqlDatabase, qs: seq<QueryAst.Query>,
                   truth: seq<bool>)
    requires QueryAst.AllCallClauses(qs) && Readable(setup, qs) && RenderableUnion(setup, qs)
    requires ReadsAs(setup, parse, i, LowerUnion(setup, qs, 0))
    requires |truth| == |qs| && forall k :: 0 <= k < |qs| ==> QueryMeans(setup, i, db, qs[k], truth[k])
    ensures Answer(setup, parse, i, db, qs) == Ok(exists k :: 0 <= k < |qs| && truth[k])
  {
    hide QueryMeans, Readable, ReadsAs, RenderableUnion, UnionMeaning, Answer, LowerUnion;
    AnswerIsMeaning(setup, parse, i, db, qs);
    SelectsMean(setup, i, db, qs, truth);
  }

  // ---------------------------------------------------------------- datastores

  /** A configured datastore, the parser of its database, and its data. */
  datatype SqlStore = SqlStore(setup: Setup, parse: Parser, db: SqlDatabase)

  /** The datastore translates a union, runs the statement and reports the answer or some error. */
  ghost predicate ExecutesSql(execute: Execute, store: SqlStore, i: Interpretation) {
    forall qs :: match Answer(store.setup, store.parse, i, store.db, qs)
                 case Ok(b) => execute(qs) == Ok(b)
                 case Err(_) => execute(qs).Err?
  }

  /** The compiler keeps the body faithfully and the datastore can render and read its query. */
  ghost predicate Served(setup: Setup, body: seq<RExpr>) {
    && DistinctTables(setup, BodyTableSet(body))
    && Faithful(body, CompiledBody(body))
    && AllRenderable(setup, ClausesOf(body))
    && AllUseSound(setup.templates, ClausesOf(body))
    && (setup.platform.Mysql? ==> AllAligned(setup.templates, ClausesOf(body)))
  }

  /** The database reads the statements over the queries of its bodies with their meaning. */
  ghost predicate Understands(store: SqlStore, i: Interpretation, bodies: seq<seq<RExpr>>, ds: string) {
    forall qs :: QueriesOf(bodies, ds, qs) ==>
      ReadsAs(store.setup, store.parse, i, LowerUnion(store.setup, qs, 0))
  }

  lemma {:induction false} RenderableKnows(setup: Setup, o: QueryAst.Operand)
    requires Renderable(setup, o)
    ensures KnownEntities(setup, QueryAst.EntitiesOf(o))
    decreases o, 1
  {
    if o.Call? {
      AllRenderableKnow(setup, o.args);
    }
  }

  lemma {:induction false} AllRenderableKnow(setup: Setup, os: seq<QueryAst.Operand>)
    requires AllRenderable(setup, os)
    ensures KnownEntities(setup, QueryAst.EntitiesOfAll(os))
    decreases os, 0
  {
    if os != [] {
      RenderableKnows(setup, os[0]);
      AllRenderableKnow(setup, os[1..]);
    }
  }

  /** The query means b on its datastore, and can be rendered and read there. */
  ghost predicate Settled(setup: Setup, i: Interpretation, db: SqlDatabase, query: QueryAst.Query, b: bool) {
    && QueryAst.CallClauses(query)
    && RenderableQuery(setup, query)
    && Readable(setup, [query])
    && QueryMeans(setup, i, db, query, b)
  }

  lemma ServedIsRenderable(setup: Setup, body: seq<RExpr>, query: QueryAst.Query)
    requires Served(setup, body) && BuiltFrom(query, CompiledBody(body))
    ensures QueryAst.CallClauses(query) && RenderableQuery(setup, query) && Readable(setup, [query])
  {
    hide AllRenderable, AllUseSound, AllAligned, Faithful;
    ClausesAreCalls(CompiledBody(body));
    AllRenderableKnow(setup, query.clauses);
    ProcessingFacts(query, CompiledBody(body));
    assert [query][0] == query;
  }

  lemma ServedMeans(setup: Setup, pool: seq<string>, q: Body, body: seq<RExpr>, query: QueryAst.Query,
                    i: Interpretation, db: SqlDatabase)
    requires "" !in pool && Served(setup, body) && CompilesTo(pool, q, body, query)
    ensures QueryMeans(setup, i, db, query, PolicyTrue(setup, i, db, body))
  {
    hide Faithful, PolicyTrue, CompilesTo, LowerQuery, SelectMeaning;
    forall at: nat, values | StandsAt(values, at, QueryValues(query))
      ensures SelectTells(setup, body, query, at, values, i, db)
    {
      FaithfulSelectTells(setup, pool, q, body, query, at, values, i, db);
    }
  }

  lemma ServedIsSettled(setup: Setup, pool: seq<string>, q: Body, body: seq<RExpr>, query: QueryAst.Query,
                        i: Interpretation, db: SqlDatabase)
    requires "" !in pool && Accepts(pool, q, body) && Served(setup, body)
    requires BuiltFrom(query, CompiledBody(body))
    ensures Settled(setup, i, db, query, PolicyTrue(setup, i, db, body))
  {
    hide Served, BuiltFrom, PolicyTrue, QueryMeans, RenderableQuery, Readable;
    AcceptedIsCompiled(pool, q, body);
    assert CompilesTo(pool, q, body, query);
    hide CompilesTo, Accepts;
    ServedIsRenderable(setup, body, query);
    ServedMeans(setup, pool, q, body, query, i, db);
  }

  lemma GroupIsReadable(setup: Setup, i: Interpretation, db: SqlDatabase, group: seq<QueryAst.Query>,
                        answers: seq<bool>)
    requires |group| == |answers| && forall k :: 0 <= k < |group| ==> Settled(setup, i, db, group[k], answers[k])
    ensures QueryAst.AllCallClauses(group) && Readable(setup, group) && RenderableUnion(setup, group)
    ensures forall k :: 0 <= k < |group| ==> QueryMeans(setup, i, db, group[k], answers[k])
  {
    hide RenderableQuery, QueryMeans, AllUseSound, AllAligned, QueryAst.CallClauses;
    forall k | 0 <= k < |group|
      ensures AllUseSound(setup.templates, group[k].clauses)
      ensures setup.platform.Mysql? ==> AllAligned(setup.templates, group[k].clauses)
    {
      assert [group[k]][0] == group[k];
      assert Readable(setup, [group[k]]);
    }
  }

  /** The truth of the bodies of a datastore on its database. */
  ghost predicate TruthIn(store: SqlStore, i: Interpretation, ds: string, bodies: seq<seq<RExpr>>, truth: seq<bool>)
    requires |bodies| == |truth|
  {
    forall k :: 0 <= k < |bodies| && HomeOf(bodies[k]) == ds ==>
      truth[k] == PolicyTrue(store.setup, i, store.db, bodies[k])
  }

  lemma QueryIsSettled(store: SqlStore, i: Interpretation, pool: seq<string>, ds: string, qs: seq<Body>,
                       bodies: seq<seq<RExpr>>, truth: seq<bool>, query: QueryAst.Query, b: bool)
    requires "" !in pool && |qs| == |bodies| == |truth| && TruthIn(store, i, ds, bodies, truth)
    requires forall k :: 0 <= k < |qs| && HomeOf(bodies[k]) == ds ==>
               Accepts(pool, qs[k], bodies[k]) && Served(store.setup, bodies[k])
    requires QueryFor(bodies, truth, ds, query, b)
    ensures Settled(store.setup, i, store.db, query, b)
  {
    hide HomeOf, Accepts, Served, BuiltFrom, CompiledBody, PolicyTrue, Settled;
    var j :| 0 <= j < |bodies| && HomeOf(bodies[j]) == ds && BuiltFrom(query, CompiledBody(bodies[j])) && b == truth[j];
    ServedIsSettled(store.setup, pool, qs[j], bodies[j], query, i, store.db);
  }

  /** A SQL datastore whose database reads its statements answers the bodies it serves truly. */
  lemma SqlAnswersTruly(execute: Execute, store: SqlStore, i: Interpretation, pool: seq<string>, ds: string,
                        qs: seq<Body>, bodies: seq<seq<RExpr>>, truth: seq<bool>)
    requires "" !in pool && |qs| == |bodies| == |truth| && TruthIn(store, i, ds, bodies, truth)
    requires forall k :: 0 <= k < |qs| && HomeOf(bodies[k]) == ds ==>
               Accepts(pool, qs[k], bodies[k]) && Served(store.setup, bodies[k])
    requires ExecutesSql(execute, store, i) && Understands(store, i, bodies, ds)
    ensures AnswersTruly(execute, ds, bodies, truth)
  {
    hide TruthIn, HomeOf, Accepts, Served, Settled, QueryMeans, ReadsAs, Answer, Readable, RenderableUnion, BuiltFrom,
      CompiledBody;
    forall group, answers | QueriesFor(bodies, truth, ds, group, answers)
      ensures execute(group) == Ok(exists k :: 0 <= k < |answers| && answers[k])
    {
      forall k | 0 <= k < |group| ensures Settled(store.setup, i, store.db, group[k], answers[k]) {
        QueryIsSettled(store, i, pool, ds, qs, bodies, truth, group[k], answers[k]);
      }
      GroupIsReadable(store.setup, i, store.db, group, answers);
      assert QueriesOf(bodies, ds, group);
      UnionMeans(store.setup, store.parse, i, store.db, group, answers);
    }
  }
}
