/** The whole pipeline over SQL and MongoDB datastores. */
module Pipeline {
  import opened Results
  import opened RegoAst
  import opened RegoMeaning
  import opened Meaning
  import opened EndToEnd
  import opened AstTranslator
  import opened Decisions
  import SqlDecisions
  import MongoStores
  import MongoPolicy
  import SqlReader
  import FilterReader
  import FilterReading
  import FlatPolicies
  import FlatFilters

  datatype Store =
    | Sql(sql: SqlDecisions.SqlStore)
    | Mongo(mongo: MongoStores.MongoStore)

  type Stores = map<string, Store>

  /** The datastores translate unions and run what they get on their data. */
  ghost predicate Runs(datastores: map<string, Execute>, stores: Stores, i: Interpretation) {
    && datastores.Keys == stores.Keys
    && forall ds :: ds in stores ==> RunsOn(datastores[ds], stores[ds], i)
  }

  ghost predicate RunsOn(execute: Execute, store: Store, i: Interpretation) {
    match store
    case Sql(sql) => SqlDecisions.ExecutesSql(execute, sql, i)
    case Mongo(mongo) => MongoStores.Configured(mongo, i) && MongoStores.ExecutesFilters(execute, mongo, i)
  }

  /** The databases read the statements and filters over the queries of their bodies with their meaning. */
  ghost predicate Understood(stores: Stores, i: Interpretation, bodies: seq<seq<RExpr>>) {
    forall ds :: ds in stores ==> Understands(stores[ds], i, bodies, ds)
  }

  ghost predicate Understands(store: Store, i: Interpretation, bodies: seq<seq<RExpr>>, ds: string) {
    match store
    case Sql(sql) => SqlDecisions.Understands(sql, i, bodies, ds)
    case Mongo(mongo) => MongoStores.Understands(mongo, i, bodies, ds)
  }

  /** The body is one that its datastore answers. */
  ghost predicate Served(store: Store, body: seq<RExpr>) {
    match store
    case Sql(sql) => SqlDecisions.Served(sql.setup, body)
    case Mongo(mongo) => MongoStores.Served(mongo, body)
  }

  /** The truth of a body on the data of its datastore. */
  ghost predicate TrueAtHome(stores: Stores, i: Interpretation, body: seq<RExpr>) {
    HomeOf(body) in stores && TrueIn(stores[HomeOf(body)], i, body)
  }

  ghost predicate TrueIn(store: Store, i: Interpretation, body: seq<RExpr>) {
    match store
    case Sql(sql) => PolicyTrue(sql.setup, i, sql.db, body)
    case Mongo(mongo) => MongoStores.TrueInStore(mongo, i, body)
  }

  /** The preprocessor accepts the bodies and their datastores serve them. */
  ghost predicate Supported(stores: Stores, pool: seq<string>, qs: seq<Body>, bodies: seq<seq<RExpr>>) {
    && |qs| == |bodies|
    && forall k :: 0 <= k < |qs| ==>
         && Accepts(pool, qs[k], bodies[k])
         && HomeOf(bodies[k]) in stores
         && Served(stores[HomeOf(bodies[k])], bodies[k])
  }

  ghost function Truths(stores: Stores, i: Interpretation, bodies: seq<seq<RExpr>>): (truth: seq<bool>)
    ensures |truth| == |bodies| && forall k :: 0 <= k < |bodies| ==> truth[k] == TrueAtHome(stores, i, bodies[k])
  {
    seq(|bodies|, k requires 0 <= k < |bodies| => TrueAtHome(stores, i, bodies[k]))
  }

  lemma StoreAnswersTruly(datastores: map<string, Execute>, stores: Stores, pool: seq<string>, qs: seq<Body>,
                          bodies: seq<seq<RExpr>>, i: Interpretation, ds: string)
    requires "" !in pool && Supported(stores, pool, qs, bodies) && ds in stores
    requires Runs(datastores, stores, i) && Understood(stores, i, bodies)
    ensures AnswersTruly(datastores[ds], ds, bodies, Truths(stores, i, bodies))
  {
    var truth := Truths(stores, i, bodies);
    hide Accepts, HomeOf, AnswersTruly, PolicyTrue, MongoStores.TrueInStore, SqlDecisions.Served, MongoStores.Served,
      SqlDecisions.Understands, MongoStores.Understands, SqlDecisions.ExecutesSql, MongoStores.ExecutesFilters,
      MongoStores.Configured;
    match stores[ds]
    case Sql(sql) =>
      SqlDecisions.SqlAnswersTruly(datastores[ds], sql, i, pool, ds, qs, bodies, truth);
    case Mongo(mongo) =>
      MongoStores.MongoAnswersTruly(datastores[ds], mongo, i, pool, ds, qs, bodies, truth);
  }

  /** For supported bodies, what the translator reports is no error, and it is allow exactly when one of the
      bodies is true on the data of its datastore, in whatever order the datastores are asked. */
  lemma DecisionMeansPolicies(datastores: map<string, Execute>, stores: Stores, skipUnknown: bool, pool: seq<string>,
                              qs: seq<Body>, bodies: seq<seq<RExpr>>, i: Interpretation,
                              r: Result<bool, TranslateError>)
    requires "" !in pool && Supported(stores, pool, qs, bodies)
    requires Runs(datastores, stores, i) && Understood(stores, i, bodies)
    requires Reports(datastores, skipUnknown, qs, pool, r)
    ensures r == Ok(exists k :: 0 <= k < |bodies| && TrueAtHome(stores, i, bodies[k]))
  {
    hide Accepts, HomeOf, AnswersTruly, Served, Understood, Reports, TrueAtHome;
    forall ds | ds in datastores ensures AnswersTruly(datastores[ds], ds, bodies, Truths(stores, i, bodies)) {
      StoreAnswersTruly(datastores, stores, pool, qs, bodies, i, ds);
    }
    DecisionIsDisjunction(datastores, skipUnknown, pool, qs, bodies, Truths(stores, i, bodies), r);
  }

  /** The database reads its statements word by word, or its filters as JSON, with `named` for the operators that
      symbols and relations stand for, and the bodies compare columns, constants and attributes. */
  ghost predicate ReadsTexts(store: Store, named: map<string, string>, i: Interpretation, bodies: seq<seq<RExpr>>,
                             ds: string)
  {
    match store
    case Sql(sql) =>
      && sql.parse == SqlReader.Reader(sql.setup.platform, named)
      && SqlReader.NamesSymbols(sql.setup.templates, named)
      && FlatPolicies.Alike(i, sql.setup.templates)
      && forall k :: 0 <= k < |bodies| && HomeOf(bodies[k]) == ds ==> FlatPolicies.FlatBody(sql.setup, bodies[k])
    case Mongo(mongo) =>
      && mongo.parse == FilterReader.Reader(named)
      && FilterReading.NamesRelations(mongo.templates, named)
      && FlatFilters.Alike(MongoPolicy.ReadingOf(i), mongo.templates)
      && forall k :: 0 <= k < |bodies| && HomeOf(bodies[k]) == ds ==> FlatFilters.PlainBody(mongo, bodies[k])
  }

  lemma TextsAreUnderstood(store: Store, named: map<string, string>, i: Interpretation, bodies: seq<seq<RExpr>>,
                           ds: string)
    requires ReadsTexts(store, named, i, bodies, ds)
    ensures Understands(store, i, bodies, ds)
  {
    hide HomeOf, SqlReader.Reader, SqlReader.NamesSymbols, FlatPolicies.Alike, FlatPolicies.FlatBody,
      FilterReader.Reader, FilterReading.NamesRelations, FlatFilters.Alike, FlatFilters.PlainBody,
      SqlDecisions.Understands, MongoStores.Understands;
    match store
    case Sql(sql) =>
      FlatPolicies.FlatBodiesAreUnderstood(sql, named, i, bodies, ds);
    case Mongo(mongo) =>
      FlatFilters.PlainBodiesAreUnderstood(mongo, named, i, bodies, ds);
  }

  /** For bodies of comparisons, nothing is asked of the databases but to read the texts they get. */
  lemma DecisionOfFlatPolicies(datastores: map<string, Execute>, stores: Stores,
                               named: map<string, map<string, string>>, skipUnknown: bool, pool: seq<string>,
                               qs: seq<Body>, bodies: seq<seq<RExpr>>, i: Interpretation,
                               r: Result<bool, TranslateError>)
    requires "" !in pool && Supported(stores, pool, qs, bodies) && Runs(datastores, stores, i)
    requires forall ds :: ds in stores ==> ds in named && ReadsTexts(stores[ds], named[ds], i, bodies, ds)
    requires Reports(datastores, skipUnknown, qs, pool, r)
    ensures r == Ok(exists k :: 0 <= k < |bodies| && TrueAtHome(stores, i, bodies[k]))
  {
    hide ReadsTexts, Understands, Supported, Runs, Reports, TrueAtHome;
    forall ds | ds in stores ensures Understands(stores[ds], i, bodies, ds) {
      TextsAreUnderstood(stores[ds], named[ds], i, bodies, ds);
    }
    DecisionMeansPolicies(datastores, stores, skipUnknown, pool, qs, bodies, i, r);
  }
}
