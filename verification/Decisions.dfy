/** From the answers of datastores to the decision: what the translator reports is the disjunction over all
    bodies, whatever the datastores are, as long as each answers its own bodies truly. */
module Decisions {
  import opened Results
  import QueryAst
  import opened RegoAst
  import opened RegoMeaning
  import opened Preprocessor
  import opened PreprocessorTheorems
  import opened Processor
  import opened PolicyMeaning
  import opened EndToEnd
  import opened AstTranslator

  // ---------------------------------------------------------------- accepted bodies

  /** The datastore of a body. */
  ghost function HomeOf(body: seq<RExpr>): string {
    if c :| c in Columns(body) then c.datastore else ""
  }

  /** The body is in the language, the preprocessor accepts it, and it still names a table when its local
      variables are inlined. */
  ghost predicate Accepts(pool: seq<string>, q: Body, body: seq<RExpr>) {
    && ReadBody(map[], q) == Some(body)
    && OneDatastoreOneIterator(pool, Columns(body))
    && DeclaredFirst(body, {})
    && BodyTables(CompiledBody(body)) != []
  }

  lemma AcceptedHasColumns(pool: seq<string>, q: Body, body: seq<RExpr>)
    requires Accepts(pool, q, body)
    ensures Columns(body) != {}
  {
    hide Columns;
    var locals: Locals := map[];
    CompiledTables(body, locals, Columns(body));
    var t := BodyTables(CompiledBody(body))[0];
    assert t in Elements(BodyTables(CompiledBody(body)));
    var c :| c in Columns(body) && c.table == t;
  }

  /** Accepted bodies are preprocessed for their datastore into their compiled form, and the processor
      finds nothing to report in it. */
  lemma AcceptedIsCompiled(pool: seq<string>, q: Body, body: seq<RExpr>)
    requires "" !in pool && Accepts(pool, q, body)
    ensures TransformQuery(pool, q) == Ok(PreprocessedQuery(CompiledBody(body), HomeOf(body)))
    ensures BodyErrors(CompiledBody(body)) == []
  {
    AcceptedHasColumns(pool, q, body);
    hide TransformExprs, Inline, StripBody, ReadBody, DeclaredFirst, Columns, BodyTables;
    var c :| c in Columns(body) && HomeOf(body) == c.datastore;
    PreprocessingSucceedsExactly(pool, q);
    RewritingIsReversible(pool, q);
    ReadBodyShape(map[], q);
    var locals: Locals := map[];
    assert locals.Keys == {};
    CompiledHasNoErrors(body, locals);
  }

  lemma {:induction false} AcceptedAreCompiled(pool: seq<string>, qs: seq<Body>, bodies: seq<seq<RExpr>>)
    requires "" !in pool && |qs| == |bodies| && forall k :: 0 <= k < |qs| ==> Accepts(pool, qs[k], bodies[k])
    ensures TransformQueries(pool, qs).Ok? && |TransformQueries(pool, qs).value| == |qs|
    ensures forall k :: 0 <= k < |qs| ==>
              TransformQueries(pool, qs).value[k] == PreprocessedQuery(CompiledBody(bodies[k]), HomeOf(bodies[k]))
  {
    hide Accepts, HomeOf, TransformQuery, CompiledBody;
    if qs != [] {
      AcceptedIsCompiled(pool, qs[0], bodies[0]);
      assert forall k :: 0 <= k < |qs| - 1 ==> qs[1..][k] == qs[k + 1] && bodies[1..][k] == bodies[k + 1];
      AcceptedAreCompiled(pool, qs[1..], bodies[1..]);
      forall k | 0 <= k < |qs|
        ensures TransformQueries(pool, qs).value[k] == PreprocessedQuery(CompiledBody(bodies[k]), HomeOf(bodies[k]))
      {
        if k > 0 {
          assert TransformQueries(pool, qs[1..]).value[k - 1] ==
                 PreprocessedQuery(CompiledBody(bodies[1..][k - 1]), HomeOf(bodies[1..][k - 1]));
        }
      }
    }
  }

  lemma AcceptedAreTranslatable(pool: seq<string>, qs: seq<Body>, bodies: seq<seq<RExpr>>, skipUnknown: bool)
    requires "" !in pool && |qs| == |bodies| && forall k :: 0 <= k < |qs| ==> Accepts(pool, qs[k], bodies[k])
    ensures TransformQueries(pool, qs).Ok?
    ensures forall k :: 0 <= k < |TransformQueries(pool, qs).value| ==>
              Translatable(skipUnknown, TransformQueries(pool, qs).value[k].query)
  {
    AcceptedAreCompiled(pool, qs, bodies);
    hide TransformQueries, CompiledBody, HomeOf, BodyTables, BodyErrors;
    forall k | 0 <= k < |qs| ensures Translatable(skipUnknown, CompiledBody(bodies[k])) {
      AcceptedIsCompiled(pool, qs[k], bodies[k]);
    }
  }

  /** The clauses of the body's query. */
  function ClausesOf(body: seq<RExpr>): seq<QueryAst.Operand> {
    Clauses(CompiledBody(body))
  }

  // ---------------------------------------------------------------- true answers

  /** All queries come from bodies of the datastore. */
  ghost predicate QueriesOf(bodies: seq<seq<RExpr>>, ds: string, qs: seq<QueryAst.Query>) {
    forall k :: 0 <= k < |qs| ==>
      exists j :: 0 <= j < |bodies| && HomeOf(bodies[j]) == ds && BuiltFrom(qs[k], CompiledBody(bodies[j]))
  }

  /** The query comes from a body of the datastore, and b is the truth of that body. */
  ghost predicate QueryFor(bodies: seq<seq<RExpr>>, truth: seq<bool>, ds: string, query: QueryAst.Query, b: bool)
    requires |bodies| == |truth|
  {
    exists j :: 0 <= j < |bodies| && HomeOf(bodies[j]) == ds && BuiltFrom(query, CompiledBody(bodies[j]))
                && b == truth[j]
  }

  ghost predicate QueriesFor(bodies: seq<seq<RExpr>>, truth: seq<bool>, ds: string, group: seq<QueryAst.Query>,
                             answers: seq<bool>)
    requires |bodies| == |truth|
  {
    |group| == |answers| && forall k :: 0 <= k < |group| ==> QueryFor(bodies, truth, ds, group[k], answers[k])
  }

  /** The datastore answers every union over the queries of its bodies with the disjunction of their truth. */
  ghost predicate AnswersTruly(execute: Execute, ds: string, bodies: seq<seq<RExpr>>, truth: seq<bool>)
    requires |bodies| == |truth|
  {
    forall group, answers :: QueriesFor(bodies, truth, ds, group, answers) ==>
      execute(group) == Ok(exists k :: 0 <= k < |answers| && answers[k])
  }

  lemma GroupAnswers(datastores: map<string, Execute>, bodies: seq<seq<RExpr>>, ds: string,
                     pre: seq<PreprocessedQuery>, processed: seq<QueryAst.Query>, truth: seq<bool>)
    requires |pre| == |processed| == |truth| == |bodies| && ds in datastores
    requires AnswersTruly(datastores[ds], ds, bodies, truth)
    requires forall k :: 0 <= k < |pre| ==> QueryFor(bodies, truth, pre[k].datastore, processed[k], truth[k])
    ensures datastores[ds](OfDatastore(ds, pre, processed)) ==
            Ok(exists k :: 0 <= k < |pre| && pre[k].datastore == ds && truth[k])
  {
    hide QueryFor, OfDatastore;
    var group, grouped := OfDatastore(ds, pre, processed), OfDatastore(ds, pre, truth);
    GroupsParallel(ds, pre, processed, truth);
    forall k | 0 <= k < |group| ensures QueryFor(bodies, truth, ds, group[k], grouped[k]) {
      assert FromOnePlace(ds, pre, processed, truth, group[k], grouped[k]);
    }
    assert QueriesFor(bodies, truth, ds, group, grouped);
    GroupMembers(ds, pre, truth, true);
    assert true in grouped <==> exists k :: 0 <= k < |group| && grouped[k];
    assert true in grouped <==> exists k :: 0 <= k < |pre| && pre[k].datastore == ds && truth[k];
  }

  /** The fold over all groups is the disjunction over all queries. */
  lemma FoldMeans(datastores: map<string, Execute>, groups: Groups, r: Result<bool, TranslateError>,
                  pre: seq<PreprocessedQuery>, truth: seq<bool>)
    requires |pre| == |truth| && groups.Keys == (set k | 0 <= k < |pre| :: pre[k].datastore)
    requires forall ds :: ds in groups ==>
               Answers(datastores, groups, ds, exists k :: 0 <= k < |pre| && pre[k].datastore == ds && truth[k])
    requires FoldOf(datastores, groups, r)
    ensures r == Ok(exists k :: 0 <= k < |truth| && truth[k])
  {
    FoldIsDisjunction(datastores, groups, r);
    if k :| 0 <= k < |truth| && truth[k] {
      assert pre[k].datastore in groups;
    }
  }

  lemma DecisionOfGroups(datastores: map<string, Execute>, bodies: seq<seq<RExpr>>, pre: seq<PreprocessedQuery>,
                         processed: seq<QueryAst.Query>, truth: seq<bool>, groups: Groups,
                         r: Result<bool, TranslateError>)
    requires |pre| == |processed| == |truth| == |bodies|
    requires forall k :: 0 <= k < |pre| ==> pre[k].datastore in datastores
    requires forall ds :: ds in datastores ==> AnswersTruly(datastores[ds], ds, bodies, truth)
    requires forall k :: 0 <= k < |pre| ==> QueryFor(bodies, truth, pre[k].datastore, processed[k], truth[k])
    requires Partitioned(groups, pre, processed) && FoldOf(datastores, groups, r)
    ensures r == Ok(exists k :: 0 <= k < |truth| && truth[k])
  {
    hide QueryFor, AnswersTruly, FoldOf, OfDatastore;
    forall ds | ds in groups
      ensures Answers(datastores, groups, ds, exists k :: 0 <= k < |pre| && pre[k].datastore == ds && truth[k])
    {
      assert ds in (set k | 0 <= k < |pre| :: pre[k].datastore);
      GroupAnswers(datastores, bodies, ds, pre, processed, truth);
    }
    FoldMeans(datastores, groups, r, pre, truth);
  }

  /** For accepted bodies and datastores that answer truly, the translator reports no error, and allow exactly
      when some body is true, in whatever order the datastores are asked. */
  lemma DecisionIsDisjunction(datastores: map<string, Execute>, skipUnknown: bool, pool: seq<string>, qs: seq<Body>,
                              bodies: seq<seq<RExpr>>, truth: seq<bool>, r: Result<bool, TranslateError>)
    requires "" !in pool && |qs| == |bodies| == |truth|
    requires forall k :: 0 <= k < |qs| ==> Accepts(pool, qs[k], bodies[k]) && HomeOf(bodies[k]) in datastores
    requires forall ds :: ds in datastores ==> AnswersTruly(datastores[ds], ds, bodies, truth)
    requires Reports(datastores, skipUnknown, qs, pool, r)
    ensures r == Ok(exists k :: 0 <= k < |truth| && truth[k])
  {
    hide Accepts, HomeOf, AnswersTruly, TransformQueries, Translatable, Partitioned, FoldOf, BuiltFrom, CompiledBody;
    AcceptedAreTranslatable(pool, qs, bodies, skipUnknown);
    AcceptedAreCompiled(pool, qs, bodies);
    var pre := TransformQueries(pool, qs).value;
    assert Decides(datastores, pre, r);
    var processed, groups :| AllBuiltFrom(processed, pre) && Partitioned(groups, pre, processed)
                             && FoldOf(datastores, groups, r);
    forall k | 0 <= k < |pre| ensures QueryFor(bodies, truth, pre[k].datastore, processed[k], truth[k]) {
      assert pre[k] == PreprocessedQuery(CompiledBody(bodies[k]), HomeOf(bodies[k]));
      assert BuiltFrom(processed[k], CompiledBody(bodies[k]));
    }
    DecisionOfGroups(datastores, bodies, pre, processed, truth, groups, r);
  }
}
