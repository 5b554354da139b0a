/** From queries to the answer of a MongoDB datastore: regrouping by collection, the texts that the translator
    returns, and the executor's rule (internal/pkg/data/mongo-datastore-executor.go). */
module MongoDecisions {
  import opened Results
  import opened Tokens
  import opened QueryAst
  import opened Templates
  import opened MongoTranslator
  import opened MongoMarkers
  import opened MongoDirect
  import opened MongoEntities
  import opened MongoMeaning
  import opened JsonText
  import EntityConfig

  // ---------------------------------------------------------------- regrouping

  type Collections = string -> seq<Document>

  predicate AllQueriesCompare(qs: seq<Query>) {
    forall i :: 0 <= i < |qs| ==> AllComparisons(qs[i].clauses)
  }

  lemma CompareOn(collection: string, qs: seq<Query>)
    requires AllQueriesCompare(qs)
    ensures AllQueriesCompare(QueriesOn(collection, qs))
  {
  }

  /** A document matches one of the objects. */
  predicate SomeObjectMatches(r: Reading, doc: Document, objects: seq<seq<Field>>) {
    exists k :: 0 <= k < |objects| && ObjectMatches(r, doc, objects[k])
  }

  /** The objects of a collection's filter, in order. */
  function ObjectsOf(path: string -> string, qs: seq<Query>): (r: seq<seq<Field>>)
    requires AllQueriesCompare(qs)
    ensures |r| == |qs| && forall k :: 0 <= k < |qs| ==> r[k] == FieldsOf(path, qs[k].clauses)
  {
    seq(|qs|, k requires 0 <= k < |qs| => FieldsOf(path, qs[k].clauses))
  }

  /** Some document of the collection matches its combined filter. */
  ghost predicate CollectionMatches(r: Reading, docs: Collections, paths: EntityConfig.Paths, qs: seq<Query>, c: string)
    requires AllQueriesCompare(qs)
  {
    CompareOn(c, qs);
    exists d :: 0 <= d < |docs(c)| && SomeObjectMatches(r, docs(c)[d], ObjectsOf(PathOf(paths, c), QueriesOn(c, qs)))
  }

  /** Some document of the query's collection matches the query's own object. */
  predicate QueryMatches(r: Reading, docs: Collections, paths: EntityConfig.Paths, q: Query)
    requires AllComparisons(q.clauses)
  {
    exists d :: 0 <= d < |docs(q.from)| && ObjectMatches(r, docs(q.from)[d], FieldsOf(PathOf(paths, q.from), q.clauses))
  }

  /** Some document of the query's collection satisfies all of its conditions. */
  predicate QuerySatisfied(r: Reading, docs: Collections, paths: EntityConfig.Paths, q: Query)
    requires AllComparisons(q.clauses)
  {
    exists d :: 0 <= d < |docs(q.from)| && ConditionsHold(r, docs(q.from)[d], PathOf(paths, q.from), q.clauses)
  }

  /** Regrouping keeps the matches: some collection has a document that matches its combined filter exactly
      when some query has a document that matches the query's own object. */
  lemma RegroupingKeepsMatches(r: Reading, docs: Collections, paths: EntityConfig.Paths, qs: seq<Query>)
    requires AllQueriesCompare(qs)
    ensures (exists c :: CollectionMatches(r, docs, paths, qs, c)) <==>
            (exists i :: 0 <= i < |qs| && QueryMatches(r, docs, paths, qs[i]))
  {
    hide ObjectMatches, PathOf, FieldsOf;
    if c :| CollectionMatches(r, docs, paths, qs, c) {
      CompareOn(c, qs);
      var chosen := QueriesOn(c, qs);
      var objects := ObjectsOf(PathOf(paths, c), chosen);
      var d :| 0 <= d < |docs(c)| && SomeObjectMatches(r, docs(c)[d], objects);
      var k :| 0 <= k < |objects| && ObjectMatches(r, docs(c)[d], objects[k]);
      assert chosen[k] in chosen;
      var i :| 0 <= i < |qs| && qs[i] == chosen[k];
      assert QueryMatches(r, docs, paths, qs[i]);
    }
    if i :| 0 <= i < |qs| && QueryMatches(r, docs, paths, qs[i]) {
      QueryMatchesInCollection(r, docs, paths, qs, i);
    }
  }

  lemma QueryMatchesInCollection(r: Reading, docs: Collections, paths: EntityConfig.Paths, qs: seq<Query>, i: nat)
    requires AllQueriesCompare(qs) && i < |qs| && QueryMatches(r, docs, paths, qs[i])
    ensures CollectionMatches(r, docs, paths, qs, qs[i].from)
  {
    hide ObjectMatches, PathOf, FieldsOf;
    var c := qs[i].from;
    CompareOn(c, qs);
    var chosen := QueriesOn(c, qs);
    var objects := ObjectsOf(PathOf(paths, c), chosen);
    assert qs[i] in chosen;
    var k :| 0 <= k < |chosen| && chosen[k] == qs[i];
    var d :| 0 <= d < |docs(c)| && ObjectMatches(r, docs(c)[d], FieldsOf(PathOf(paths, c), qs[i].clauses));
    assert ObjectMatches(r, docs(c)[d], objects[k]);
    assert SomeObjectMatches(r, docs(c)[d], objects);
  }

  predicate Keepable(symmetric: set<string>, paths: EntityConfig.Paths, q: Query)
    requires AllComparisons(q.clauses)
  {
    Unambiguous(symmetric, PathOf(paths, q.from), q.clauses)
  }

  lemma KeptQueryMatches(symmetric: set<string>, r: Reading, docs: Collections, paths: EntityConfig.Paths, q: Query)
    requires AllComparisons(q.clauses) && Keepable(symmetric, paths, q) && Symmetric(r, symmetric)
    ensures QueryMatches(r, docs, paths, q) <==> QuerySatisfied(r, docs, paths, q)
  {
    hide ObjectMatches, ConditionsHold, Symmetric, Unambiguous, PathOf;
    forall d | 0 <= d < |docs(q.from)|
      ensures ObjectMatches(r, docs(q.from)[d], FieldsOf(PathOf(paths, q.from), q.clauses)) <==>
              ConditionsHold(r, docs(q.from)[d], PathOf(paths, q.from), q.clauses)
    {
      KeptWhenUnambiguous(symmetric, PathOf(paths, q.from), q.clauses, r, docs(q.from)[d]);
    }
  }

  /** Where all filters keep the meaning of their conditions, regrouping keeps the decision. */
  lemma RegroupingKeepsDecision(symmetric: set<string>, r: Reading, docs: Collections, paths: EntityConfig.Paths,
                                qs: seq<Query>)
    requires AllQueriesCompare(qs) && Symmetric(r, symmetric)
    requires forall i :: 0 <= i < |qs| ==> Keepable(symmetric, paths, qs[i])
    ensures (exists c :: CollectionMatches(r, docs, paths, qs, c)) <==>
            (exists i :: 0 <= i < |qs| && QuerySatisfied(r, docs, paths, qs[i]))
  {
    hide QueryMatches, QuerySatisfied, CollectionMatches, Symmetric, Keepable, AllComparisons;
    RegroupingKeepsMatches(r, docs, paths, qs);
    forall i | 0 <= i < |qs| ensures QueryMatches(r, docs, paths, qs[i]) <==> QuerySatisfied(r, docs, paths, qs[i]) {
      KeptQueryMatches(symmetric, r, docs, paths, qs[i]);
    }
  }

  // ---------------------------------------------------------------- the texts

  predicate AllBinary(ts: TemplateTable, qs: seq<Query>) {
    forall i :: 0 <= i < |qs| ==> BinaryTemplates(ts, qs[i].clauses)
  }

  /** The objects of a collection's filter, as text. */
  function ObjectTexts(ts: TemplateTable, path: string -> string, qs: seq<Query>): (r: seq<string>)
    requires SafeTemplates(ts) && AllQueriesCompare(qs) && AllBinary(ts, qs)
    ensures |r| == |qs|
    ensures forall i :: 0 <= i < |qs| ==> r[i] == ObjectText(ts, path, qs[i])
  {
    seq(|qs|, i requires 0 <= i < |qs| => ObjectText(ts, path, qs[i]))
  }

  function ObjectText(ts: TemplateTable, path: string -> string, q: Query): string
    requires SafeTemplates(ts) && AllComparisons(q.clauses) && BinaryTemplates(ts, q.clauses)
  {
    "{" + Join(FieldTexts(ts, FieldsOf(path, q.clauses)), ", ") + "}"
  }

  /** Every collection that some query starts from has one filter: the disjunction of its queries'
      objects, in order. */
  ghost predicate ObjectResult(ts: TemplateTable, paths: EntityConfig.Paths, qs: seq<Query>,
                               result: map<string, string>)
    requires SafeTemplates(ts)
  {
    && (forall c :: c in result <==> exists i :: 0 <= i < |qs| && qs[i].from == c)
    && (forall c :: c in result ==>
          && AllQueriesCompare(QueriesOn(c, qs)) && AllBinary(ts, QueriesOn(c, qs))
          && result[c] == CombinedFilter(ObjectTexts(ts, PathOf(paths, c), QueriesOn(c, qs))))
  }

  predicate Conditional(qs: seq<Query>) {
    forall i :: 0 <= i < |qs| ==> qs[i].clauses != []
  }

  lemma ObjectsArePrinted(ts: TemplateTable, path: string -> string, qs: seq<Query>, collection: string)
    requires SafeTemplates(ts) && AllQueriesCompare(qs) && AllBinary(ts, qs) && Conditional(qs)
    ensures var chosen := QueriesOn(collection, qs);
            && AllQueriesCompare(chosen) && AllBinary(ts, chosen) && QueriesFit(ts, chosen)
            && DirectFilters(ts, path, chosen) == ObjectTexts(ts, path, chosen)
  {
    hide SafeTemplates, DirectFilter, ObjectText, AllComparisons, BinaryTemplates, AllFit;
    var chosen := QueriesOn(collection, qs);
    forall i | 0 <= i < |chosen|
      ensures AllComparisons(chosen[i].clauses) && BinaryTemplates(ts, chosen[i].clauses)
          && AllFit(ts, chosen[i].clauses)
      ensures DirectFilter(ts, path, chosen[i]) == ObjectText(ts, path, chosen[i])
    {
      assert chosen[i] in chosen;
      ObjectIsPrinted(ts, path, chosen[i]);
    }
  }

  lemma ObjectIsPrinted(ts: TemplateTable, path: string -> string, q: Query)
    requires SafeTemplates(ts) && AllComparisons(q.clauses) && BinaryTemplates(ts, q.clauses) && q.clauses != []
    ensures AllFit(ts, q.clauses) && DirectFilter(ts, path, q) == ObjectText(ts, path, q)
  {
    FilterIsPrintedFields(ts, path, q);
    assert FieldTexts(ts, FieldsOf(path, q.clauses)) != [];
  }

  lemma ObjectsOfResult(ts: TemplateTable, paths: EntityConfig.Paths, qs: seq<Query>, result: map<string, string>)
    requires SafeTemplates(ts) && AllQueriesCompare(qs) && AllBinary(ts, qs) && Conditional(qs)
    requires QueriesFit(ts, qs) && DirectResult(ts, paths, qs, result)
    ensures ObjectResult(ts, paths, qs, result)
  {
    hide SafeTemplates, AllQueriesCompare, AllBinary, Conditional, QueriesOn, CombinedFilter, PathOf, ObjectTexts,
      DirectFilters, QueriesFit;
    forall c | c in result
      ensures AllQueriesCompare(QueriesOn(c, qs)) && AllBinary(ts, QueriesOn(c, qs))
      ensures result[c] == CombinedFilter(ObjectTexts(ts, PathOf(paths, c), QueriesOn(c, qs)))
    {
      ObjectsArePrinted(ts, PathOf(paths, c), qs, c);
    }
  }

  // ---------------------------------------------------------------- running filters

  /** How the executor reads the text of a filter: the members of the objects under `$or`. */
  type FilterParser = string -> Option<seq<seq<Field>>>

  /** The filters of all collections are read and run; the answer is yes when some count is above zero. */
  ghost function RunFilters(parse: FilterParser, r: Reading, docs: Collections, result: map<string, string>):
    Option<bool>
  {
    if exists c :: c in result && parse(result[c]).None? then None
    else Some(exists c :: c in result && Finds(r, docs(c), parse(result[c])))
  }

  predicate Finds(r: Reading, docs: seq<Document>, objects: Option<seq<seq<Field>>>) {
    objects.Some? && exists d :: 0 <= d < |docs| && SomeObjectMatches(r, docs[d], objects.value)
  }

  /** The keys and text constants of a query's filter stand between quotes as they are. */
  predicate Quotable(path: string -> string, q: Query)
    requires AllComparisons(q.clauses)
  {
    forall i :: 0 <= i < |q.clauses| ==>
      var f := FieldsOf(path, q.clauses)[i];
      PlainText(f.key) && (f.constant.isNumeric || PlainText(f.constant.value))
  }

  predicate AllQuotable(path: string -> string, qs: seq<Query>)
    requires AllQueriesCompare(qs)
  {
    forall i :: 0 <= i < |qs| ==> Quotable(path, qs[i])
  }

  /** A list of objects matches the same documents as another. */
  ghost predicate SameMatches(r: Reading, a: seq<seq<Field>>, b: seq<seq<Field>>) {
    forall doc :: SomeObjectMatches(r, doc, a) <==> SomeObjectMatches(r, doc, b)
  }

  /** The executor reads the text of these objects with their meaning. */
  ghost predicate ReadsFilterAs(ts: TemplateTable, parse: FilterParser, r: Reading, path: string -> string,
                                qs: seq<Query>)
  {
    SafeTemplates(ts) && AllQueriesCompare(qs) && AllBinary(ts, qs) && Conditional(qs) && AllQuotable(path, qs) ==>
      var objects := parse(CombinedFilter(ObjectTexts(ts, path, qs)));
      objects.Some? && SameMatches(r, objects.value, ObjectsOf(path, qs))
  }

  ghost predicate ReadsFiltersAs(ts: TemplateTable, parse: FilterParser, r: Reading, paths: EntityConfig.Paths,
                                 qs: seq<Query>)
  {
    forall c :: ReadsFilterAs(ts, parse, r, PathOf(paths, c), QueriesOn(c, qs))
  }

  predicate QuotableQueries(paths: EntityConfig.Paths, qs: seq<Query>)
    requires AllQueriesCompare(qs)
  {
    forall i :: 0 <= i < |qs| ==> Quotable(PathOf(paths, qs[i].from), qs[i])
  }

  lemma QuotableOn(paths: EntityConfig.Paths, c: string, qs: seq<Query>)
    requires AllQueriesCompare(qs) && QuotableQueries(paths, qs)
    ensures AllQueriesCompare(QueriesOn(c, qs)) && AllQuotable(PathOf(paths, c), QueriesOn(c, qs))
  {
    hide Quotable, AllComparisons, PathOf;
    CompareOn(c, qs);
    forall k | 0 <= k < |QueriesOn(c, qs)| ensures Quotable(PathOf(paths, c), QueriesOn(c, qs)[k]) {
      assert QueriesOn(c, qs)[k] in QueriesOn(c, qs);
    }
  }

  lemma ConditionalOn(c: string, qs: seq<Query>)
    requires Conditional(qs)
    ensures Conditional(QueriesOn(c, qs))
  {
    forall k | 0 <= k < |QueriesOn(c, qs)| ensures QueriesOn(c, qs)[k].clauses != [] {
      assert QueriesOn(c, qs)[k] in QueriesOn(c, qs);
    }
  }

  lemma ComparisonsAreCalls(qs: seq<Query>)
    requires AllQueriesCompare(qs)
    ensures AllCallClauses(qs)
  {
  }

  lemma TextsAreRead(ts: TemplateTable, parse: FilterParser, r: Reading, paths: EntityConfig.Paths, qs: seq<Query>,
                     result: map<string, string>, c: string)
    requires SafeTemplates(ts) && Conditional(qs) && AllQueriesCompare(qs) && QuotableQueries(paths, qs)
    requires ObjectResult(ts, paths, qs, result) && ReadsFiltersAs(ts, parse, r, paths, qs) && c in result
    ensures AllQueriesCompare(QueriesOn(c, qs)) && parse(result[c]).Some?
    ensures SameMatches(r, parse(result[c]).value, ObjectsOf(PathOf(paths, c), QueriesOn(c, qs)))
  {
    hide SafeTemplates, ObjectTexts, CombinedFilter, PathOf, QueriesOn, ObjectsOf, AllBinary, SameMatches, AllQuotable;
    ConditionalOn(c, qs);
    QuotableOn(paths, c, qs);
    assert ReadsFilterAs(ts, parse, r, PathOf(paths, c), QueriesOn(c, qs));
  }

  lemma FindingIsMatching(ts: TemplateTable, parse: FilterParser, r: Reading, docs: Collections,
                          paths: EntityConfig.Paths, qs: seq<Query>, result: map<string, string>, c: string)
    requires SafeTemplates(ts) && Conditional(qs) && AllQueriesCompare(qs) && QuotableQueries(paths, qs)
    requires ObjectResult(ts, paths, qs, result) && ReadsFiltersAs(ts, parse, r, paths, qs) && c in result
    ensures parse(result[c]).Some?
    ensures Finds(r, docs(c), parse(result[c])) <==> CollectionMatches(r, docs, paths, qs, c)
  {
    hide SafeTemplates, Conditional, ObjectResult, ReadsFiltersAs, SomeObjectMatches, ObjectsOf, PathOf, QueriesOn,
      QuotableQueries;
    TextsAreRead(ts, parse, r, paths, qs, result, c);
    CompareOn(c, qs);
  }

  lemma RunningIsMatching(ts: TemplateTable, parse: FilterParser, r: Reading, docs: Collections,
                          paths: EntityConfig.Paths, qs: seq<Query>, result: map<string, string>)
    requires SafeTemplates(ts) && Conditional(qs) && AllQueriesCompare(qs) && QuotableQueries(paths, qs)
    requires ObjectResult(ts, paths, qs, result) && ReadsFiltersAs(ts, parse, r, paths, qs)
    ensures RunFilters(parse, r, docs, result) == Some(exists c :: CollectionMatches(r, docs, paths, qs, c))
  {
    hide SafeTemplates, Conditional, AllQueriesCompare, ObjectResult, ReadsFiltersAs, Finds, CollectionMatches,
      QuotableQueries;
    forall c | c in result
      ensures parse(result[c]).Some? && (Finds(r, docs(c), parse(result[c])) <==>
                                         CollectionMatches(r, docs, paths, qs, c))
    {
      FindingIsMatching(ts, parse, r, docs, paths, qs, result, c);
    }
    forall c | CollectionMatches(r, docs, paths, qs, c) ensures c in result {
      MatchedCollectionIsUsed(r, docs, paths, qs, c);
      UsedIsInResult(ts, paths, qs, result, c);
    }
  }

  lemma UsedIsInResult(ts: TemplateTable, paths: EntityConfig.Paths, qs: seq<Query>, result: map<string, string>,
                       c: string)
    requires SafeTemplates(ts) && ObjectResult(ts, paths, qs, result)
    requires exists i :: 0 <= i < |qs| && qs[i].from == c
    ensures c in result
  {
  }

  lemma MatchedCollectionIsUsed(r: Reading, docs: Collections, paths: EntityConfig.Paths, qs: seq<Query>, c: string)
    requires AllQueriesCompare(qs) && CollectionMatches(r, docs, paths, qs, c)
    ensures exists i :: 0 <= i < |qs| && qs[i].from == c
  {
    CompareOn(c, qs);
    var chosen := QueriesOn(c, qs);
    assert |ObjectsOf(PathOf(paths, c), chosen)| > 0;
    assert chosen[0] in chosen;
  }

  /** Every entity of the conditions is the collection itself or has a path below it. */
  predicate EntitiesHavePaths(paths: EntityConfig.Paths, q: Query) {
    forall e :: e in EntitiesOfAll(q.clauses) ==> PathPrefix(paths, q.from, e).Ok?
  }

  /** Comparisons of entities with paths are always translated. */
  lemma ComparisonsAreTranslated(cfg: Config, ts: TemplateTable, qs: seq<Query>,
                                 r: Result<map<string, string>, MongoError>)
    requires cfg.callOps == CompiledOperands(ts) && SafeTemplates(ts) && UsesEveryOperand(ts) && SafeQueries(qs)
    requires AllQueriesCompare(qs) && AllBinary(ts, qs)
    requires forall i :: 0 <= i < |qs| ==> EntitiesHavePaths(cfg.entityPaths, qs[i])
    requires Translated(cfg, qs, r)
    ensures r.Ok? && QueriesFit(ts, qs) && DirectResult(ts, cfg.entityPaths, qs, r.value)
  {
    hide SafeTemplates, UsesEveryOperand, SafeQueries, Translated, DirectResult, CompiledOperands, AllComparisons,
      BinaryTemplates, Reaches, AllFit, PathPrefix;
    forall i | 0 <= i < |qs| ensures AllFit(ts, qs[i].clauses) && Reaches(ts, cfg.entityPaths, qs[i]) {
      FilterIsPrintedFields(ts, PathOf(cfg.entityPaths, qs[i].from), qs[i]);
      ReachesExactly(ts, cfg.entityPaths, qs[i]);
    }
    ComparisonsAreCalls(qs);
    TranslationIsDirect(cfg, ts, qs, r);
  }

  /** The MongoDB path as a whole: comparisons of entities with paths are translated, the returned texts are
      disjunctions of objects, one per query, and where the executor reads them with their meaning, running
      them tells whether some document satisfies the conditions of some query. */
  lemma TranslationKeepsDecision(cfg: Config, ts: TemplateTable, symmetric: set<string>, parse: FilterParser,
                                 reading: Reading, docs: Collections, qs: seq<Query>,
                                 r: Result<map<string, string>, MongoError>)
    requires cfg.callOps == CompiledOperands(ts) && SafeTemplates(ts) && UsesEveryOperand(ts) && SafeQueries(qs)
    requires AllQueriesCompare(qs) && AllBinary(ts, qs) && Conditional(qs) && QuotableQueries(cfg.entityPaths, qs)
    requires forall i :: 0 <= i < |qs| ==> EntitiesHavePaths(cfg.entityPaths, qs[i])
    requires ReadsFiltersAs(ts, parse, reading, cfg.entityPaths, qs)
    requires Symmetric(reading, symmetric)
    requires forall i :: 0 <= i < |qs| ==> Keepable(symmetric, cfg.entityPaths, qs[i])
    requires Translated(cfg, qs, r)
    ensures r.Ok? && ObjectResult(ts, cfg.entityPaths, qs, r.value)
    ensures RunFilters(parse, reading, docs, r.value) ==
            Some(exists i :: 0 <= i < |qs| && QuerySatisfied(reading, docs, cfg.entityPaths, qs[i]))
  {
    hide SafeTemplates, UsesEveryOperand, SafeQueries, AllBinary, Translated, DirectResult, CompiledOperands,
      QuerySatisfied, Keepable, Symmetric, QueriesFit, CollectionMatches, ObjectResult, ReadsFiltersAs, RunFilters,
      QuotableQueries, EntitiesHavePaths;
    ComparisonsAreTranslated(cfg, ts, qs, r);
    ObjectsOfResult(ts, cfg.entityPaths, qs, r.value);
    RunningIsMatching(ts, parse, reading, docs, cfg.entityPaths, qs, r.value);
    RegroupingKeepsDecision(symmetric, reading, docs, cfg.entityPaths, qs);
  }
}
