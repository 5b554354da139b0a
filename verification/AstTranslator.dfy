/** Grouping of queries by datastore and the fold of the datastores' answers
    (internal/pkg/translate/default-translator.go). */
module AstTranslator {
  import opened Results
  import QueryAst
  import opened RegoAst
  import opened Preprocessor
  import opened Processor

  datatype TranslateError =
    | PreprocessFailed(preprocessing: PreprocessError)
    | ProcessFailed(processing: ProcessError)
    | UnknownDatastore(name: string)
    | ExecuteFailed(message: string)

  /** How a datastore answers a union of queries. */
  type Execute = seq<QueryAst.Query> -> Result<bool, string>

  type Groups = map<string, seq<QueryAst.Query>>

  // ---------------------------------------------------------------- specification

  /** What belongs to the queries of one datastore, in their original order. */
  function OfDatastore<T>(datastore: string, pre: seq<PreprocessedQuery>, items: seq<T>): seq<T>
    requires |pre| == |items|
  {
    if pre == [] then []
    else
      OfDatastore(datastore, pre[..|pre| - 1], items[..|pre| - 1])
      + if pre[|pre| - 1].datastore == datastore then [items[|pre| - 1]] else []
  }

  /** Every query is in the group of its datastore and nowhere else. */
  ghost predicate Partitioned(groups: Groups, pre: seq<PreprocessedQuery>, queries: seq<QueryAst.Query>)
    requires |pre| == |queries|
  {
    && groups.Keys == (set i | 0 <= i < |pre| :: pre[i].datastore)
    && forall ds :: ds in groups ==> groups[ds] == OfDatastore(ds, pre, queries)
  }

  ghost predicate AllBuiltFrom(queries: seq<QueryAst.Query>, pre: seq<PreprocessedQuery>) {
    |queries| == |pre| && forall i :: 0 <= i < |pre| ==> BuiltFrom(queries[i], pre[i].query)
  }

  /** What the processor complains about. */
  function ProcessingError(q: Body): ProcessError {
    if BodyTables(q) == [] then NoEntity else InvalidRequestTranslation(BodyErrors(q))
  }

  predicate Translatable(skipUnknown: bool, q: Body) {
    BodyTables(q) != [] && (skipUnknown || BodyErrors(q) == [])
  }

  predicate Answers(datastores: map<string, Execute>, groups: Groups, ds: string, answer: bool) {
    ds in groups && ds in datastores && datastores[ds](groups[ds]) == Ok(answer)
  }

  predicate Fails(datastores: map<string, Execute>, groups: Groups, ds: string) {
    ds in groups && (ds !in datastores || datastores[ds](groups[ds]).Err?)
  }

  predicate FailsWith(datastores: map<string, Execute>, groups: Groups, ds: string, e: TranslateError) {
    ds in groups &&
    if ds !in datastores then e == UnknownDatastore(ds)
    else datastores[ds](groups[ds]).Err? && e == ExecuteFailed(datastores[ds](groups[ds]).error)
  }

  /** What any visiting order of the datastores may report. */
  ghost predicate FoldOf(datastores: map<string, Execute>, groups: Groups, r: Result<bool, TranslateError>) {
    match r
    case Ok(true) => exists ds :: Answers(datastores, groups, ds, true)
    case Ok(false) => forall ds :: ds in groups ==> Answers(datastores, groups, ds, false)
    case Err(e) => exists ds :: FailsWith(datastores, groups, ds, e)
  }

  /** What may be reported for preprocessed queries: the answers of the datastores to the groups of the
      queries built from them. */
  ghost predicate Decides(datastores: map<string, Execute>, pre: seq<PreprocessedQuery>,
                          r: Result<bool, TranslateError>)
  {
    exists queries, groups ::
      AllBuiltFrom(queries, pre) && Partitioned(groups, pre, queries) && FoldOf(datastores, groups, r)
  }

  /** What may be reported for a list of bodies: errors of preprocessing and of processing come before any
      datastore is asked. */
  ghost predicate Reports(datastores: map<string, Execute>, skipUnknown: bool, queries: seq<Body>, pool: seq<string>,
                          r: Result<bool, TranslateError>)
  {
    match TransformQueries(pool, queries)
    case Err(e) => r == Err(PreprocessFailed(e))
    case Ok(pre) =>
      if forall i :: 0 <= i < |pre| ==> Translatable(skipUnknown, pre[i].query)
      then Decides(datastores, pre, r)
      else exists k: nat :: FirstUntranslatable(skipUnknown, pre, k) && FailsToProcess(pre[k].query, r)
  }

  /** The k-th preprocessed query is the first one the processor refuses. */
  predicate FirstUntranslatable(skipUnknown: bool, pre: seq<PreprocessedQuery>, k: nat) {
    && k < |pre| && !Translatable(skipUnknown, pre[k].query)
    && forall j :: 0 <= j < k ==> Translatable(skipUnknown, pre[j].query)
  }

  predicate FailsToProcess(q: Body, r: Result<bool, TranslateError>) {
    r == Err(ProcessFailed(ProcessingError(q)))
  }

  // ---------------------------------------------------------------- the translator object

  class Translator {
    const datastores: map<string, Execute>
    const skipUnknown: bool

    constructor (datastores: map<string, Execute>, skipUnknown: bool)
      ensures this.datastores == datastores && this.skipUnknown == skipUnknown
    {
      this.datastores := datastores;
      this.skipUnknown := skipUnknown;
    }

    method Process(queries: seq<Body>, pool: seq<string>) returns (r: Result<bool, TranslateError>)
      ensures Reports(datastores, skipUnknown, queries, pool, r)
    {
      var preprocessor := new AstPreprocessor();
      var preprocessed := preprocessor.Process(queries, pool);
      if preprocessed.Err? {
        return Err(PreprocessFailed(preprocessed.error));
      }
      var datastoreSpecificQueries;
      ghost var processed;
      datastoreSpecificQueries, processed := GroupByDatastore(preprocessed.value);
      if datastoreSpecificQueries.Err? {
        return Err(ProcessFailed(datastoreSpecificQueries.error));
      }
      r := ExecuteAll(datastoreSpecificQueries.value);
    }

    /** A fresh processor for every query. */
    method ProcessOne(q: Body) returns (r: Result<QueryAst.Query, ProcessError>)
      ensures r.Ok? <==> Translatable(skipUnknown, q)
      ensures r.Ok? ==> BuiltFrom(r.value, q)
      ensures r.Err? ==> r.error == ProcessingError(q)
    {
      var processor := new AstProcessor(skipUnknown);
      r := processor.Process(q);
    }

    method GroupByDatastore(pre: seq<PreprocessedQuery>)
      returns (r: Result<Groups, ProcessError>, ghost processed: seq<QueryAst.Query>)
      ensures r.Ok? <==> forall i :: 0 <= i < |pre| ==> Translatable(skipUnknown, pre[i].query)
      ensures r.Ok? ==> AllBuiltFrom(processed, pre) && Partitioned(r.value, pre, processed)
      ensures r.Err? ==> exists k: nat ::
                FirstUntranslatable(skipUnknown, pre, k) && r.error == ProcessingError(pre[k].query)
    {
      processed := [];
      var datastoreSpecificQueries: Groups := map[];
      hide *;
      NothingGrouped(pre);
      for i := 0 to |pre|
        invariant forall j :: 0 <= j < i ==> Translatable(skipUnknown, pre[j].query)
        invariant |processed| == i && AllBuiltFrom(processed, pre[..i])
            && Partitioned(datastoreSpecificQueries, pre[..i], processed)
      {
        var one := ProcessOne(pre[i].query);
        if one.Err? {
          RefusedFirst(skipUnknown, pre, i);
          return Err(one.error), processed;
        }
        OneMore(datastoreSpecificQueries, pre, i, processed, one.value);
        datastoreSpecificQueries := Appended(datastoreSpecificQueries, pre[i].datastore, one.value);
        processed := processed + [one.value];
      }
      assert pre[..|pre|] == pre;
      return Ok(datastoreSpecificQueries), processed;
    }

    /** Stops at the first datastore that fails or says yes. */
    method ExecuteAll(groups: Groups) returns (r: Result<bool, TranslateError>)
      ensures FoldOf(datastores, groups, r)
    {
      var rest := groups.Keys;
      while rest != {}
        invariant rest <= groups.Keys
        invariant forall ds :: ds in groups && ds !in rest ==> Answers(datastores, groups, ds, false)
        decreases rest
      {
        var ds :| ds in rest;
        if ds !in datastores {
          assert FailsWith(datastores, groups, ds, UnknownDatastore(ds));
          return Err(UnknownDatastore(ds));
        }
        var res := datastores[ds](groups[ds]);
        if res.Err? {
          assert FailsWith(datastores, groups, ds, ExecuteFailed(res.error));
          return Err(ExecuteFailed(res.error));
        }
        if res.value {
          assert Answers(datastores, groups, ds, true);
          return Ok(true);
        }
        rest := rest - {ds};
      }
      return Ok(false);
    }
  }

  /** One more query for a datastore. */
  function Appended(groups: Groups, datastore: string, q: QueryAst.Query): Groups {
    groups[datastore := (if datastore in groups then groups[datastore] else []) + [q]]
  }

  lemma RefusedFirst(skipUnknown: bool, pre: seq<PreprocessedQuery>, k: nat)
    requires k < |pre| && !Translatable(skipUnknown, pre[k].query)
    requires forall j :: 0 <= j < k ==> Translatable(skipUnknown, pre[j].query)
    ensures FirstUntranslatable(skipUnknown, pre, k)
  {
  }

  lemma NothingGrouped(pre: seq<PreprocessedQuery>)
    ensures AllBuiltFrom([], pre[..0]) && Partitioned(map[], pre[..0], [])
  {
  }

  lemma OneMore(groups: Groups, pre: seq<PreprocessedQuery>, i: nat, queries: seq<QueryAst.Query>, q: QueryAst.Query)
    requires i < |pre| && |queries| == i && BuiltFrom(q, pre[i].query)
    requires AllBuiltFrom(queries, pre[..i]) && Partitioned(groups, pre[..i], queries)
    ensures AllBuiltFrom(queries + [q], pre[..i + 1])
    ensures Partitioned(Appended(groups, pre[i].datastore, q), pre[..i + 1], queries + [q])
  {
    hide Partitioned, BuiltFrom, Appended;
    PartitionGrows(groups, pre[..i], queries, pre[i], q);
    assert pre[..i + 1] == pre[..i] + [pre[i]];
  }

  lemma OfDatastoreSnoc<T>(datastore: string, pre: seq<PreprocessedQuery>, items: seq<T>, p: PreprocessedQuery, item: T)
    requires |pre| == |items|
    ensures OfDatastore(datastore, pre + [p], items + [item]) ==
            OfDatastore(datastore, pre, items) + if p.datastore == datastore then [item] else []
  {
    assert (pre + [p])[..|pre|] == pre && (items + [item])[..|pre|] == items;
  }

  lemma DatastoresSnoc(pre: seq<PreprocessedQuery>, p: PreprocessedQuery)
    ensures (set i | 0 <= i < |pre + [p]| :: (pre + [p])[i].datastore) ==
            (set i | 0 <= i < |pre| :: pre[i].datastore) + {p.datastore}
  {
    forall i | 0 <= i < |pre| ensures (pre + [p])[i] == pre[i] {
    }
    assert (pre + [p])[|pre|].datastore == p.datastore;
  }

  lemma PartitionGrows(groups: Groups, pre: seq<PreprocessedQuery>, queries: seq<QueryAst.Query>,
                       p: PreprocessedQuery, q: QueryAst.Query)
    requires |pre| == |queries| && Partitioned(groups, pre, queries)
    ensures Partitioned(Appended(groups, p.datastore, q), pre + [p], queries + [q])
  {
    hide OfDatastore;
    var grown := Appended(groups, p.datastore, q);
    DatastoresSnoc(pre, p);
    if p.datastore !in groups {
      NoneOfDatastore(p.datastore, pre, queries);
    }
    forall ds | ds in grown ensures grown[ds] == OfDatastore(ds, pre + [p], queries + [q]) {
      OfDatastoreSnoc(ds, pre, queries, p, q);
      assert OfDatastore(ds, pre, queries) + [] == OfDatastore(ds, pre, queries);
    }
  }

  lemma {:induction false} NoneOfDatastore(datastore: string, pre: seq<PreprocessedQuery>, queries: seq<QueryAst.Query>)
    requires |pre| == |queries|
    requires datastore !in (set i | 0 <= i < |pre| :: pre[i].datastore)
    ensures OfDatastore(datastore, pre, queries) == []
  {
    if pre != [] {
      var n := |pre| - 1;
      assert pre[n].datastore in (set i | 0 <= i < |pre| :: pre[i].datastore);
      forall i | 0 <= i < n ensures pre[..n][i].datastore != datastore {
        assert pre[i].datastore in (set k | 0 <= k < |pre| :: pre[k].datastore);
      }
      NoneOfDatastore(datastore, pre[..n], queries[..n]);
    }
  }

  /** Without failing datastores the answer is the disjunction of their answers, whatever the order; a
      negative answer is only given after every datastore has said no. */
  lemma FoldIsDisjunction(datastores: map<string, Execute>, groups: Groups, r: Result<bool, TranslateError>)
    requires FoldOf(datastores, groups, r)
    ensures r == Ok(false) <==> forall ds :: ds in groups ==> Answers(datastores, groups, ds, false)
    ensures r == Ok(true) ==> exists ds :: Answers(datastores, groups, ds, true)
    ensures r == Ok(false) ==> forall ds :: ds in groups ==> ds in datastores && datastores[ds](groups[ds]) == Ok(false)
    ensures r == Ok(true) ==> exists ds :: ds in groups && ds in datastores && datastores[ds](groups[ds]) == Ok(true)
    ensures r.Err? && r.error.UnknownDatastore? ==> r.error.name in groups && r.error.name !in datastores
    ensures (forall ds :: !Fails(datastores, groups, ds)) ==>
              r == Ok(exists ds :: Answers(datastores, groups, ds, true))
  {
    if r == Ok(true) {
      var ds :| Answers(datastores, groups, ds, true);
      assert datastores[ds](groups[ds]) == Ok(true);
    }
    if r.Err? {
      var ds :| FailsWith(datastores, groups, ds, r.error);
      assert Fails(datastores, groups, ds);
    }
  }

  /** The preprocessor accepts the query and the processor its result. */
  predicate Passes(skipUnknown: bool, pool: seq<string>, q: Body) {
    TransformQuery(pool, q).Ok? && Translatable(skipUnknown, TransformQuery(pool, q).value.query)
  }

  predicate AllPass(skipUnknown: bool, pool: seq<string>, queries: seq<Body>) {
    forall k :: 0 <= k < |queries| ==> Passes(skipUnknown, pool, queries[k])
  }

  predicate IsRefusal(r: Result<bool, TranslateError>) {
    r.Err? && (r.error.PreprocessFailed? || r.error.ProcessFailed?)
  }

  /** A single refused query makes the decision an error, whatever the others are: the error of the first query
      the preprocessor refuses, or else of the first one the processor refuses. Datastores are asked only when
      every query passes. */
  lemma RefusedQueryIsReported(datastores: map<string, Execute>, skipUnknown: bool, queries: seq<Body>,
                               pool: seq<string>, r: Result<bool, TranslateError>)
    requires Reports(datastores, skipUnknown, queries, pool, r)
    ensures IsRefusal(r) <==> !AllPass(skipUnknown, pool, queries)
    ensures forall k: nat, e :: FirstRefused(pool, queries, k, e) ==> r == Err(PreprocessFailed(e))
    ensures forall k: nat ::
              (k < |queries| && (forall j :: 0 <= j < |queries| ==> TransformQuery(pool, queries[j]).Ok?)
               && !Passes(skipUnknown, pool, queries[k])
               && (forall j :: 0 <= j < k ==> Passes(skipUnknown, pool, queries[j]))) ==>
                r == Err(ProcessFailed(ProcessingError(TransformQuery(pool, queries[k]).value.query)))
  {
    hide TransformQuery, TransformQueries, Translatable, ProcessingError, Decides;
    QueriesOneByOne(pool, queries);
    match TransformQueries(pool, queries)
    case Err(e) =>
      var k: nat :| FirstRefused(pool, queries, k, e);
      assert !Passes(skipUnknown, pool, queries[k]);
    case Ok(pre) =>
      assert forall k :: 0 <= k < |queries| ==>
        Passes(skipUnknown, pool, queries[k]) == Translatable(skipUnknown, pre[k].query);
      if forall i :: 0 <= i < |pre| ==> Translatable(skipUnknown, pre[i].query) {
        DecisionIsNoRefusal(datastores, pre, r);
      } else {
        var k: nat :| FirstUntranslatable(skipUnknown, pre, k) && FailsToProcess(pre[k].query, r);
        assert !Passes(skipUnknown, pool, queries[k]);
      }
  }

  lemma DecisionIsNoRefusal(datastores: map<string, Execute>, pre: seq<PreprocessedQuery>,
                            r: Result<bool, TranslateError>)
    requires Decides(datastores, pre, r)
    ensures !IsRefusal(r)
  {
    hide BuiltFrom, Partitioned;
    var queries, groups :|
      AllBuiltFrom(queries, pre) && Partitioned(groups, pre, queries) && FoldOf(datastores, groups, r);
  }

  /** An item is in the group of a datastore exactly when its query was preprocessed for it. */
  lemma {:induction false} GroupMembers<T>(datastore: string, pre: seq<PreprocessedQuery>, items: seq<T>, item: T)
    requires |pre| == |items|
    ensures item in OfDatastore(datastore, pre, items) <==>
            exists i :: 0 <= i < |pre| && pre[i].datastore == datastore && items[i] == item
  {
    if pre != [] {
      var n := |pre| - 1;
      GroupMembers(datastore, pre[..n], items[..n], item);
      assert forall i :: 0 <= i < n ==> pre[..n][i] == pre[i] && items[..n][i] == items[i];
    }
  }

  /** The places are all places of the datastore, from left to right. */
  ghost predicate PlacesOf(datastore: string, pre: seq<PreprocessedQuery>, places: seq<nat>) {
    && (forall k :: 0 <= k < |places| ==> places[k] < |pre| && pre[places[k]].datastore == datastore)
    && (forall k, l :: 0 <= k < l < |places| ==> places[k] < places[l])
    && (forall i: nat :: i < |pre| && pre[i].datastore == datastore ==> i in places)
  }

  /** The group of a datastore holds the items at its places, in their original order. */
  lemma {:induction false} GroupsKeepOrder<T>(datastore: string, pre: seq<PreprocessedQuery>, items: seq<T>)
    returns (places: seq<nat>)
    requires |pre| == |items|
    ensures PlacesOf(datastore, pre, places) && |OfDatastore(datastore, pre, items)| == |places|
    ensures forall k :: 0 <= k < |places| ==> OfDatastore(datastore, pre, items)[k] == items[places[k]]
  {
    places := [];
    if pre != [] {
      var n := |pre| - 1;
      var before := GroupsKeepOrder(datastore, pre[..n], items[..n]);
      OnePlaceMore(datastore, pre, before);
      places := before + if pre[n].datastore == datastore then [n] else [];
      hide PlacesOf;
      assert forall k :: 0 <= k < |before| ==> items[..n][before[k]] == items[before[k]];
    }
  }

  lemma OnePlaceMore(datastore: string, pre: seq<PreprocessedQuery>, before: seq<nat>)
    requires pre != [] && PlacesOf(datastore, pre[..|pre| - 1], before)
    ensures forall k :: 0 <= k < |before| ==> before[k] < |pre| - 1
    ensures PlacesOf(datastore, pre, before + if pre[|pre| - 1].datastore == datastore then [|pre| - 1] else [])
  {
    var n := |pre| - 1;
    assert forall k :: 0 <= k < |before| ==> pre[..n][before[k]] == pre[before[k]];
    assert forall i: nat :: i < n && pre[i].datastore == datastore ==> pre[..n][i].datastore == datastore;
  }

  /** Some position of the datastore holds both items. */
  ghost predicate FromOnePlace<S, T>(datastore: string, pre: seq<PreprocessedQuery>, a: seq<S>, b: seq<T>, x: S, y: T)
    requires |pre| == |a| == |b|
  {
    exists j :: 0 <= j < |pre| && pre[j].datastore == datastore && a[j] == x && b[j] == y
  }

  /** Groups of parallel lists are parallel. */
  lemma {:induction false} GroupsParallel<S, T>(datastore: string, pre: seq<PreprocessedQuery>, a: seq<S>, b: seq<T>)
    requires |pre| == |a| == |b|
    ensures |OfDatastore(datastore, pre, a)| == |OfDatastore(datastore, pre, b)|
    ensures forall k :: 0 <= k < |OfDatastore(datastore, pre, a)| ==>
              FromOnePlace(datastore, pre, a, b, OfDatastore(datastore, pre, a)[k], OfDatastore(datastore, pre, b)[k])
  {
    if pre != [] {
      var n := |pre| - 1;
      GroupsParallel(datastore, pre[..n], a[..n], b[..n]);
      var ga, gb := OfDatastore(datastore, pre[..n], a[..n]), OfDatastore(datastore, pre[..n], b[..n]);
      forall k | 0 <= k < |ga| ensures FromOnePlace(datastore, pre, a, b, ga[k], gb[k]) {
        assert FromOnePlace(datastore, pre[..n], a[..n], b[..n], ga[k], gb[k]);
        var j :| 0 <= j < n && pre[..n][j].datastore == datastore && a[..n][j] == ga[k] && b[..n][j] == gb[k];
        assert pre[j].datastore == datastore && a[j] == ga[k] && b[j] == gb[k];
      }
      if pre[n].datastore == datastore {
        assert FromOnePlace(datastore, pre, a, b, a[n], b[n]);
      }
    }
  }
}
