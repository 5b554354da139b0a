/** Policies over MongoDB whose conditions are comparisons by the shipped kinds of relations: what the executor
    makes of their filters is no hypothesis any more. */
module FlatFilters {
  import QueryAst
  import opened RegoMeaning
  import opened Meaning
  import opened Templates
  import MongoTranslator
  import opened MongoMarkers
  import opened MongoDirect
  import opened MongoMeaning
  import opened MongoDecisions
  import opened JsonText
  import opened FilterReader
  import opened FilterReading
  import opened Processor
  import opened EndToEnd
  import opened Decisions
  import MongoStores
  import MongoPolicy

  // ---------------------------------------------------------------- meaning

  /** Operators that are written alike relate the same values. */
  ghost predicate Alike(r: Reading, ts: TemplateTable) {
    forall o, p, x, y :: o in ts && p in ts && ts[o] == ts[p] ==> r.relates(o, x, y) == r.relates(p, x, y)
  }

  lemma {:induction false} CanonicalFieldAt(ts: TemplateTable, named: map<string, string>, fields: seq<Field>, k: nat)
    requires k < |fields|
    ensures CanonicalFields(ts, named, fields)[k] == CanonicalField(ts, named, fields[k])
  {
    if k > 0 {
      CanonicalFieldAt(ts, named, fields[1..], k - 1);
    }
  }

  lemma CanonicalInit(ts: TemplateTable, named: map<string, string>, fields: seq<Field>)
    requires fields != []
    ensures CanonicalFields(ts, named, fields)[..|fields| - 1] == CanonicalFields(ts, named, fields[..|fields| - 1])
  {
    hide CanonicalFields;
    forall k | 0 <= k < |fields| - 1
      ensures CanonicalFields(ts, named, fields)[k] == CanonicalFields(ts, named, fields[..|fields| - 1])[k]
    {
      CanonicalFieldAt(ts, named, fields, k);
      CanonicalFieldAt(ts, named, fields[..|fields| - 1], k);
    }
  }

  lemma {:induction false} CanonicalObject(ts: TemplateTable, named: map<string, string>, fields: seq<Field>)
    ensures ObjectOf(CanonicalFields(ts, named, fields)).Keys == ObjectOf(fields).Keys
    ensures forall key :: key in ObjectOf(fields) ==>
              ObjectOf(CanonicalFields(ts, named, fields))[key] == CanonicalField(ts, named, ObjectOf(fields)[key])
    decreases |fields|
  {
    if fields != [] {
      hide CanonicalFields;
      CanonicalInit(ts, named, fields);
      CanonicalFieldAt(ts, named, fields, |fields| - 1);
      CanonicalObject(ts, named, fields[..|fields| - 1]);
      assert CanonicalField(ts, named, fields[|fields| - 1]).key == fields[|fields| - 1].key;
    }
  }

  lemma CanonicalHolds(ts: TemplateTable, named: map<string, string>, r: Reading, doc: Document, f: Field)
    requires NamesRelations(ts, named) && PlainField(ts, f) && Alike(r, ts)
    ensures FieldHolds(r, doc, CanonicalField(ts, named, f)) == FieldHolds(r, doc, f)
  {
    hide MarkOf;
    var op := named[MarkOf(ts[f.op])];
    assert r.relates(op, doc(f.key), r.constant(f.constant)) == r.relates(f.op, doc(f.key), r.constant(f.constant));
  }

  lemma {:induction false} ObjectHoldsFields(fields: seq<Field>)
    ensures forall key :: key in ObjectOf(fields) ==> ObjectOf(fields)[key] in fields
  {
    if fields != [] {
      ObjectHoldsFields(fields[..|fields| - 1]);
    }
  }

  lemma CanonicalMatches(ts: TemplateTable, named: map<string, string>, r: Reading, doc: Document, fields: seq<Field>)
    requires NamesRelations(ts, named) && PlainFields(ts, fields) && Alike(r, ts)
    ensures ObjectMatches(r, doc, CanonicalFields(ts, named, fields)) == ObjectMatches(r, doc, fields)
  {
    hide NamesRelations, PlainField, Alike, FieldHolds, ObjectOf, CanonicalFields, CanonicalField;
    CanonicalObject(ts, named, fields);
    ObjectHoldsFields(fields);
    forall key | key in ObjectOf(fields)
      ensures FieldHolds(r, doc, CanonicalField(ts, named, ObjectOf(fields)[key])) ==
              FieldHolds(r, doc, ObjectOf(fields)[key])
    {
      var k :| 0 <= k < |fields| && fields[k] == ObjectOf(fields)[key];
      CanonicalHolds(ts, named, r, doc, fields[k]);
    }
  }

  lemma {:induction false} CanonicalObjectAt(ts: TemplateTable, named: map<string, string>, objects: seq<seq<Field>>,
                                             k: nat)
    requires k < |objects|
    ensures CanonicalObjects(ts, named, objects)[k] == CanonicalFields(ts, named, objects[k])
  {
    if k > 0 {
      CanonicalObjectAt(ts, named, objects[1..], k - 1);
    }
  }

  lemma CanonicalMatchTheSame(ts: TemplateTable, named: map<string, string>, r: Reading, objects: seq<seq<Field>>)
    requires NamesRelations(ts, named) && AllPlainFields(ts, objects) && Alike(r, ts)
    ensures SameMatches(r, CanonicalObjects(ts, named, objects), objects)
  {
    var canonical := CanonicalObjects(ts, named, objects);
    hide NamesRelations, PlainFields, Alike, ObjectMatches, CanonicalObjects;
    forall doc ensures SomeObjectMatches(r, doc, canonical) <==> SomeObjectMatches(r, doc, objects) {
      forall k | 0 <= k < |objects|
        ensures ObjectMatches(r, doc, canonical[k]) == ObjectMatches(r, doc, objects[k])
      {
        CanonicalObjectAt(ts, named, objects, k);
        CanonicalMatches(ts, named, r, doc, objects[k]);
      }
    }
  }

  // ---------------------------------------------------------------- the written texts

  /** The conditions of the query can be written and read: relations of the shipped kinds, paths and texts without
      escapes, numbers. */
  predicate PlainQuery(ts: TemplateTable, path: string -> string, q: QueryAst.Query)
    requires AllComparisons(q.clauses)
  {
    q.clauses != [] && PlainFields(ts, FieldsOf(path, q.clauses))
  }

  predicate PlainQueries(ts: TemplateTable, path: string -> string, qs: seq<QueryAst.Query>)
    requires AllQueriesCompare(qs)
  {
    forall k :: 0 <= k < |qs| ==> PlainQuery(ts, path, qs[k])
  }

  lemma {:induction false} MembersAreFields(ts: TemplateTable, fields: seq<Field>)
    requires SafeTemplates(ts) && PlainFields(ts, fields)
    ensures forall k :: 0 <= k < |fields| ==>
              fields[k].op in ts && ts[fields[k].op].argsCount == 2
              && MemberTexts(ts, fields)[k] == FieldText(ts[fields[k].op], fields[k])
    decreases |fields|
  {
    hide PlainText, PlainConstant, FieldText, MemberText, Pieces, MarkOf;
    if fields != [] {
      assert PlainField(ts, fields[0]) && SafeTemplate(ts[fields[0].op]);
      FieldIsMember(ts[fields[0].op], fields[0]);
      MembersAreFields(ts, fields[1..]);
    }
  }

  lemma ObjectIsWritten(ts: TemplateTable, path: string -> string, q: QueryAst.Query)
    requires SafeTemplates(ts) && AllComparisons(q.clauses) && BinaryTemplates(ts, q.clauses)
    requires PlainFields(ts, FieldsOf(path, q.clauses))
    ensures WrittenObject(ts, FieldsOf(path, q.clauses)) == ObjectText(ts, path, q)
  {
    var fields := FieldsOf(path, q.clauses);
    MembersAreFields(ts, fields);
    hide SafeTemplates, FieldText, MemberTexts, PlainFields;
    assert MemberTexts(ts, fields) == FieldTexts(ts, fields);
  }

  lemma {:induction false} WrittenObjectAt(ts: TemplateTable, objects: seq<seq<Field>>, k: nat)
    requires AllPlainFields(ts, objects) && k < |objects|
    ensures WrittenObjects(ts, objects)[k] == WrittenObject(ts, objects[k])
  {
    hide PlainFields, WrittenObject;
    if k > 0 {
      WrittenObjectAt(ts, objects[1..], k - 1);
    }
  }

  lemma ObjectsAreWritten(ts: TemplateTable, path: string -> string, qs: seq<QueryAst.Query>)
    requires SafeTemplates(ts) && AllQueriesCompare(qs) && AllBinary(ts, qs) && PlainQueries(ts, path, qs)
    ensures AllPlainFields(ts, ObjectsOf(path, qs))
    ensures WrittenObjects(ts, ObjectsOf(path, qs)) == ObjectTexts(ts, path, qs)
  {
    hide SafeTemplates, AllComparisons, BinaryTemplates, PlainFields, ObjectText, WrittenObject, WrittenObjects;
    var objects := ObjectsOf(path, qs);
    forall k | 0 <= k < |qs| ensures WrittenObjects(ts, objects)[k] == ObjectText(ts, path, qs[k]) {
      assert PlainQuery(ts, path, qs[k]);
      WrittenObjectAt(ts, objects, k);
      ObjectIsWritten(ts, path, qs[k]);
    }
  }

  /** The reader of FilterReader reads every filter of plain queries with its meaning. */
  lemma PlainFilterIsRead(ts: TemplateTable, named: map<string, string>, r: Reading, path: string -> string,
                          qs: seq<QueryAst.Query>)
    requires NamesRelations(ts, named) && Alike(r, ts)
    requires AllQueriesCompare(qs) && PlainQueries(ts, path, qs)
    ensures ReadsFilterAs(ts, Reader(named), r, path, qs)
  {
    hide NamesRelations, Alike, AllQueriesCompare, PlainQueries, AllQuotable, Conditional, SafeTemplates, AllBinary,
      ObjectsOf, ObjectTexts, MongoTranslator.CombinedFilter, SameMatches, AllPlainFields, Reader, WrittenObjects;
    if SafeTemplates(ts) && AllBinary(ts, qs) {
      ObjectsAreWritten(ts, path, qs);
      FilterIsRead(ts, named, ObjectsOf(path, qs));
      CanonicalMatchTheSame(ts, named, r, ObjectsOf(path, qs));
    }
  }

  // ---------------------------------------------------------------- several bodies

  /** The queries of the body are plain in its collection. */
  predicate PlainBody(store: MongoStores.MongoStore, body: seq<RExpr>) {
    var q := MongoStores.QueryShape(body);
    AllComparisons(q.clauses) && PlainQuery(store.templates, PathOf(store.cfg.entityPaths, q.from), q)
  }

  lemma BuiltIsPlain(store: MongoStores.MongoStore, body: seq<RExpr>, query: QueryAst.Query)
    requires PlainBody(store, body) && BuiltFrom(query, CompiledBody(body))
    ensures AllComparisons(query.clauses)
    ensures PlainQuery(store.templates, PathOf(store.cfg.entityPaths, query.from), query)
  {
    hide AllComparisons, PlainFields, PathOf;
  }

  lemma PlainOn(store: MongoStores.MongoStore, qs: seq<QueryAst.Query>, c: string)
    requires AllQueriesCompare(qs)
    requires forall k :: 0 <= k < |qs| ==>
               PlainQuery(store.templates, PathOf(store.cfg.entityPaths, qs[k].from), qs[k])
    ensures AllQueriesCompare(QueriesOn(c, qs))
    ensures PlainQueries(store.templates, PathOf(store.cfg.entityPaths, c), QueriesOn(c, qs))
  {
    hide AllComparisons, PlainQuery, PathOf;
    CompareOn(c, qs);
    forall k | 0 <= k < |QueriesOn(c, qs)|
      ensures PlainQuery(store.templates, PathOf(store.cfg.entityPaths, c), QueriesOn(c, qs)[k])
    {
      assert QueriesOn(c, qs)[k] in QueriesOn(c, qs);
    }
  }

  /** A MongoDB executor that reads its filters as JSON understands all filters over the queries of plain bodies. */
  lemma PlainBodiesAreUnderstood(store: MongoStores.MongoStore, named: map<string, string>, i: Interpretation,
                                 bodies: seq<seq<RExpr>>, ds: string)
    requires store.parse == Reader(named) && NamesRelations(store.templates, named)
    requires Alike(MongoPolicy.ReadingOf(i), store.templates)
    requires forall k :: 0 <= k < |bodies| && HomeOf(bodies[k]) == ds ==> PlainBody(store, bodies[k])
    ensures MongoStores.Understands(store, i, bodies, ds)
  {
    hide PlainBody, HomeOf, BuiltFrom, CompiledBody, PlainQuery, NamesRelations, Alike, ReadsFilterAs, Reader,
      AllComparisons, PathOf, PlainQueries, QueriesOn;
    forall qs: seq<QueryAst.Query> | QueriesOf(bodies, ds, qs)
      ensures ReadsFiltersAs(store.templates, store.parse, MongoPolicy.ReadingOf(i), store.cfg.entityPaths, qs)
    {
      forall k | 0 <= k < |qs|
        ensures AllComparisons(qs[k].clauses)
        ensures PlainQuery(store.templates, PathOf(store.cfg.entityPaths, qs[k].from), qs[k])
      {
        var j :| 0 <= j < |bodies| && HomeOf(bodies[j]) == ds && BuiltFrom(qs[k], CompiledBody(bodies[j]));
        BuiltIsPlain(store, bodies[j], qs[k]);
      }
      forall c: string
        ensures ReadsFilterAs(store.templates, store.parse, MongoPolicy.ReadingOf(i), PathOf(store.cfg.entityPaths, c),
                              QueriesOn(c, qs))
      {
        PlainOn(store, qs, c);
        PlainFilterIsRead(store.templates, named, MongoPolicy.ReadingOf(i), PathOf(store.cfg.entityPaths, c),
                          QueriesOn(c, qs));
      }
    }
  }
}
