/** Policies whose conditions compare columns and constants: what a database makes of their statements is no
    hypothesis any more. */
module FlatPolicies {
  import opened Results
  import opened Tokens
  import opened QueryAst
  import opened RegoAst
  import opened RegoMeaning
  import opened Meaning
  import opened Templates
  import opened SqlTranslator
  import opened SqlStructure
  import opened SqlPositions
  import opened SqlMeaning
  import opened SqlExecutor
  import opened SqlTexts
  import opened SqlWords
  import opened SqlReader
  import opened SqlReading
  import opened Processor
  import opened Decisions
  import SqlDecisions
  import opened PolicyMeaning
  import opened PolicyLimits
  import opened EndToEnd

  /** Operators that are written alike mean the same. */
  ghost predicate Alike(i: Interpretation, templates: TemplateTable) {
    forall o, p, args :: o in templates && p in templates && templates[o] == templates[p] ==>
      i.apply(o, args) == i.apply(p, args)
  }

  lemma CanonicalValue(setup: Setup, named: map<string, string>, i: Interpretation, db: SqlDatabase,
                       values: seq<string>, keys: string -> Value, e: SqlExpr)
    requires NamesSymbols(setup.templates, named) && Comparing(setup.templates, e) && Alike(i, setup.templates)
    ensures var c := Canonical(setup.templates, named, e);
            && ExprValue(i, Arities(setup.templates), db, values, keys, c) ==
               ExprValue(i, Arities(setup.templates), db, values, keys, e)
            && ColumnTables(c) == ColumnTables(e)
  {
    hide SymbolOf;
    var op := named[SymbolOf(setup.templates[e.op])];
    assert op in setup.templates && setup.templates[op] == setup.templates[e.op];
    var args := ExprValues(i, Arities(setup.templates), db, values, keys, e.args);
    assert i.apply(op, args) == i.apply(e.op, args);
    assert |args| == 2 && i.apply(op, args[..1]) == i.apply(e.op, args[..1]);
  }

  lemma {:induction false} CanonicalValues(setup: Setup, named: map<string, string>, i: Interpretation, db: SqlDatabase,
                                           values: seq<string>, keys: string -> Value, es: seq<SqlExpr>)
    requires NamesSymbols(setup.templates, named) && AllComparing(setup.templates, es) && Alike(i, setup.templates)
    ensures var cs := AllCanonical(setup.templates, named, es);
            && ExprValues(i, Arities(setup.templates), db, values, keys, cs) ==
               ExprValues(i, Arities(setup.templates), db, values, keys, es)
            && AllColumnTables(cs) == AllColumnTables(es)
  {
    hide NamesSymbols, Comparing, Alike, ExprValue, ColumnTables, Canonical, Arities;
    if es != [] {
      var cs := AllCanonical(setup.templates, named, es);
      assert cs[0] == Canonical(setup.templates, named, es[0])
             && cs[1..] == AllCanonical(setup.templates, named, es[1..]);
      CanonicalValue(setup, named, i, db, values, keys, es[0]);
      CanonicalValues(setup, named, i, db, values, keys, es[1..]);
    }
  }

  lemma CanonicalSelectMeans(setup: Setup, named: map<string, string>, i: Interpretation, db: SqlDatabase,
                             values: seq<string>, s: Select)
    requires NamesSymbols(setup.templates, named) && AllComparing(setup.templates, s.where) && Alike(i, setup.templates)
    ensures SelectMeaning(i, Arities(setup.templates), db, values, CanonicalSelect(setup.templates, named, s)) ==
            SelectMeaning(i, Arities(setup.templates), db, values, s)
  {
    var c := CanonicalSelect(setup.templates, named, s);
    var arity := Arities(setup.templates);
    hide NamesSymbols, AllComparing, Alike, Arities, AllCanonical;
    forall keys: string -> Value
      ensures RowCounts(i, arity, db, values, keys, c) == RowCounts(i, arity, db, values, keys, s)
    {
      CanonicalValues(setup, named, i, db, values, keys, s.where);
    }
    CanonicalValues(setup, named, i, db, values, (t: string) => Undefined, s.where);
  }

  lemma {:induction false} CanonicalIndex(templates: TemplateTable, named: map<string, string>, selects: seq<Select>,
                                          k: nat)
    requires k < |selects|
    ensures CanonicalSelects(templates, named, selects)[k] == CanonicalSelect(templates, named, selects[k])
  {
    if k > 0 {
      CanonicalIndex(templates, named, selects[1..], k - 1);
    }
  }

  lemma CanonicalMeansTheSame(setup: Setup, named: map<string, string>, i: Interpretation, selects: seq<Select>)
    requires NamesSymbols(setup.templates, named) && AllSelectsCompare(setup.templates, selects)
    requires Alike(i, setup.templates)
    ensures SameMeaning(setup, i, CanonicalSelects(setup.templates, named, selects), selects)
  {
    var arity := Arities(setup.templates);
    var cs := CanonicalSelects(setup.templates, named, selects);
    hide NamesSymbols, AllComparing, Alike, SelectMeaning, CanonicalSelect, CanonicalSelects, Arities;
    forall db, values
      ensures UnionMeaning(i, arity, db, values, cs) == UnionMeaning(i, arity, db, values, selects)
    {
      forall k | 0 <= k < |selects|
        ensures SelectMeaning(i, arity, db, values, cs[k]) == SelectMeaning(i, arity, db, values, selects[k])
      {
        CanonicalIndex(setup.templates, named, selects, k);
        CanonicalSelectMeans(setup, named, i, db, values, selects[k]);
      }
    }
  }

  /** The reader of SqlReader reads every statement over flat queries with its meaning. */
  lemma FlatStatementsAreRead(setup: Setup, named: map<string, string>, i: Interpretation, qs: seq<Query>)
    requires NamesSymbols(setup.templates, named) && FlatQueries(setup, qs) && Alike(i, setup.templates)
    ensures ReadsAs(setup, Reader(setup.platform, named), i, LowerUnion(setup, qs, 0))
  {
    hide *;
    if qs == [] {
      NothingIsLowered(setup);
      NothingIsMeant(setup, named, i);
    } else {
      StatementIsRead(setup, named, qs, 0);
      ReadIsMeant(setup, named, i, LowerUnion(setup, qs, 0));
    }
  }

  lemma NothingIsLowered(setup: Setup)
    ensures LowerUnion(setup, [], 0) == []
  {
  }

  lemma NothingIsMeant(setup: Setup, named: map<string, string>, i: Interpretation)
    ensures ReadsAs(setup, Reader(setup.platform, named), i, [])
  {
    hide UnionMeaning, ReadSelects, Words, NumberedAsRead;
    assert PrintUnion(setup.templates, []) == [];
    assert Fill(Placeholders(setup.platform), []) == "";
  }

  lemma ReadIsMeant(setup: Setup, named: map<string, string>, i: Interpretation, selects: seq<Select>)
    requires NamesSymbols(setup.templates, named) && Alike(i, setup.templates) && IsRead(setup, named, selects, 1)
    ensures ReadsAs(setup, Reader(setup.platform, named), i, selects)
  {
    hide NamesSymbols, Alike, AllSelectsCompare, SameMeaning, StatementWords, SpaceFree, ReadSelects, Words, PrintUnion,
      PrintableSelects, NumberedAsRead, Placeholders, CanonicalSelects;
    StatementTextIsWords(setup, selects);
    CanonicalMeansTheSame(setup, named, i, selects);
    WordsOfJoin(StatementWords(setup, selects));
    WordsOfNothing();
    ReadNothing(setup.platform, named);
  }

  lemma WordsOfNothing()
    ensures Words("") == [""]
  {
  }

  lemma ReadNothing(platform: Platform, named: map<string, string>)
    ensures ReadSelects(platform, named, 1, [""]) == None
  {
  }

  lemma OneFlatQuery(setup: Setup, query: Query)
    requires FlatQuery(setup, query)
    ensures FlatQueries(setup, [query])
  {
  }

  // ---------------------------------------------------------------- no template is in the way

  lemma FlatClauseIsReadable(setup: Setup, o: Operand)
    requires FlatClause(setup, o)
    ensures UsesSound(setup.templates, o) && Aligned(setup.templates, o)
  {
    var t := setup.templates[o.op];
    InfixIsSound(SymbolOf(t));
    hide Pieces, Symbol, SymbolOf, Infix;
    var a, b := o.args[0], o.args[1];
    assert o.args == [a, b] && o.args[1..] == [b] && [b][1..] == [];
    assert AllUseSound(setup.templates, [b]) && AllAligned(setup.templates, [b]);
    assert AllUseSound(setup.templates, o.args) && AllAligned(setup.templates, o.args);
    BothInOrder(t, Widths(o.args));
  }

  lemma BothInOrder(t: Template, widths: seq<nat>)
    requires t.argsCount == 2 && Holes(Pieces(t.mapping)) == [0, 1]
    ensures KeepsOrder(t, widths)
  {
    var holes := [0, 1];
    assert holes[0] == 0 && holes[1] == 1;
  }

  lemma {:induction false} FlatClausesAreReadable(setup: Setup, os: seq<Operand>)
    requires FlatClauses(setup, os)
    ensures AllUseSound(setup.templates, os) && AllAligned(setup.templates, os)
    decreases |os|
  {
    hide FlatClause, UsesSound, Aligned;
    if os != [] {
      assert FlatClause(setup, os[0]);
      FlatClauseIsReadable(setup, os[0]);
      FlatClausesAreReadable(setup, os[1..]);
    }
  }

  /** Infix templates are sound and print their operands in order. */
  lemma FlatIsReadable(setup: Setup, q: Query)
    requires FlatQuery(setup, q)
    ensures Readable(setup, [q])
  {
    hide FlatClauses, AllUseSound, AllAligned;
    FlatClausesAreReadable(setup, q.clauses);
  }

  lemma FlatIsCompiled(setup: Setup, pool: seq<string>, q: Body, body: seq<RExpr>, query: Query)
    requires "" !in pool && CompilesTo(pool, q, body, query) && StoredApart(setup, body, query)
    requires FlatQuery(setup, query)
    ensures Compiled(setup, pool, q, body, query)
  {
    hide CompilesTo, StoredApart, Readable, FlatQuery;
    FlatIsReadable(setup, query);
  }

  lemma ApartIsStoredApart(setup: Setup, body: seq<RExpr>, query: Query)
    requires DistinctTables(setup, BodyTableSet(body))
    ensures StoredApart(setup, body, query)
  {
    hide TableOf, BodyTableSet;
  }

  // ---------------------------------------------------------------- the hypothesis is met

  /** For a faithful body over flat comparisons, the text the translator returns is answered with the truth of the
      body. Nothing is asked of the database but to read the words of the statement. */
  lemma FlatPoliciesAreAnswered(setup: Setup, named: map<string, string>, pool: seq<string>, q: Body,
                                body: seq<RExpr>, query: Query, i: Interpretation, db: SqlDatabase)
    requires "" !in pool && CompilesTo(pool, q, body, query) && DistinctTables(setup, BodyTableSet(body))
    requires RenderableQuery(setup, query) && Faithful(body, CompiledBody(body))
    requires NamesSymbols(setup.templates, named) && FlatQuery(setup, query) && Alike(i, setup.templates)
    ensures Answer(setup, Reader(setup.platform, named), i, db, [query]) == Ok(PolicyTrue(setup, i, db, body))
  {
    ApartIsStoredApart(setup, body, query);
    hide *;
    FlatIsCompiled(setup, pool, q, body, query);
    OneFlatQuery(setup, query);
    FlatStatementsAreRead(setup, named, i, [query]);
    FaithfulKeepsMeaning(setup, Reader(setup.platform, named), pool, q, body, query, i, db);
  }

  /** The same as an equivalence: without any one of the conditions, some database tells body and answer apart. */
  lemma FlatPoliciesKeepMeaningExactly(setup: Setup, named: map<string, string>, pool: seq<string>, q: Body,
                                       body: seq<RExpr>, query: Query)
    requires "" !in pool && CompilesTo(pool, q, body, query) && StoredApart(setup, body, query)
    requires NamesSymbols(setup.templates, named) && FlatQuery(setup, query)
    ensures (forall i, db :: Alike(i, setup.templates) ==>
               Answer(setup, Reader(setup.platform, named), i, db, [query]) == Ok(PolicyTrue(setup, i, db, body)))
            <==>
            && RenderableQuery(setup, query)
            && DistinctTables(setup, BodyTableSet(body))
            && Faithful(body, CompiledBody(body))
  {
    FlatIsCompiled(setup, pool, q, body, query);
    OneFlatQuery(setup, query);
    PermissiveIsAlike(setup.templates);
    hide Compiled, CompilesTo, StoredApart, Readable, RenderableQuery, DistinctTables, Faithful, NamesSymbols,
      FlatQuery, FlatQueries, Answer, PolicyTrue, Alike, ReadsAs, Reader;
    FlatStatementsAreRead(setup, named, PERMISSIVE, [query]);
    if
      && RenderableQuery(setup, query)
      && DistinctTables(setup, BodyTableSet(body))
      && Faithful(body, CompiledBody(body))
    {
      forall i, db | Alike(i, setup.templates)
        ensures Answer(setup, Reader(setup.platform, named), i, db, [query]) == Ok(PolicyTrue(setup, i, db, body))
      {
        FlatPoliciesAreAnswered(setup, named, pool, q, body, query, i, db);
      }
    }
    if forall i, db :: Alike(i, setup.templates) ==>
         Answer(setup, Reader(setup.platform, named), i, db, [query]) == Ok(PolicyTrue(setup, i, db, body))
    {
      assert AgreesPermissively(setup, Reader(setup.platform, named), body, query);
      KeptMeaningNeedsFaithfulness(setup, Reader(setup.platform, named), pool, q, body, query);
    }
  }

  lemma PermissiveIsAlike(templates: TemplateTable)
    ensures Alike(PERMISSIVE, templates)
  {
  }

  // ---------------------------------------------------------------- several bodies

  /** The clauses of the body's query are comparisons, and its names are plain. */
  ghost predicate FlatBody(setup: Setup, body: seq<RExpr>) {
    && FlatClauses(setup, ClausesOf(body))
    && forall t :: t in BodyTables(CompiledBody(body)) ==> PlainTable(TableOf(setup, t))
  }

  lemma {:induction false} SharedTablesOccur(q: Body)
    ensures SharedTables(q) <= Elements(BodyTables(q))
  {
    if q != [] {
      SharedTablesOccur(q[1..]);
    }
  }

  lemma BuiltIsFlat(setup: Setup, body: seq<RExpr>, query: Query)
    requires FlatBody(setup, body) && BuiltFrom(query, CompiledBody(body))
    ensures FlatQuery(setup, query)
  {
    hide FlatClauses, PlainTable, TableOf, CompiledBody, Clauses, BodyTables, SharedTables;
    SharedTablesOccur(CompiledBody(body));
    forall i | 0 <= i < |query.link| ensures PlainTable(TableOf(setup, query.link[i])) {
      assert query.link[i] in Elements(query.link);
    }
  }

  /** A database that reads the words of its statements understands all statements over the queries of flat
      bodies. */
  lemma FlatBodiesAreUnderstood(store: SqlDecisions.SqlStore, named: map<string, string>, i: Interpretation,
                                bodies: seq<seq<RExpr>>, ds: string)
    requires store.parse == Reader(store.setup.platform, named) && NamesSymbols(store.setup.templates, named)
    requires Alike(i, store.setup.templates)
    requires forall k :: 0 <= k < |bodies| && HomeOf(bodies[k]) == ds ==> FlatBody(store.setup, bodies[k])
    ensures SqlDecisions.Understands(store, i, bodies, ds)
  {
    hide FlatBody, HomeOf, BuiltFrom, CompiledBody, FlatQuery, NamesSymbols, Alike, ReadsAs, LowerUnion, Reader;
    forall qs | QueriesOf(bodies, ds, qs) ensures ReadsAs(store.setup, store.parse, i, LowerUnion(store.setup, qs, 0)) {
      forall k | 0 <= k < |qs| ensures FlatQuery(store.setup, qs[k]) {
        var j :| 0 <= j < |bodies| && HomeOf(bodies[j]) == ds && BuiltFrom(qs[k], CompiledBody(bodies[j]));
        BuiltIsFlat(store.setup, bodies[j], qs[k]);
      }
      FlatStatementsAreRead(store.setup, named, i, qs);
    }
  }
}
