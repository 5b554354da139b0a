/** Running a statement: the text the translator returns, what the database makes of it, and the executor's
    rule (internal/pkg/data/sql-datastore-executor.go). */
module SqlExecutor {
  import opened Results
  import opened Tokens
  import opened QueryAst
  import opened Meaning
  import opened SqlTranslator
  import opened SqlStructure
  import opened SqlPositions
  import opened SqlMeaning

  /** How a database parses the text of a statement. A Param(k) in what it finds is the placeholder `$k` on
      Postgres and the k-th `?` on MySQL. */
  type Parser = string -> Option<seq<Select>>

  datatype Failure = NotTranslated(cause: SqlError) | Rejected

  /** The executor's rule: yes when some row of the union counts more than zero. */
  ghost function UnionMeaning(i: Interpretation, arity: string -> nat, db: SqlDatabase, values: seq<string>,
                              selects: seq<Select>): Option<bool>
  {
    if forall k :: 0 <= k < |selects| ==> SelectMeaning(i, arity, db, values, selects[k]).Some?
    then Some(exists k :: 0 <= k < |selects| && SelectMeaning(i, arity, db, values, selects[k]) == Some(true))
    else None
  }

  /** A datastore's answer to a union: the translator's text is parsed and run with the translator's
      values. */
  ghost function Answer(setup: Setup, parse: Parser, i: Interpretation, db: SqlDatabase, qs: seq<Query>):
    Result<bool, Failure>
  {
    match Run(ConfigOf(setup), INITIAL, WalkUnion(qs))
    case Err(e) => Err(NotTranslated(e))
    case Ok(s) => RunStatement(setup, parse, i, db, Join(s.query, ""), s.values)
  }

  ghost function RunStatement(setup: Setup, parse: Parser, i: Interpretation, db: SqlDatabase, text: string,
                              values: seq<string>): Result<bool, Failure>
  {
    match parse(text)
    case None => Err(Rejected)
    case Some(selects) => Accepted(UnionMeaning(i, Arities(setup.templates), db, values, selects))
  }

  function Accepted(answer: Option<bool>): Result<bool, Failure> {
    match answer case None => Err(Rejected) case Some(b) => Ok(b)
  }

  /** Placeholders mean what the printed numbers say: always on Postgres, and on MySQL where they are
      numbered by their position. */
  predicate NumberedAsRead(platform: Platform, text: seq<Token<nat>>) {
    platform.Mysql? ==> Gaps(text) == Range(1, |Gaps(text)|)
  }

  /** The text of these SELECTs, where its placeholders are read as they are numbered. */
  function StatementText(setup: Setup, selects: seq<Select>): Option<string> {
    if PrintableSelects(setup.templates, selects)
       && NumberedAsRead(setup.platform, PrintUnion(setup.templates, selects))
    then Some(Fill(Placeholders(setup.platform), PrintUnion(setup.templates, selects)))
    else None
  }

  /** The database reads the text of these SELECTs with their meaning, whatever tree it makes of it. */
  ghost predicate ReadsAs(setup: Setup, parse: Parser, i: Interpretation, selects: seq<Select>) {
    var text := StatementText(setup, selects);
    text.Some? ==> parse(text.value).Some? && SameMeaning(setup, i, parse(text.value).value, selects)
  }

  /** The SELECTs are accepted on the same databases and answered alike. */
  ghost predicate SameMeaning(setup: Setup, i: Interpretation, a: seq<Select>, b: seq<Select>) {
    forall db, values :: UnionMeaning(i, Arities(setup.templates), db, values, a) ==
                         UnionMeaning(i, Arities(setup.templates), db, values, b)
  }

  /** Queries whose text the database can read: their operators have sound templates, and where placeholders
      carry no number, no call prints parameters out of order. */
  predicate Readable(setup: Setup, qs: seq<Query>) {
    && SoundQueries(setup.templates, qs)
    && (setup.platform.Mysql? ==> AlignedQueries(setup.templates, qs))
  }

  /** The answer of a datastore whose database reads the statement with its meaning. The translator fails
      exactly on unknown entities and unfitting operators; otherwise the answer is that of the structured
      SELECTs, or a rejection where these leave their scope. */
  lemma AnswerIsMeaning(setup: Setup, parse: Parser, i: Interpretation, db: SqlDatabase, qs: seq<Query>)
    requires AllCallClauses(qs) && Readable(setup, qs) && ReadsAs(setup, parse, i, LowerUnion(setup, qs, 0))
    ensures RenderableUnion(setup, qs) ==>
              Answer(setup, parse, i, db, qs) ==
              Accepted(UnionMeaning(i, Arities(setup.templates), db, UnionValues(qs), LowerUnion(setup, qs, 0)))
    ensures !RenderableUnion(setup, qs) <==>
            Answer(setup, parse, i, db, qs).Err? && Answer(setup, parse, i, db, qs).error.NotTranslated?
  {
    hide Run, RenderableUnion, UnionMeaning, SoundQueries, AlignedQueries, LowerUnion, PrintUnion, PrintableSelects,
      Gaps, Range;
    StatementIsPrintedStructure(setup, qs);
    if RenderableUnion(setup, qs) {
      PositionalStatementAligned(setup, qs);
      var text := PrintUnion(setup.templates, LowerUnion(setup, qs, 0));
      assert NumberedAsRead(setup.platform, text) by {
        RangeLength(1, |UnionValues(qs)|);
      }
    }
  }
}
