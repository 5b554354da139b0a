/** When the clauses of a compiled body mean what the body means. */
module PolicyMeaning {
  import QueryAst
  import opened RegoAst
  import opened RegoMeaning
  import opened Meaning
  import opened PreprocessorTheorems
  import opened Processor
  import opened ProcessorTheorems
  import opened SqlMeaning

  /** A storage name for every table, and the tables by storage name. */
  function Stored(name: string -> string, db: SqlDatabase): (r: string -> Table)
    ensures forall t :: r(t) == db(name(t))
  {
    (t: string) => db(name(t))
  }

  function StoredDatabase(name: string -> string, db: SqlDatabase): (r: Database)
    ensures forall ds, t :: r(ds, t) == db(name(t))
  {
    (ds: string, t: string) => db(name(t))
  }

  // ---------------------------------------------------------------- shape of read terms

  predicate Closed(ts: seq<RTerm>)
    decreases ts, 0
  {
    ts == [] || (ClosedTerm(ts[0]) && Closed(ts[1..]))
  }

  /** No local variable anywhere in the term. */
  predicate ClosedTerm(t: RTerm)
    decreases t, 1
  {
    !t.RLocal? && (t.RCall? ==> Closed(t.args))
  }

  /** Local variables occur as direct operands only. */
  predicate DirectLocals(ts: seq<RTerm>) {
    forall i :: 0 <= i < |ts| ==> ts[i].RLocal? || ClosedTerm(ts[i])
  }

  predicate BodyDirectLocals(body: seq<RExpr>) {
    forall i :: 0 <= i < |body| ==> DirectLocals(body[i].args)
  }

  lemma {:induction false} ReadTermShape(b: Bindings, t: Term, direct: bool)
    requires ReadTerm(b, t, direct).Some?
    ensures var r := ReadTerm(b, t, direct).value.1;
            (direct && r.RLocal?) || ClosedTerm(r)
    decreases t, 1
  {
    if t.Builtin? {
      ReadTermsShape(b, t.args, false);
    }
  }

  lemma {:induction false} ReadTermsShape(b: Bindings, ts: seq<Term>, direct: bool)
    requires ReadTerms(b, ts, direct).Some?
    ensures DirectLocals(ReadTerms(b, ts, direct).value.1)
    ensures !direct ==> Closed(ReadTerms(b, ts, direct).value.1)
    decreases ts, 0
  {
    if ts != [] {
      ReadTermShape(b, ts[0], direct);
      var b1 := ReadTerm(b, ts[0], direct).value.0;
      ReadTermsShape(b1, ts[1..], direct);
      var rs := ReadTerms(b, ts, direct).value.1;
      assert rs[1..] == ReadTerms(b1, ts[1..], direct).value.1;
      assert forall i :: 0 < i < |rs| ==> rs[i] == rs[1..][i - 1];
    }
  }

  lemma {:induction false} ReadBodyShape(b: Bindings, q: Body)
    requires ReadBody(b, q).Some?
    ensures BodyDirectLocals(ReadBody(b, q).value)
    decreases |q|
  {
    if q != [] {
      ReadTermsShape(b, q[0].args, true);
      var b1 := ReadTerms(b, q[0].args, true).value.0;
      ReadBodyShape(b1, q[1..]);
      var body := ReadBody(b, q).value;
      assert body[1..] == ReadBody(b1, q[1..]).value;
      assert forall i :: 0 < i < |body| ==> body[i] == body[1..][i - 1];
    }
  }

  // ---------------------------------------------------------------- processing reports no errors

  lemma {:induction false} ClosedTermHasNoErrors(t: RTerm)
    requires ClosedTerm(t)
    ensures TermErrors(Strip(t)) == []
    decreases t, 1
  {
    if t.RCall? {
      ClosedTermsHaveNoErrors(t.args);
    }
  }

  lemma {:induction false} ClosedTermsHaveNoErrors(ts: seq<RTerm>)
    requires Closed(ts)
    ensures TermsErrors(StripAll(ts)) == []
    decreases ts, 0
  {
    if ts != [] {
      ClosedTermHasNoErrors(ts[0]);
      ClosedTermsHaveNoErrors(ts[1..]);
      assert StripAll(ts)[1..] == StripAll(ts[1..]);
    }
  }

  lemma {:induction false} InlinedIsClosed(locals: Locals, ts: seq<RTerm>)
    requires DirectLocals(ts) && Declared(locals.Keys, ts)
    requires forall v :: v in locals ==> locals[v].RColumn?
    ensures Closed(InlineTerms(locals, ts))
  {
    if ts != [] {
      assert forall i :: 0 <= i < |ts[1..]| ==> ts[1..][i] == ts[i + 1];
      InlinedIsClosed(locals, ts[1..]);
    }
  }

  /** The processor finds nothing unknown in a preprocessed body of the language. */
  lemma {:induction false} CompiledHasNoErrors(body: seq<RExpr>, locals: Locals)
    requires BodyDirectLocals(body) && DeclaredFirst(body, locals.Keys)
    requires forall v :: v in locals ==> locals[v].RColumn?
    ensures BodyErrors(StripBody(Inline(body, locals))) == []
    decreases |body|
  {
    if body != [] {
      assert forall i :: 0 <= i < |body[1..]| ==> body[1..][i] == body[i + 1];
      var after := LocalsAfter(body[0], locals);
      assert body[0].IsDeclaration() ==> after.Keys == locals.Keys + {body[0].args[0].name};
      assert !body[0].IsDeclaration() ==> Declared(locals.Keys, body[0].args) && DirectLocals(body[0].args);
      hide DeclaredFirst, BodyDirectLocals, DirectLocals, Declared, TermsErrors, InlineTerms, StripAll;
      CompiledHasNoErrors(body[1..], after);
      var rest := Inline(body[1..], after);
      if body[0].IsDeclaration() {
        assert [] + rest == rest;
      } else {
        InlinedIsClosed(locals, body[0].args);
        ClosedTermsHaveNoErrors(InlineTerms(locals, body[0].args));
        assert ([RExpr(false, body[0].op, InlineTerms(locals, body[0].args))] + rest)[1..] == rest;
      }
    }
  }

  // ---------------------------------------------------------------- corresponding assignments

  /** An assignment and a choice of rows agree on all iterators and on all declared local variables. */
  ghost predicate Corresponds(db: Database, tables: string -> Table, env: string -> Value, keys: string -> Value,
                              columns: set<RTerm>, declarations: set<(string, RTerm)>)
    requires forall c :: c in columns ==> c.RColumn?
    requires forall d :: d in declarations ==> d.1.RColumn?
  {
    && (forall c :: c in columns ==> db(c.datastore, c.table) == tables(c.table) && env(c.iter) == keys(c.table))
    && (forall d :: d in declarations ==> env(d.0) == Cell(tables(d.1.table), keys(d.1.table), d.1.column))
  }

  lemma {:induction false} TermCorresponds(
    i: Interpretation, arity: string -> nat, db: Database, tables: string -> Table,
    env: string -> Value, keys: string -> Value, columns: set<RTerm>, declarations: set<(string, RTerm)>, t: RTerm)
    requires forall c :: c in columns ==> c.RColumn?
    requires forall d :: d in declarations ==> d.1.RColumn?
    requires Corresponds(db, tables, env, keys, columns, declarations)
    requires ClosedTerm(t) && TermColumns(t) <= columns
    ensures |TermOperands(Strip(t))| == 1
    ensures OperandValue(i, arity, tables, keys, TermOperands(Strip(t))[0]) == TermValue(i, arity, db, env, t)
    decreases t, 1
  {
    match t
    case RConst(_) =>
    case RColumn(ds, table, iter, column) =>
      assert t in TermColumns(t);
    case RCall(op, args) =>
      TermsCorrespond(i, arity, db, tables, env, keys, columns, declarations, args);
  }

  lemma {:induction false} TermsCorrespond(
    i: Interpretation, arity: string -> nat, db: Database, tables: string -> Table,
    env: string -> Value, keys: string -> Value, columns: set<RTerm>, declarations: set<(string, RTerm)>,
        ts: seq<RTerm>)
    requires forall c :: c in columns ==> c.RColumn?
    requires forall d :: d in declarations ==> d.1.RColumn?
    requires Corresponds(db, tables, env, keys, columns, declarations)
    requires Closed(ts) && TermsColumns(ts) <= columns
    ensures OperandValues(i, arity, tables, keys, TermsOperands(StripAll(ts))) == TermsValues(i, arity, db, env, ts)
    decreases ts, 0
  {
    if ts != [] {
      TermCorresponds(i, arity, db, tables, env, keys, columns, declarations, ts[0]);
      TermsCorrespond(i, arity, db, tables, env, keys, columns, declarations, ts[1..]);
      assert StripAll(ts)[0] == Strip(ts[0]) && StripAll(ts)[1..] == StripAll(ts[1..]);
      OperandValuesCons(i, arity, tables, keys, TermOperands(Strip(ts[0])), TermsOperands(StripAll(ts[1..])));
    }
  }

  lemma OperandValuesCons(i: Interpretation, arity: string -> nat, tables: string -> Table, keys: string -> Value,
                          first: seq<QueryAst.Operand>, rest: seq<QueryAst.Operand>)
    requires |first| == 1
    ensures OperandValues(i, arity, tables, keys, first + rest) ==
            [OperandValue(i, arity, tables, keys, first[0])] + OperandValues(i, arity, tables, keys, rest)
  {
  }

  ghost predicate LocalsDeclared(locals: Locals, declarations: set<(string, RTerm)>) {
    forall v :: v in locals ==> (v, locals[v]) in declarations
  }

  lemma NoOperands(i: Interpretation, arity: string -> nat, db: Database, tables: string -> Table,
                   env: string -> Value, keys: string -> Value)
    ensures OperandValues(i, arity, tables, keys, []) == [] && TermsValues(i, arity, db, env, []) == []
  {
  }

  lemma TermsValuesCons(i: Interpretation, arity: string -> nat, db: Database, env: string -> Value, ts: seq<RTerm>)
    requires ts != []
    ensures TermsValues(i, arity, db, env, ts) ==
            [TermValue(i, arity, db, env, ts[0])] + TermsValues(i, arity, db, env, ts[1..])
  {
  }

  lemma ArgumentCorresponds(
    i: Interpretation, arity: string -> nat, db: Database, tables: string -> Table,
    env: string -> Value, keys: string -> Value, columns: set<RTerm>, declarations: set<(string, RTerm)>,
    locals: Locals, t: RTerm)
    requires forall c :: c in columns ==> c.RColumn?
    requires forall d :: d in declarations ==> d.1.RColumn?
    requires Corresponds(db, tables, env, keys, columns, declarations) && LocalsDeclared(locals, declarations)
    requires if t.RLocal? then t.name in locals else ClosedTerm(t) && TermColumns(t) <= columns
    ensures |TermOperands(Strip(InlineTerm(locals, t)))| == 1
    ensures OperandValue(i, arity, tables, keys, TermOperands(Strip(InlineTerm(locals, t)))[0]) ==
            TermValue(i, arity, db, env, t)
  {
    if t.RLocal? {
      assert (t.name, InlineTerm(locals, t)) in declarations;
    } else {
      TermCorresponds(i, arity, db, tables, env, keys, columns, declarations, t);
    }
  }

  /** Direct operands, with local variables replaced by their columns, keep their values. */
  lemma {:induction false} ArgumentsCorrespond(
    i: Interpretation, arity: string -> nat, db: Database, tables: string -> Table,
    env: string -> Value, keys: string -> Value, columns: set<RTerm>, declarations: set<(string, RTerm)>,
    locals: Locals, ts: seq<RTerm>)
    requires forall c :: c in columns ==> c.RColumn?
    requires forall d :: d in declarations ==> d.1.RColumn?
    requires Corresponds(db, tables, env, keys, columns, declarations) && LocalsDeclared(locals, declarations)
    requires DirectLocals(ts) && Declared(locals.Keys, ts) && TermsColumns(ts) <= columns
    ensures OperandValues(i, arity, tables, keys, TermsOperands(StripAll(InlineTerms(locals, ts)))) ==
            TermsValues(i, arity, db, env, ts)
    decreases |ts|
  {
    hide Corresponds, LocalsDeclared, OperandValues, TermsValues;
    if ts == [] {
      NoOperands(i, arity, db, tables, env, keys);
    } else {
      var inlined := InlineTerms(locals, ts);
      assert inlined[0] == InlineTerm(locals, ts[0]) && inlined[1..] == InlineTerms(locals, ts[1..]);
      assert StripAll(inlined)[0] == Strip(inlined[0]) && StripAll(inlined)[1..] == StripAll(inlined[1..]);
      assert forall k :: 0 < k < |ts| ==> ts[k] == ts[1..][k - 1];
      assert forall k :: 0 <= k < |ts[1..]| ==> ts[1..][k] == ts[k + 1];
      ArgumentsCorrespond(i, arity, db, tables, env, keys, columns, declarations, locals, ts[1..]);
      ArgumentCorresponds(i, arity, db, tables, env, keys, columns, declarations, locals, ts[0]);
      OperandValuesCons(i, arity, tables, keys, TermOperands(Strip(inlined[0])), TermsOperands(StripAll(inlined[1..])));
      TermsValuesCons(i, arity, db, env, ts);
    }
  }

  // ---------------------------------------------------------------- whole bodies

  predicate NoNegation(body: seq<RExpr>) {
    forall k :: 0 <= k < |body| ==> !body[k].negated
  }

  predicate AllHold(i: Interpretation, values: seq<Value>) {
    forall k :: 0 <= k < |values| ==> i.holds(values[k])
  }

  predicate BodyHolds(i: Interpretation, arity: string -> nat, db: Database, env: string -> Value, body: seq<RExpr>) {
    forall k :: 0 <= k < |body| ==> ExprHolds(i, arity, db, env, body[k])
  }

  lemma AllHoldAppend(i: Interpretation, first: seq<Value>, rest: seq<Value>)
    ensures AllHold(i, first + rest) <==> AllHold(i, first) && AllHold(i, rest)
  {
    assert forall k :: 0 <= k < |rest| ==> rest[k] == (first + rest)[k + |first|];
    assert forall k :: 0 <= k < |first| ==> first[k] == (first + rest)[k];
  }

  lemma BodyHoldsCons(i: Interpretation, arity: string -> nat, db: Database, env: string -> Value, body: seq<RExpr>)
    requires body != []
    ensures BodyHolds(i, arity, db, env, body) <==>
            ExprHolds(i, arity, db, env, body[0]) && BodyHolds(i, arity, db, env, body[1..])
  {
  }

  /** The values of the clause an expression leaves. */
  function ClauseValues(i: Interpretation, arity: string -> nat, tables: string -> Table, keys: string -> Value,
                        locals: Locals, e: RExpr): seq<Value>
  {
    if e.IsDeclaration() then []
    else [CallValue(i, arity(e.op), e.op,
                    OperandValues(i, arity, tables, keys, TermsOperands(StripAll(InlineTerms(locals, e.args)))))]
  }

  lemma ExprCorresponds(
    i: Interpretation, arity: string -> nat, db: Database, tables: string -> Table,
    env: string -> Value, keys: string -> Value, columns: set<RTerm>, declarations: set<(string, RTerm)>,
    locals: Locals, e: RExpr)
    requires forall c :: c in columns ==> c.RColumn?
    requires forall d :: d in declarations ==> d.1.RColumn?
    requires Corresponds(db, tables, env, keys, columns, declarations) && LocalsDeclared(locals, declarations)
    requires DirectLocals(e.args) && !e.negated && TermsColumns(e.args) <= columns
    requires if e.IsDeclaration() then (e.args[0].name, e.args[1]) in declarations else Declared(locals.Keys, e.args)
    ensures ExprHolds(i, arity, db, env, e) <==> AllHold(i, ClauseValues(i, arity, tables, keys, locals, e))
  {
    if e.IsDeclaration() {
      assert e.args[1] in TermsColumns(e.args[1..]) by {
        assert e.args[1..][0] == e.args[1] && e.args[1] in TermColumns(e.args[1]);
      }
    } else {
      ArgumentsCorrespond(i, arity, db, tables, env, keys, columns, declarations, locals, e.args);
      assert ClauseValues(i, arity, tables, keys, locals, e)[0] ==
             CallValue(i, arity(e.op), e.op, TermsValues(i, arity, db, env, e.args));
    }
  }

  /** Under corresponding assignments, body and clauses hold together. */
  lemma {:induction false} BodyCorresponds(
    i: Interpretation, arity: string -> nat, db: Database, tables: string -> Table,
    env: string -> Value, keys: string -> Value, columns: set<RTerm>, declarations: set<(string, RTerm)>,
    locals: Locals, body: seq<RExpr>)
    requires forall c :: c in columns ==> c.RColumn?
    requires forall d :: d in declarations ==> d.1.RColumn?
    requires Corresponds(db, tables, env, keys, columns, declarations) && LocalsDeclared(locals, declarations)
    requires BodyDirectLocals(body) && DeclaredFirst(body, locals.Keys) && NoNegation(body)
    requires Columns(body) <= columns && Declarations(body) <= declarations
    ensures BodyHolds(i, arity, db, env, body) <==>
            AllHold(i, OperandValues(i, arity, tables, keys, Clauses(StripBody(Inline(body, locals)))))
    decreases |body|
  {
    hide ExprHolds, Corresponds, BodyHolds, AllHold, ClauseValues;
    if body == [] {
      assert BodyHolds(i, arity, db, env, []) by { NothingHolds(i, arity, db, env); }
      assert AllHold(i, []) by { NothingHolds(i, arity, db, env); }
    } else {
      var e, rest := body[0], body[1..];
      var after := LocalsAfter(e, locals);
      assert forall k :: 0 <= k < |rest| ==> rest[k] == body[k + 1];
      assert e.IsDeclaration() ==> after.Keys == locals.Keys + {e.args[0].name};
      ExprCorresponds(i, arity, db, tables, env, keys, columns, declarations, locals, e);
      BodyCorresponds(i, arity, db, tables, env, keys, columns, declarations, after, rest);
      BodyHoldsCons(i, arity, db, env, body);
      ClausesCons(i, arity, tables, keys, locals, body);
      AllHoldAppend(i, ClauseValues(i, arity, tables, keys, locals, e),
                    OperandValues(i, arity, tables, keys, Clauses(StripBody(Inline(rest, after)))));
    }
  }

  lemma NothingHolds(i: Interpretation, arity: string -> nat, db: Database, env: string -> Value)
    ensures BodyHolds(i, arity, db, env, []) && AllHold(i, [])
  {
  }

  lemma ClausesCons(i: Interpretation, arity: string -> nat, tables: string -> Table, keys: string -> Value,
                    locals: Locals, body: seq<RExpr>)
    requires body != []
    ensures var e := body[0];
            OperandValues(i, arity, tables, keys, Clauses(StripBody(Inline(body, locals)))) ==
            ClauseValues(i, arity, tables, keys, locals, e)
            + OperandValues(i, arity, tables, keys, Clauses(StripBody(Inline(body[1..], LocalsAfter(e, locals)))))
  {
    var e, rest := body[0], Inline(body[1..], LocalsAfter(body[0], locals));
    if e.IsDeclaration() {
      assert [] + rest == rest;
    } else {
      var stripped := Expr(false, e.op, StripAll(InlineTerms(locals, e.args)));
      StripBodyAppend(InlineExpr(e, locals), rest);
      assert InlineExpr(e, locals)[1..] == [];
      assert StripBody(Inline(body, locals)) == [stripped] + StripBody(rest);
      assert ([stripped] + StripBody(rest))[1..] == StripBody(rest);
      var clause := QueryAst.Call(e.op, TermsOperands(stripped.args));
      OperandValuesCons(i, arity, tables, keys, [clause], Clauses(StripBody(rest)));
    }
  }

  // ---------------------------------------------------------------- when the meaning is kept

  /** No iterator is used with two tables. */
  ghost predicate UnsharedIterators(columns: set<RTerm>)
    requires forall c :: c in columns ==> c.RColumn?
  {
    forall c, d :: c in columns && d in columns && c.iter == d.iter ==> c.table == d.table
  }

  /** Every local variable is declared with one column only. */
  ghost predicate OneColumnPerLocal(declarations: set<(string, RTerm)>)
    requires forall d :: d in declarations ==> d.1.RColumn?
  {
    forall d, e :: d in declarations && e in declarations && d.0 == e.0 ==>
                     d.1.table == e.1.table && d.1.column == e.1.column
  }

  /** No name is both a local variable and an iterator. */
  ghost predicate LocalsAreNoIterators(declarations: set<(string, RTerm)>, columns: set<RTerm>)
    requires forall c :: c in columns ==> c.RColumn?
  {
    forall d, c :: d in declarations && c in columns ==> d.0 != c.iter
  }

  /** Every table of the body is still mentioned after inlining. */
  ghost predicate KeepsTables(columns: set<RTerm>, compiled: Body)
    requires forall c :: c in columns ==> c.RColumn?
  {
    forall c :: c in columns ==> c.table in BodyTables(compiled)
  }

  /** What the compiler silently relies on; `compiled` is the inlined and stripped body. */
  ghost predicate Faithful(body: seq<RExpr>, compiled: Body) {
    && NoNegation(body)
    && UnsharedIterators(Columns(body))
    && OneColumnPerLocal(Declarations(body))
    && LocalsAreNoIterators(Declarations(body), Columns(body))
    && KeepsTables(Columns(body), compiled)
    && Linked(compiled)
  }

  /** The compiled clauses, over the tables they mention, against the body. */
  ghost predicate SameTruth(i: Interpretation, arity: string -> nat, name: string -> string, db: SqlDatabase,
                            body: seq<RExpr>, compiled: Body)
  {
    BodyTrue(i, arity, StoredDatabase(name, db), body) <==>
    ClausesTrue(i, arity, Stored(name, db), Elements(BodyTables(compiled)), Clauses(compiled))
  }

  lemma {:induction false} DeclarationColumns(body: seq<RExpr>)
    ensures forall d :: d in Declarations(body) ==> d.1 in Columns(body)
  {
    if body != [] {
      DeclarationColumns(body[1..]);
      if body[0].IsDeclaration() {
        assert body[0].args[1] in TermsColumns(body[0].args[1..]) by {
          assert body[0].args[1..][0] == body[0].args[1] && body[0].args[1] in TermColumns(body[0].args[1]);
        }
      }
    }
  }

  lemma {:induction false} DeclarationsHold(i: Interpretation, arity: string -> nat, db: Database, env: string -> Value,
                                            body: seq<RExpr>, d: (string, RTerm))
    requires BodyHolds(i, arity, db, env, body) && NoNegation(body) && d in Declarations(body)
    ensures env(d.0) == TermValue(i, arity, db, env, d.1)
  {
    if !(body[0].IsDeclaration() && d == (body[0].args[0].name, body[0].args[1])) {
      BodyHoldsCons(i, arity, db, env, body);
      assert forall k :: 0 <= k < |body[1..]| ==> body[1..][k] == body[k + 1];
      DeclarationsHold(i, arity, db, env, body[1..], d);
    } else {
      assert ExprHolds(i, arity, db, env, body[0]);
    }
  }

  function TablesOfColumns(columns: set<RTerm>): set<string>
    requires forall c :: c in columns ==> c.RColumn?
  {
    set c | c in columns :: c.table
  }

  lemma {:induction false} StripTables(t: RTerm)
    ensures Elements(TermTables(Strip(t))) == TablesOfColumns(TermColumns(t))
    decreases t, 1
  {
    if t.RCall? {
      StripAllTables(t.args);
    }
  }

  lemma {:induction false} StripAllTables(ts: seq<RTerm>)
    ensures Elements(TermsTables(StripAll(ts))) == TablesOfColumns(TermsColumns(ts))
    decreases ts, 0
  {
    if ts != [] {
      StripTables(ts[0]);
      StripAllTables(ts[1..]);
      assert StripAll(ts)[0] == Strip(ts[0]) && StripAll(ts)[1..] == StripAll(ts[1..]);
      assert TablesOfColumns(TermsColumns(ts)) ==
             TablesOfColumns(TermColumns(ts[0])) + TablesOfColumns(TermsColumns(ts[1..]));
    }
  }

  lemma {:induction false} InlineColumns(locals: Locals, ts: seq<RTerm>, columns: set<RTerm>)
    requires forall v :: v in locals ==> locals[v].RColumn? && locals[v] in columns
    requires TermsColumns(ts) <= columns
    ensures TermsColumns(InlineTerms(locals, ts)) <= columns
    decreases |ts|
  {
    if ts != [] {
      InlineColumns(locals, ts[1..], columns);
      assert InlineTerms(locals, ts)[1..] == InlineTerms(locals, ts[1..]);
    }
  }

  /** Compiling introduces no tables. */
  lemma {:induction false} CompiledTables(body: seq<RExpr>, locals: Locals, columns: set<RTerm>)
    requires forall c :: c in columns ==> c.RColumn?
    requires forall v :: v in locals ==> locals[v] in columns
    requires Columns(body) <= columns
    ensures Elements(BodyTables(StripBody(Inline(body, locals)))) <= TablesOfColumns(columns)
    decreases |body|
  {
    if body != [] {
      var e := body[0];
      var after := LocalsAfter(e, locals);
      var rest := Inline(body[1..], after);
      if e.IsDeclaration() {
        assert e.args[1] in TermsColumns(e.args[1..]) by {
          assert e.args[1..][0] == e.args[1] && e.args[1] in TermColumns(e.args[1]);
        }
        assert [] + rest == rest;
      } else {
        ExprTables(locals, e, columns);
        BodyTablesCons(Expr(false, e.op, StripAll(InlineTerms(locals, e.args))), StripBody(rest));
        StripBodyAppend(InlineExpr(e, locals), rest);
        StripFew(RExpr(false, e.op, InlineTerms(locals, e.args)));
      }
      hide TablesOfColumns, StripAll, Elements;
      CompiledTables(body[1..], after, columns);
    }
  }

  lemma ExprTables(locals: Locals, e: RExpr, columns: set<RTerm>)
    requires forall c :: c in columns ==> c.RColumn?
    requires forall v :: v in locals ==> locals[v] in columns
    requires TermsColumns(e.args) <= columns
    ensures Elements(TermsTables(StripAll(InlineTerms(locals, e.args)))) <= TablesOfColumns(columns)
  {
    InlineColumns(locals, e.args, columns);
    StripAllTables(InlineTerms(locals, e.args));
    assert TablesOfColumns(TermsColumns(InlineTerms(locals, e.args))) <= TablesOfColumns(columns);
  }

  lemma BodyTablesCons(e: Expr, rest: Body)
    ensures Elements(BodyTables([e] + rest)) == Elements(TermsTables(e.args)) + Elements(BodyTables(rest))
  {
    assert ([e] + rest)[1..] == rest;
  }

  ghost function KeysFrom(tableNames: map<Elem, string>, env: string -> Value): (keys: string -> Value)
    ensures forall t :: Field(t) in tableNames ==> keys(t) == env(tableNames[Field(t)])
  {
    (t: string) => if Field(t) in tableNames then env(tableNames[Field(t)]) else Undefined
  }

  ghost function TableOfIterator(columns: set<RTerm>, iter: string): (t: string)
    requires forall c :: c in columns ==> c.RColumn?
    requires UnsharedIterators(columns)
    ensures forall c :: c in columns && c.iter == iter ==> t == c.table
  {
    if c :| c in columns && c.iter == iter then c.table else ""
  }

  /** The value of a name under a choice of rows. */
  ghost function NameValue(tables: string -> Table, keys: string -> Value,
                           columns: set<RTerm>, declarations: set<(string, RTerm)>, x: string): (v: Value)
    requires forall c :: c in columns ==> c.RColumn?
    requires forall d :: d in declarations ==> d.1.RColumn?
    requires UnsharedIterators(columns) && OneColumnPerLocal(declarations)
        && LocalsAreNoIterators(declarations, columns)
    ensures forall c :: c in columns && c.iter == x ==> v == keys(c.table)
    ensures forall d :: d in declarations && d.0 == x ==> v == Cell(tables(d.1.table), keys(d.1.table), d.1.column)
  {
    if d :| d in declarations && d.0 == x then Cell(tables(d.1.table), keys(d.1.table), d.1.column)
    else keys(TableOfIterator(columns, x))
  }

  ghost function EnvFrom(tables: string -> Table, keys: string -> Value,
                         columns: set<RTerm>, declarations: set<(string, RTerm)>): (env: string -> Value)
    requires forall c :: c in columns ==> c.RColumn?
    requires forall d :: d in declarations ==> d.1.RColumn?
    requires UnsharedIterators(columns) && OneColumnPerLocal(declarations)
        && LocalsAreNoIterators(declarations, columns)
    ensures forall c :: c in columns ==> env(c.iter) == keys(c.table)
    ensures forall d :: d in declarations ==> env(d.0) == Cell(tables(d.1.table), keys(d.1.table), d.1.column)
  {
    (x: string) => NameValue(tables, keys, columns, declarations, x)
  }

  lemma KeysCorrespond(
    i: Interpretation, arity: string -> nat, name: string -> string, db: SqlDatabase, body: seq<RExpr>,
    datastore: string, tableNames: map<Elem, string>, env: string -> Value)
    requires NoNegation(body) && Agrees(datastore, tableNames, Columns(body))
    requires BodyHolds(i, arity, StoredDatabase(name, db), env, body)
    ensures Corresponds(StoredDatabase(name, db), Stored(name, db), env, KeysFrom(tableNames, env),
                        Columns(body), Declarations(body))
  {
    DeclarationColumns(body);
    hide Declarations, Columns, BodyHolds;
    forall d | d in Declarations(body)
      ensures env(d.0) == TermValue(i, arity, StoredDatabase(name, db), env, d.1)
    {
      DeclarationsHold(i, arity, StoredDatabase(name, db), env, body, d);
    }
  }

  lemma TruthOfBodyReachesClauses(
    i: Interpretation, arity: string -> nat, name: string -> string, db: SqlDatabase, body: seq<RExpr>,
    datastore: string, tableNames: map<Elem, string>, env: string -> Value)
    requires BodyDirectLocals(body) && DeclaredFirst(body, {}) && NoNegation(body)
    requires Agrees(datastore, tableNames, Columns(body))
    requires Satisfies(i, arity, StoredDatabase(name, db), env, body)
    ensures var compiled := StripBody(Inline(body, map[]));
            ClausesTrue(i, arity, Stored(name, db), Elements(BodyTables(compiled)), Clauses(compiled))
  {
    var compiled := StripBody(Inline(body, map[]));
    var tables, rdb := Stored(name, db), StoredDatabase(name, db);
    var columns, declarations := Columns(body), Declarations(body);
    var locals: Locals := map[];
    var keys := KeysFrom(tableNames, env);
    KeysCorrespond(i, arity, name, db, body, datastore, tableNames, env);
    CompiledTables(body, locals, columns);
    forall t | t in Elements(BodyTables(compiled)) ensures keys(t) in tables(t) {
      assert t in TablesOfColumns(columns);
      var c :| c in columns && c.table == t;
      assert env(c.iter) in rdb(c.datastore, c.table);
    }
    assert BodyHolds(i, arity, rdb, env, body) && locals.Keys == {};
    hide Corresponds, BodyHolds, NoNegation, Agrees, Satisfies;
    BodyCorresponds(i, arity, rdb, tables, env, keys, columns, declarations, locals, body);
    assert ClausesHold(i, arity, tables, keys, Elements(BodyTables(compiled)), Clauses(compiled));
  }

  lemma TruthOfClausesReachesBody(
    i: Interpretation, arity: string -> nat, name: string -> string, db: SqlDatabase, body: seq<RExpr>,
    keys: string -> Value)
    requires BodyDirectLocals(body) && DeclaredFirst(body, {})
    requires Faithful(body, StripBody(Inline(body, map[])))
    requires var compiled := StripBody(Inline(body, map[]));
             ClausesHold(i, arity, Stored(name, db), keys, Elements(BodyTables(compiled)), Clauses(compiled))
    ensures BodyTrue(i, arity, StoredDatabase(name, db), body)
  {
    var tables, rdb := Stored(name, db), StoredDatabase(name, db);
    var columns, declarations := Columns(body), Declarations(body);
    var locals: Locals := map[];
    assert locals.Keys == {};
    assert NoNegation(body) && KeepsTables(columns, StripBody(Inline(body, locals)));
    var env := EnvFrom(tables, keys, columns, declarations);
    hide *;
    EnvCorresponds(name, db, keys, columns, declarations, env);
    EnvInRange(name, db, keys, columns, StripBody(Inline(body, locals)), env);
    ClausesHoldAll(i, arity, tables, keys, Elements(BodyTables(StripBody(Inline(body, locals)))),
                   Clauses(StripBody(Inline(body, locals))));
    NoLocalsDeclared(locals, declarations);
    BodyCorresponds(i, arity, rdb, tables, env, keys, columns, declarations, locals, body);
    SatisfiesBoth(i, arity, rdb, env, body);
  }

  lemma EnvCorresponds(name: string -> string, db: SqlDatabase, keys: string -> Value, columns: set<RTerm>,
                       declarations: set<(string, RTerm)>, env: string -> Value)
    requires forall c :: c in columns ==> c.RColumn?
    requires forall d :: d in declarations ==> d.1.RColumn?
    requires forall c :: c in columns ==> env(c.iter) == keys(c.table)
    requires forall d :: d in declarations ==>
               env(d.0) == Cell(Stored(name, db)(d.1.table), keys(d.1.table), d.1.column)
    ensures Corresponds(StoredDatabase(name, db), Stored(name, db), env, keys, columns, declarations)
  {
  }

  lemma EnvInRange(name: string -> string, db: SqlDatabase, keys: string -> Value, columns: set<RTerm>, compiled: Body,
                   env: string -> Value)
    requires forall c :: c in columns ==> c.RColumn?
    requires forall c :: c in columns ==> env(c.iter) == keys(c.table)
    requires KeepsTables(columns, compiled)
    requires forall e :: e in Elements(BodyTables(compiled)) ==> keys(e) in Stored(name, db)(e)
    ensures InRange(StoredDatabase(name, db), env, columns)
  {
    hide BodyTables;
  }

  lemma ClausesHoldAll(i: Interpretation, arity: string -> nat, tables: string -> Table, keys: string -> Value,
                       entities: set<string>, clauses: seq<QueryAst.Operand>)
    requires ClausesHold(i, arity, tables, keys, entities, clauses)
    ensures AllHold(i, OperandValues(i, arity, tables, keys, clauses))
    ensures forall e :: e in entities ==> keys(e) in tables(e)
  {
  }

  lemma NoLocalsDeclared(locals: Locals, declarations: set<(string, RTerm)>)
    requires locals == map[]
    ensures LocalsDeclared(locals, declarations)
  {
  }

  lemma SatisfiesBoth(i: Interpretation, arity: string -> nat, db: Database, env: string -> Value, body: seq<RExpr>)
    requires InRange(db, env, Columns(body)) && BodyHolds(i, arity, db, env, body)
    ensures BodyTrue(i, arity, db, body)
  {
    hide ExprHolds, Columns;
    assert Satisfies(i, arity, db, env, body);
  }

  /** A faithful body is true exactly when its clauses are. */
  lemma FaithfulKeepsTruth(i: Interpretation, arity: string -> nat, name: string -> string, db: SqlDatabase,
                           body: seq<RExpr>, datastore: string, tableNames: map<Elem, string>)
    requires BodyDirectLocals(body) && DeclaredFirst(body, {})
    requires Agrees(datastore, tableNames, Columns(body))
    requires Faithful(body, StripBody(Inline(body, map[])))
    ensures SameTruth(i, arity, name, db, body, StripBody(Inline(body, map[])))
  {
    assert NoNegation(body);
    hide Faithful, Satisfies, ClausesHold;
    var compiled := StripBody(Inline(body, map[]));
    if env: string -> Value :| Satisfies(i, arity, StoredDatabase(name, db), env, body) {
      TruthOfBodyReachesClauses(i, arity, name, db, body, datastore, tableNames, env);
    }
    var entities := Elements(BodyTables(compiled));
    if keys: string -> Value :| ClausesHold(i, arity, Stored(name, db), keys, entities, Clauses(compiled)) {
      TruthOfClausesReachesBody(i, arity, name, db, body, keys);
    }
  }
}
