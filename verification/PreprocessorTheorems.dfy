/** What the preprocessor does to a body, measured against the reference reading. */
module PreprocessorTheorems {
  import opened Results
  import opened RegoAst
  import opened RegoMeaning
  import opened Preprocessor

  // ---------------------------------------------------------------- rewritten references

  /** A term without datastore and iterator. */
  function Strip(t: RTerm): Term
    decreases t, 1
  {
    match t
    case RConst(c) => Scalar(c)
    case RLocal(name) => Variable(name)
    case RColumn(_, table, _, column) => Ref("data", [Field(table), Field(column)])
    case RCall(op, args) => Builtin(op, StripAll(args))
  }

  function StripAll(ts: seq<RTerm>): (r: seq<Term>)
    ensures |r| == |ts|
    ensures forall i :: 0 <= i < |ts| ==> r[i] == Strip(ts[i])
    decreases ts, 0
  {
    if ts == [] then [] else [Strip(ts[0])] + StripAll(ts[1..])
  }

  /** The datastore and the iterator of each table, put back into stripped terms. */
  function Restore(datastore: string, tableNames: map<Elem, string>, t: Term): Option<RTerm>
    decreases t, 1
  {
    match t
    case Scalar(c) => Some(RConst(c))
    case Variable(name) => Some(RLocal(name))
    case Ref(_, path) =>
      if |path| == 2 && path[0] in tableNames
      then Some(RColumn(datastore, path[0].text, tableNames[path[0]], path[1].text))
      else None
    case Composite(_, _) => None
    case Builtin(op, args) =>
      match RestoreAll(datastore, tableNames, args)
      case None => None
      case Some(rargs) => Some(RCall(op, rargs))
  }

  function RestoreAll(datastore: string, tableNames: map<Elem, string>, ts: seq<Term>): Option<seq<RTerm>>
    decreases ts, 0
  {
    if ts == [] then Some([])
    else match Restore(datastore, tableNames, ts[0])
      case None => None
      case Some(first) =>
        match RestoreAll(datastore, tableNames, ts[1..])
        case None => None
        case Some(rest) => Some([first] + rest)
  }

  /** All columns are of the datastore and use the iterator noted for their table. */
  predicate Agrees(datastore: string, tableNames: map<Elem, string>, columns: set<RTerm>)
    requires forall c :: c in columns ==> c.RColumn?
  {
    forall c :: c in columns ==>
                  && c.datastore == datastore
                  && Field(c.table) in tableNames
                  && tableNames[Field(c.table)] == c.iter
  }

  lemma {:induction false} RestoreStrip(datastore: string, tableNames: map<Elem, string>, t: RTerm)
    requires Agrees(datastore, tableNames, TermColumns(t))
    ensures Restore(datastore, tableNames, Strip(t)) == Some(t)
    decreases t, 1
  {
    if t.RColumn? {
      assert t in TermColumns(t);
    } else if t.RCall? {
      RestoreStripAll(datastore, tableNames, t.args);
    }
  }

  lemma {:induction false} RestoreStripAll(datastore: string, tableNames: map<Elem, string>, ts: seq<RTerm>)
    requires Agrees(datastore, tableNames, TermsColumns(ts))
    ensures RestoreAll(datastore, tableNames, StripAll(ts)) == Some(ts)
    decreases ts, 0
  {
    if ts != [] {
      RestoreStrip(datastore, tableNames, ts[0]);
      RestoreStripAll(datastore, tableNames, ts[1..]);
      assert StripAll(ts)[1..] == StripAll(ts[1..]) && ts == [ts[0]] + ts[1..];
    }
  }

  // ---------------------------------------------------------------- which references are refused

  datatype Check = Check(passes: bool, error: PreprocessError)

  /** What is asked of a reference that does not start from an iterator, in the order in which it is asked. */
  function Checks(pool: seq<string>, s: State, head: string, path: seq<Elem>): seq<Check>
    requires path != []
  {
    [Check(path[0].Field?, NotAString),
     Check(s.expectedDatastore != "" || path[0].text in pool, InvalidDatastore),
     Check(head == "data" && s.expectedDatastore != "" ==> path[0].text == s.expectedDatastore, WrongDatastore),
     Check(|path| >= 3, RefTooShort),
     Check(|path| >= 3 ==> path[2].Iterator?, RowIdentifierNotAVariable),
     Check(|path| >= 3 && path[1] in s.tableNames ==> s.tableNames[path[1]] == path[2].text, SelfLink)]
  }

  /** A reference is refused with the error of the first check it does not pass, and with nothing else. */
  lemma RefusedByFirstCheck(pool: seq<string>, s: State, head: string, path: seq<Elem>)
    ensures path == [] || head in s.tableVars ==> RewriteRef(pool, s, head, path).Ok?
    ensures path != [] && head !in s.tableVars ==>
              var checks := Checks(pool, s, head, path);
              && (RewriteRef(pool, s, head, path).Ok? <==> forall k :: 0 <= k < |checks| ==> checks[k].passes)
              && forall k :: 0 <= k < |checks| && !checks[k].passes
                             && (forall j :: 0 <= j < k ==> checks[j].passes) ==>
                   RewriteRef(pool, s, head, path) == Err(checks[k].error)
  {
    if path != [] && head !in s.tableVars {
      var checks := Checks(pool, s, head, path);
      assert (forall k :: 0 <= k < |checks| ==> checks[k].passes) <==>
             checks[0].passes && checks[1].passes && checks[2].passes && checks[3].passes && checks[4].passes
             && checks[5].passes;
    }
  }

  // ---------------------------------------------------------------- one step of rewriting

  /** The preprocessor's maps and the reading's bindings describe the same iterators. */
  ghost predicate Related(s: State, b: Bindings) {
    && s.tableVars.Keys == b.Keys
    && (forall x :: x in b ==>
          && s.tableVars[x] == ("data", Field(b[x].1))
          && b[x].0 == s.expectedDatastore != ""
          && Field(b[x].1) in s.tableNames && s.tableNames[Field(b[x].1)] == x)
  }

  /** The later state has only learned. */
  predicate Extends(s: State, later: State) {
    && s.tableNames.Keys <= later.tableNames.Keys
    && (forall t :: t in s.tableNames ==> later.tableNames[t] == s.tableNames[t])
    && (s.expectedDatastore != "" ==> later.expectedDatastore == s.expectedDatastore)
  }

  /** What rewriting a reference has to do with reading it. */
  ghost predicate RefIsRead(pool: seq<string>, s: State, s': State, t': Term, b': Bindings, r: RTerm)
    requires r.RColumn?
  {
    && Related(s', b') && Extends(s, s') && s'.localVars == s.localVars && t' == Strip(r)
    && Agrees(s'.expectedDatastore, s'.tableNames, {r})
    && s'.expectedDatastore != ""
    && (s.expectedDatastore == "" ==> s'.expectedDatastore in pool)
  }

  lemma IteratorRefReads(pool: seq<string>, s: State, b: Bindings, head: string, path: seq<Elem>)
    requires Related(s, b) && head in b
    requires RewriteRef(pool, s, head, path).Ok? && ReadRef(b, head, path).Some?
    ensures var (s', t') := RewriteRef(pool, s, head, path).value;
            var (b', r) := ReadRef(b, head, path).value;
            RefIsRead(pool, s, s', t', b', r)
  {
    assert [Field(b[head].1)] + path == [Field(b[head].1), path[0]];
  }

  lemma FullRefReads(pool: seq<string>, s: State, b: Bindings, head: string, path: seq<Elem>)
    requires "" !in pool && Related(s, b) && head !in b
    requires RewriteRef(pool, s, head, path).Ok? && ReadRef(b, head, path).Some?
    ensures var (s', t') := RewriteRef(pool, s, head, path).value;
            var (b', r) := ReadRef(b, head, path).value;
            RefIsRead(pool, s, s', t', b', r)
  {
    assert [path[1]] + path[3..] == [path[1], path[3]];
  }

  lemma RewriteRefReads(pool: seq<string>, s: State, b: Bindings, head: string, path: seq<Elem>)
    requires "" !in pool && Related(s, b)
    requires RewriteRef(pool, s, head, path).Ok? && ReadRef(b, head, path).Some?
    ensures var (s', t') := RewriteRef(pool, s, head, path).value;
            var (b', r) := ReadRef(b, head, path).value;
            && Related(s', b') && Extends(s, s') && s'.localVars == s.localVars && t' == Strip(r)
            && Agrees(s'.expectedDatastore, s'.tableNames, {r})
            && s'.expectedDatastore != ""
            && (s.expectedDatastore == "" ==> s'.expectedDatastore in pool)
  {
    hide Related, Extends, Agrees, RewriteRef, Strip;
    if head in b {
      IteratorRefReads(pool, s, b, head, path);
    } else {
      FullRefReads(pool, s, b, head, path);
    }
  }

  lemma {:induction false} RewriteTermReads(pool: seq<string>, s: State, b: Bindings, t: Term, direct: bool)
    requires "" !in pool && Related(s, b)
    requires s.expectedDatastore == "" || s.expectedDatastore in pool
    requires RewriteTerm(pool, s, t).Ok? && ReadTerm(b, t, direct).Some?
    ensures var (s', t') := RewriteTerm(pool, s, t).value;
            var (b', r) := ReadTerm(b, t, direct).value;
            && Related(s', b') && Extends(s, s') && s'.localVars == s.localVars && t' == Strip(r)
            && Noted(s', TermColumns(r))
            && (s'.expectedDatastore == "" || s'.expectedDatastore in pool)
    decreases t, 1
  {
    match t
    case Scalar(_) =>
    case Variable(_) =>
    case Ref(head, path) =>
      assert ReadRef(b, head, path).Some?;
      RewriteRefReads(pool, s, b, head, path);
    case Builtin(op, args) =>
      RewriteTermsReads(pool, s, b, args, false);
  }

  lemma {:induction false} RewriteTermsReads(pool: seq<string>, s: State, b: Bindings, ts: seq<Term>, direct: bool)
    requires "" !in pool && Related(s, b)
    requires s.expectedDatastore == "" || s.expectedDatastore in pool
    requires RewriteTerms(pool, s, ts).Ok? && ReadTerms(b, ts, direct).Some?
    ensures var (s', ts') := RewriteTerms(pool, s, ts).value;
            var (b', rs) := ReadTerms(b, ts, direct).value;
            && Related(s', b') && Extends(s, s') && s'.localVars == s.localVars && ts' == StripAll(rs)
            && Noted(s', TermsColumns(rs))
            && (s'.expectedDatastore == "" || s'.expectedDatastore in pool)
    decreases ts, 0
  {
    if ts != [] {
      RewriteTermReads(pool, s, b, ts[0], direct);
      var (s1, _) := RewriteTerm(pool, s, ts[0]).value;
      var (b1, first) := ReadTerm(b, ts[0], direct).value;
      RewriteTermsReads(pool, s1, b1, ts[1..], direct);
      var (s2, _) := RewriteTerms(pool, s1, ts[1..]).value;
      NotedLater(s1, s2, TermColumns(first));
    }
  }

  predicate Noted(s: State, columns: set<RTerm>)
    requires forall c :: c in columns ==> c.RColumn?
  {
    (columns == {} || s.expectedDatastore != "") && Agrees(s.expectedDatastore, s.tableNames, columns)
  }

  lemma NotedLater(s: State, later: State, columns: set<RTerm>)
    requires Extends(s, later)
    requires forall c :: c in columns ==> c.RColumn?
    requires Noted(s, columns)
    ensures Noted(later, columns)
  {
  }

  // ---------------------------------------------------------------- let-inlining

  /** The columns of the declared local variables. */
  type Locals = map<string, RTerm>

  function InlineTerm(locals: Locals, t: RTerm): RTerm {
    if t.RLocal? && t.name in locals then locals[t.name] else t
  }

  function InlineTerms(locals: Locals, ts: seq<RTerm>): (r: seq<RTerm>)
    ensures |r| == |ts|
    ensures forall i :: 0 <= i < |ts| ==> r[i] == InlineTerm(locals, ts[i])
  {
    if ts == [] then [] else [InlineTerm(locals, ts[0])] + InlineTerms(locals, ts[1..])
  }

  function LocalsAfter(e: RExpr, locals: Locals): Locals {
    if e.IsDeclaration() then locals[e.args[0].name := e.args[1]] else locals
  }

  function InlineExpr(e: RExpr, locals: Locals): seq<RExpr> {
    if e.IsDeclaration() then [] else [RExpr(false, e.op, InlineTerms(locals, e.args))]
  }

  /** The body without its declarations, every local variable replaced by its column. */
  function Inline(body: seq<RExpr>, locals: Locals): seq<RExpr> {
    if body == [] then [] else InlineExpr(body[0], locals) + Inline(body[1..], LocalsAfter(body[0], locals))
  }

  function StripBody(body: seq<RExpr>): Body {
    if body == [] then [] else [Expr(false, body[0].op, StripAll(body[0].args))] + StripBody(body[1..])
  }

  predicate LocalsMatch(s: State, locals: Locals) {
    && s.localVars.Keys == locals.Keys
    && forall v :: v in locals ==> locals[v].RColumn? && s.localVars[v] == Strip(locals[v])
  }

  /** Direct operands that are local variables have been declared. */
  predicate Declared(names: set<string>, ts: seq<RTerm>) {
    forall i :: 0 <= i < |ts| && ts[i].RLocal? ==> ts[i].name in names
  }

  predicate DeclaredFirst(body: seq<RExpr>, names: set<string>) {
    if body == [] then true
    else if body[0].IsDeclaration() then DeclaredFirst(body[1..], names + {body[0].args[0].name})
    else Declared(names, body[0].args) && DeclaredFirst(body[1..], names)
  }

  lemma {:induction false} SubstituteInlines(s: State, locals: Locals, ts: seq<RTerm>)
    requires LocalsMatch(s, locals)
    ensures SubstituteTerms(s.localVars, StripAll(ts)).Ok? <==> Declared(locals.Keys, ts)
    ensures Declared(locals.Keys, ts) ==>
              SubstituteTerms(s.localVars, StripAll(ts)) == Ok(StripAll(InlineTerms(locals, ts)))
  {
    if ts != [] {
      assert StripAll(ts)[1..] == StripAll(ts[1..]);
      SubstituteInlines(s, locals, ts[1..]);
      assert StripAll(ts)[0] == Strip(ts[0]);
      assert Declared(locals.Keys, ts) <==>
             (ts[0].RLocal? ==> ts[0].name in locals) && Declared(locals.Keys, ts[1..]) by {
        assert forall i :: 0 < i < |ts| ==> ts[i] == ts[1..][i - 1];
      }
      assert InlineTerms(locals, ts)[1..] == InlineTerms(locals, ts[1..]);
    }
  }

  lemma DeclarationStrips(op: string, ts: seq<RTerm>)
    ensures IsLocalVarDeclaration(op, StripAll(ts)) <==> RExpr(false, op, ts).IsDeclaration()
  {
  }

  lemma {:induction false} StripBodyAppend(a: seq<RExpr>, b: seq<RExpr>)
    ensures StripBody(a + b) == StripBody(a) + StripBody(b)
  {
    if a == [] {
      assert a + b == b;
    } else {
      assert (a + b)[1..] == a[1..] + b;
      StripBodyAppend(a[1..], b);
    }
  }

  lemma LocalsAreSeparate(s: State, s1: State, b: Bindings, columns: set<RTerm>, localVars: map<string, Term>)
    requires Related(s1, b) && Extends(s, s1)
    requires forall c :: c in columns ==> c.RColumn?
    requires Noted(s1, columns)
    ensures var s2 := s1.(localVars := localVars);
            Related(s2, b) && Extends(s, s2) && Noted(s2, columns)
  {
  }

  /** One expression: what it declares, what it leaves, what it notes. */
  lemma ExprReads(pool: seq<string>, s: State, b: Bindings, locals: Locals, e: Expr)
    requires "" !in pool && Related(s, b) && LocalsMatch(s, locals)
    requires s.expectedDatastore == "" || s.expectedDatastore in pool
    requires TransformExpr(pool, s, e).Ok? && ReadTerms(b, e.args, true).Some?
    ensures var (s', out) := TransformExpr(pool, s, e).value;
            var (b', args) := ReadTerms(b, e.args, true).value;
            var read := RExpr(e.negated, e.op, args);
            && Related(s', b') && LocalsMatch(s', LocalsAfter(read, locals))
            && Extends(s, s') && Noted(s', TermsColumns(args))
            && (s'.expectedDatastore == "" || s'.expectedDatastore in pool)
            && (read.IsDeclaration() || Declared(locals.Keys, args))
            && out == StripBody(InlineExpr(read, locals))
  {
    hide RewriteTerms, ReadTerms, SubstituteTerms, Declared, InlineTerms, TermsColumns, Related, Extends, Noted,
      StripBody, StripAll, Strip;
    RewriteTermsReads(pool, s, b, e.args, true);
    var (s1, args) := RewriteTerms(pool, s, e.args).value;
    var (b1, rargs) := ReadTerms(b, e.args, true).value;
    DeclarationStrips(e.op, rargs);
    StripFew(RExpr(false, e.op, InlineTerms(locals, rargs)));
    if IsLocalVarDeclaration(e.op, args) {
      DeclaredLocalMatches(s1, locals, e.op, rargs);
      LocalsAreSeparate(s, s1, b1, TermsColumns(rargs), s1.localVars[args[0].name := args[1]]);
    } else {
      SubstituteInlines(s1, locals, rargs);
    }
  }

  lemma StripFew(e: RExpr)
    ensures StripBody([]) == []
    ensures StripBody([e]) == [Expr(false, e.op, StripAll(e.args))]
  {
    assert [e][1..] == [];
  }

  /** A stored declaration keeps the local variables in step with the reading. */
  lemma DeclaredLocalMatches(s: State, locals: Locals, op: string, rargs: seq<RTerm>)
    requires LocalsMatch(s, locals) && IsLocalVarDeclaration(op, StripAll(rargs))
    ensures RExpr(false, op, rargs).IsDeclaration()
    ensures var args := StripAll(rargs);
            LocalsMatch(s.(localVars := s.localVars[args[0].name := args[1]]), locals[rargs[0].name := rargs[1]])
    ensures StripAll(rargs)[0].name == rargs[0].name
  {
    DeclarationStrips(op, rargs);
    assert StripAll(rargs)[0] == Strip(rargs[0]) && StripAll(rargs)[1] == Strip(rargs[1]);
  }

  lemma NothingNoted(s: State)
    ensures Noted(s, {}) && Extends(s, s)
  {
  }

  lemma NotedBoth(s: State, a: set<RTerm>, b: set<RTerm>)
    requires forall c :: c in a + b ==> c.RColumn?
    requires Noted(s, a) && Noted(s, b)
    ensures Noted(s, a + b)
  {
  }

  lemma ExtendsTwice(s: State, s1: State, s2: State)
    requires Extends(s, s1) && Extends(s1, s2)
    ensures Extends(s, s2)
  {
  }

  /** A successfully preprocessed body is the reference reading with its local variables inlined
      and datastores and iterators stripped; those are noted in the final state. */
  lemma {:induction false} TransformReads(pool: seq<string>, s: State, b: Bindings, locals: Locals, q: Body)
    requires "" !in pool && Related(s, b) && LocalsMatch(s, locals)
    requires s.expectedDatastore == "" || s.expectedDatastore in pool
    requires TransformExprs(pool, s, q).Ok? && ReadBody(b, q).Some?
    ensures var (s', out) := TransformExprs(pool, s, q).value;
            var body := ReadBody(b, q).value;
            && Extends(s, s') && Noted(s', Columns(body))
            && (s'.expectedDatastore == "" || s'.expectedDatastore in pool)
            && DeclaredFirst(body, locals.Keys)
            && out == StripBody(Inline(body, locals))
    decreases |q|
  {
    hide ReadTerms, TransformExpr, Related, LocalsMatch, Noted, Extends, TermsColumns, InlineExpr, StripBody, Declared;
    if q == [] {
      StripFew(RExpr(false, "", []));
      NothingNoted(s);
    } else {
      ExprReads(pool, s, b, locals, q[0]);
      var (s1, first) := TransformExpr(pool, s, q[0]).value;
      var (b1, args) := ReadTerms(b, q[0].args, true).value;
      var read := RExpr(q[0].negated, q[0].op, args);
      var after := LocalsAfter(read, locals);
      TransformReads(pool, s1, b1, after, q[1..]);
      var rest := ReadBody(b1, q[1..]).value;
      var s2 := TransformExprs(pool, s1, q[1..]).value.0;
      NotedLater(s1, s2, TermsColumns(args));
      NotedBoth(s2, TermsColumns(args), Columns(rest));
      ExtendsTwice(s, s1, s2);
      StripBodyAppend(InlineExpr(read, locals), Inline(rest, after));
      assert ReadBody(b, q).value[1..] == rest;
      assert read.IsDeclaration() ==> after.Keys == locals.Keys + {read.args[0].name};
    }
  }

  // ---------------------------------------------------------------- which operands are replaced

  /** The operand is a variable that is not declared. */
  predicate Undeclared(localVars: map<string, Term>, t: Term) {
    t.Variable? && t.name !in localVars
  }

  /** Variables that are operands themselves are replaced by what they were declared with, and other operands stay
      as they are, whatever is below them; the first undeclared variable is the error. */
  lemma {:induction false} SubstitutedOneByOne(localVars: map<string, Term>, ts: seq<Term>)
    ensures var r := SubstituteTerms(localVars, ts);
            && (r.Ok? <==> forall i :: 0 <= i < |ts| ==> !Undeclared(localVars, ts[i]))
            && (r.Ok? ==> |r.value| == |ts|)
            && (r.Ok? ==> forall i :: 0 <= i < |ts| ==>
                  r.value[i] == if ts[i].Variable? then localVars[ts[i].name] else ts[i])
            && forall i :: 0 <= i < |ts| && Undeclared(localVars, ts[i])
                           && (forall j :: 0 <= j < i ==> !Undeclared(localVars, ts[j])) ==>
                 r == Err(UndefinedVariable(ts[i].name))
  {
    if ts != [] {
      var rest := ts[1..];
      SubstitutedOneByOne(localVars, rest);
      assert forall i :: 0 < i < |ts| ==> ts[i] == rest[i - 1];
      if Undeclared(localVars, ts[0]) {
        assert SubstituteTerms(localVars, ts) == Err(UndefinedVariable(ts[0].name));
      } else {
        assert SubstituteTerms(localVars, ts).Ok? <==> SubstituteTerms(localVars, rest).Ok?;
        assert (forall i :: 0 <= i < |ts| ==> !Undeclared(localVars, ts[i])) <==>
               (forall i :: 0 <= i < |rest| ==> !Undeclared(localVars, rest[i]));
      }
    }
  }

  // ---------------------------------------------------------------- no variable is left

  /** Local variables stand for references. */
  predicate LocalsAreRefs(s: State) {
    forall v :: v in s.localVars ==> s.localVars[v].Ref?
  }

  predicate NoVariables(ts: seq<Term>) {
    forall i :: 0 <= i < |ts| ==> !ts[i].Variable?
  }

  predicate NoVariablesInBody(q: Body) {
    forall i :: 0 <= i < |q| ==> NoVariables(q[i].args)
  }

  lemma {:induction false} RewritingKeepsLocals(pool: seq<string>, s: State, ts: seq<Term>)
    requires RewriteTerms(pool, s, ts).Ok?
    ensures RewriteTerms(pool, s, ts).value.0.localVars == s.localVars
    decreases ts, 0
  {
    if ts != [] {
      RewritingATermKeepsLocals(pool, s, ts[0]);
      RewritingKeepsLocals(pool, RewriteTerm(pool, s, ts[0]).value.0, ts[1..]);
    }
  }

  lemma {:induction false} RewritingATermKeepsLocals(pool: seq<string>, s: State, t: Term)
    requires RewriteTerm(pool, s, t).Ok?
    ensures RewriteTerm(pool, s, t).value.0.localVars == s.localVars
    decreases t, 1
  {
    if t.Builtin? {
      RewritingKeepsLocals(pool, s, t.args);
    } else if t.Composite? {
      RewritingKeepsLocals(pool, s, t.children);
    }
  }

  lemma {:induction false} SubstitutionLeavesNoVariable(s: State, ts: seq<Term>)
    requires LocalsAreRefs(s) && SubstituteTerms(s.localVars, ts).Ok?
    ensures NoVariables(SubstituteTerms(s.localVars, ts).value)
  {
    if ts != [] {
      SubstitutionLeavesNoVariable(s, ts[1..]);
    }
  }

  /** After preprocessing, no operand of an expression is a variable, whatever the body. */
  lemma {:induction false} NoVariableIsLeft(pool: seq<string>, s: State, q: Body)
    requires LocalsAreRefs(s) && TransformExprs(pool, s, q).Ok?
    ensures NoVariablesInBody(TransformExprs(pool, s, q).value.1)
    decreases |q|
  {
    if q != [] {
      var (s1, first) := TransformExpr(pool, s, q[0]).value;
      RewritingKeepsLocals(pool, s, q[0].args);
      var (s0, args) := RewriteTerms(pool, s, q[0].args).value;
      if !IsLocalVarDeclaration(q[0].op, args) {
        SubstitutionLeavesNoVariable(s0, args);
      }
      NoVariableIsLeft(pool, s1, q[1..]);
    }
  }

  // ---------------------------------------------------------------- one datastore, one iterator per table

  type Reference = (string, seq<Elem>)

  /** The references of a term, at any depth. */
  function TermReferences(t: Term): set<Reference>
    decreases t, 1
  {
    match t
    case Scalar(_) => {}
    case Variable(_) => {}
    case Ref(head, path) => {(head, path)}
    case Builtin(_, args) => TermsReferences(args)
    case Composite(_, children) => TermsReferences(children)
  }

  function TermsReferences(ts: seq<Term>): set<Reference>
    decreases ts, 0
  {
    if ts == [] then {} else TermReferences(ts[0]) + TermsReferences(ts[1..])
  }

  function BodyReferences(q: Body): set<Reference> {
    if q == [] then {} else TermsReferences(q[0].args) + BodyReferences(q[1..])
  }

  /** A reference that starts from an iterator, or one that names the datastore, a table and its iterator as
      the state has noted them. */
  predicate IsNoted(pool: seq<string>, s: State, r: Reference) {
    r.1 != [] && r.0 !in s.tableVars ==>
      && |r.1| >= 3 && r.1[0].Field? && r.1[2].Iterator?
      && s.expectedDatastore in pool
      && (r.0 == "data" ==> r.1[0].text == s.expectedDatastore)
      && r.1[1] in s.tableNames && s.tableNames[r.1[1]] == r.1[2].text
  }

  predicate AllNoted(pool: seq<string>, s: State, refs: set<Reference>) {
    forall r :: r in refs ==> IsNoted(pool, s, r)
  }

  predicate Later(s: State, later: State) {
    Extends(s, later) && s.tableVars.Keys <= later.tableVars.Keys
  }

  predicate NamesPool(pool: seq<string>, s: State) {
    "" !in pool && (s.expectedDatastore == "" || s.expectedDatastore in pool)
  }

  lemma NotedStays(pool: seq<string>, s: State, later: State, refs: set<Reference>)
    requires NamesPool(pool, s) && Later(s, later) && AllNoted(pool, s, refs)
    ensures AllNoted(pool, later, refs)
  {
  }

  lemma RefIsNoted(pool: seq<string>, s: State, head: string, path: seq<Elem>)
    requires NamesPool(pool, s) && RewriteRef(pool, s, head, path).Ok?
    ensures var s' := RewriteRef(pool, s, head, path).value.0;
            NamesPool(pool, s') && Later(s, s') && IsNoted(pool, s', (head, path))
  {
  }

  lemma LaterTwice(s: State, s1: State, s2: State)
    requires Later(s, s1) && Later(s1, s2)
    ensures Later(s, s2)
  {
  }

  lemma {:induction false} TermIsNoted(pool: seq<string>, s: State, t: Term)
    requires NamesPool(pool, s) && RewriteTerm(pool, s, t).Ok?
    ensures var s' := RewriteTerm(pool, s, t).value.0;
            NamesPool(pool, s') && Later(s, s') && AllNoted(pool, s', TermReferences(t))
    decreases t, 1
  {
    hide NamesPool, IsNoted, RewriteRef;
    match t
    case Scalar(_) =>
    case Variable(_) =>
    case Ref(head, path) =>
      RefIsNoted(pool, s, head, path);
    case Builtin(_, args) =>
      TermsAreNoted(pool, s, args);
    case Composite(_, children) =>
      TermsAreNoted(pool, s, children);
  }

  lemma {:induction false} TermsAreNoted(pool: seq<string>, s: State, ts: seq<Term>)
    requires NamesPool(pool, s) && RewriteTerms(pool, s, ts).Ok?
    ensures var s' := RewriteTerms(pool, s, ts).value.0;
            NamesPool(pool, s') && Later(s, s') && AllNoted(pool, s', TermsReferences(ts))
    decreases ts, 0
  {
    if ts != [] {
      hide NamesPool, IsNoted, Later, RewriteTerm, TermReferences;
      TermIsNoted(pool, s, ts[0]);
      var s1 := RewriteTerm(pool, s, ts[0]).value.0;
      TermsAreNoted(pool, s1, ts[1..]);
      var s2 := RewriteTerms(pool, s1, ts[1..]).value.0;
      NotedStays(pool, s1, s2, TermReferences(ts[0]));
      LaterTwice(s, s1, s2);
    }
  }

  lemma ExprIsNoted(pool: seq<string>, s: State, e: Expr)
    requires NamesPool(pool, s) && TransformExpr(pool, s, e).Ok?
    ensures var s' := TransformExpr(pool, s, e).value.0;
            NamesPool(pool, s') && Later(s, s') && AllNoted(pool, s', TermsReferences(e.args))
  {
    hide SubstituteTerms, RewriteTerms, TermsReferences;
    TermsAreNoted(pool, s, e.args);
  }

  /** After preprocessing any body, every reference starts from an iterator or names a datastore of the pool -
      the same one for all references to data - and a table with the one iterator noted for it. */
  lemma {:induction false} ReferencesAreNoted(pool: seq<string>, s: State, q: Body)
    requires NamesPool(pool, s) && TransformExprs(pool, s, q).Ok?
    ensures var s' := TransformExprs(pool, s, q).value.0;
            NamesPool(pool, s') && Later(s, s') && AllNoted(pool, s', BodyReferences(q))
    decreases |q|
  {
    if q != [] {
      hide NamesPool, IsNoted, Later, TransformExpr, TermsReferences;
      ExprIsNoted(pool, s, q[0]);
      var s1 := TransformExpr(pool, s, q[0]).value.0;
      ReferencesAreNoted(pool, s1, q[1..]);
      var s2 := TransformExprs(pool, s1, q[1..]).value.0;
      NotedStays(pool, s1, s2, TermsReferences(q[0].args));
      LaterTwice(s, s1, s2);
    }
  }

  // ---------------------------------------------------------------- success

  /** All columns are of one datastore of the pool, and every table is used with one iterator. */
  ghost predicate OneDatastoreOneIterator(pool: seq<string>, columns: set<RTerm>)
    requires forall c :: c in columns ==> c.RColumn?
  {
    && (forall c, d :: c in columns && d in columns ==> c.datastore == d.datastore)
    && (forall c :: c in columns ==> c.datastore in pool)
    && (forall c, d :: c in columns && d in columns && c.table == d.table ==> c.iter == d.iter)
  }

  /** What the state knows already fits columns still to come. */
  predicate Fits(pool: seq<string>, s: State, datastore: string, tableNames: map<Elem, string>) {
    && datastore in pool
    && (s.expectedDatastore == "" || s.expectedDatastore == datastore)
    && (forall t :: t in s.tableNames ==> t in tableNames && tableNames[t] == s.tableNames[t])
  }

  lemma {:induction false} TermSucceeds(pool: seq<string>, s: State, b: Bindings, t: Term, direct: bool,
                                        datastore: string, tableNames: map<Elem, string>)
    requires "" !in pool && Related(s, b) && Fits(pool, s, datastore, tableNames)
    requires ReadTerm(b, t, direct).Some?
    requires Agrees(datastore, tableNames, TermColumns(ReadTerm(b, t, direct).value.1))
    ensures RewriteTerm(pool, s, t).Ok?
    ensures Fits(pool, RewriteTerm(pool, s, t).value.0, datastore, tableNames)
    decreases t, 1
  {
    hide RewriteTerms, ReadTerms, TermsColumns;
    match t
    case Scalar(_) =>
    case Variable(_) =>
    case Ref(head, path) =>
      var r := ReadRef(b, head, path).value.1;
      assert r in TermColumns(r);
    case Builtin(_, args) =>
      TermsSucceed(pool, s, b, args, false, datastore, tableNames);
  }

  lemma {:induction false} TermsSucceed(pool: seq<string>, s: State, b: Bindings, ts: seq<Term>, direct: bool,
                                        datastore: string, tableNames: map<Elem, string>)
    requires "" !in pool && Related(s, b) && Fits(pool, s, datastore, tableNames)
    requires ReadTerms(b, ts, direct).Some?
    requires Agrees(datastore, tableNames, TermsColumns(ReadTerms(b, ts, direct).value.1))
    ensures RewriteTerms(pool, s, ts).Ok?
    ensures Fits(pool, RewriteTerms(pool, s, ts).value.0, datastore, tableNames)
    decreases ts, 0
  {
    if ts != [] {
      var (b1, first) := ReadTerm(b, ts[0], direct).value;
      var (_, rest) := ReadTerms(b1, ts[1..], direct).value;
      var whole := ReadTerms(b, ts, direct).value.1;
      assert whole[0] == first && whole[1..] == rest;
      TermSucceeds(pool, s, b, ts[0], direct, datastore, tableNames);
      RewriteTermReads(pool, s, b, ts[0], direct);
      TermsSucceed(pool, RewriteTerm(pool, s, ts[0]).value.0, b1, ts[1..], direct, datastore, tableNames);
    }
  }

  lemma AgreesParts(datastore: string, tableNames: map<Elem, string>, body: seq<RExpr>)
    requires body != [] && Agrees(datastore, tableNames, Columns(body))
    ensures Agrees(datastore, tableNames, TermsColumns(body[0].args))
    ensures Agrees(datastore, tableNames, Columns(body[1..]))
  {
  }

  lemma FitsWithLocals(pool: seq<string>, s: State, b: Bindings, localVars: map<string, Term>, datastore: string,
                       tableNames: map<Elem, string>)
    requires Related(s, b) && Fits(pool, s, datastore, tableNames)
    ensures Related(s.(localVars := localVars), b) && Fits(pool, s.(localVars := localVars), datastore, tableNames)
  {
  }

  lemma ExprSucceeds(pool: seq<string>, s: State, b: Bindings, locals: Locals, e: Expr,
                     datastore: string, tableNames: map<Elem, string>)
    requires "" !in pool && Related(s, b) && LocalsMatch(s, locals) && Fits(pool, s, datastore, tableNames)
    requires ReadTerms(b, e.args, true).Some?
    requires var rargs := ReadTerms(b, e.args, true).value.1;
             && Agrees(datastore, tableNames, TermsColumns(rargs))
             && (RExpr(e.negated, e.op, rargs).IsDeclaration() || Declared(locals.Keys, rargs))
    ensures TransformExpr(pool, s, e).Ok?
    ensures Fits(pool, TransformExpr(pool, s, e).value.0, datastore, tableNames)
  {
    TermsSucceed(pool, s, b, e.args, true, datastore, tableNames);
    FitsInPool(pool, s, datastore, tableNames);
    RewriteTermsReads(pool, s, b, e.args, true);
    hide Agrees, ReadTerms, RewriteTerms, Fits, Declared, TermsColumns, SubstituteTerms, LocalsMatch, StripAll, Related,
      Noted, Extends;
    var (s1, args) := RewriteTerms(pool, s, e.args).value;
    var (b1, rargs) := ReadTerms(b, e.args, true).value;
    DeclarationStrips(e.op, rargs);
    if IsLocalVarDeclaration(e.op, args) {
      FitsWithLocals(pool, s1, b1, s1.localVars[args[0].name := args[1]], datastore, tableNames);
    } else {
      LocalsStillMatch(s, s1, locals);
      SubstituteInlines(s1, locals, rargs);
    }
  }

  lemma FitsInPool(pool: seq<string>, s: State, datastore: string, tableNames: map<Elem, string>)
    requires Fits(pool, s, datastore, tableNames)
    ensures s.expectedDatastore == "" || s.expectedDatastore in pool
  {
  }

  lemma LocalsStillMatch(s: State, s1: State, locals: Locals)
    requires LocalsMatch(s, locals) && s1.localVars == s.localVars
    ensures LocalsMatch(s1, locals)
  {
  }

  lemma {:induction false} ExprsSucceed(pool: seq<string>, s: State, b: Bindings, locals: Locals, q: Body,
                                        datastore: string, tableNames: map<Elem, string>)
    requires "" !in pool && Related(s, b) && LocalsMatch(s, locals) && Fits(pool, s, datastore, tableNames)
    requires ReadBody(b, q).Some? && DeclaredFirst(ReadBody(b, q).value, locals.Keys)
    requires Agrees(datastore, tableNames, Columns(ReadBody(b, q).value))
    ensures TransformExprs(pool, s, q).Ok?
    decreases |q|
  {
    if q != [] {
      hide Agrees, ReadTerms, Fits, Declared, Columns, TermsColumns, LocalsMatch, Related, Noted, Extends,
        TransformExpr, InlineExpr, StripBody;
      var (b1, rargs) := ReadTerms(b, q[0].args, true).value;
      var body := ReadBody(b, q).value;
      assert body[1..] == ReadBody(b1, q[1..]).value && body[0].args == rargs;
      AgreesParts(datastore, tableNames, body);
      FitsInPool(pool, s, datastore, tableNames);
      ExprSucceeds(pool, s, b, locals, q[0], datastore, tableNames);
      ExprReads(pool, s, b, locals, q[0]);
      var after := LocalsAfter(body[0], locals);
      assert body[0].IsDeclaration() ==> after.Keys == locals.Keys + {body[0].args[0].name};
      ExprsSucceed(pool, TransformExpr(pool, s, q[0]).value.0, b1, after, q[1..], datastore, tableNames);
    }
  }

  /** The iterator of each table. */
  ghost function NamesOf(columns: set<RTerm>): (names: map<Elem, string>)
    requires forall c :: c in columns ==> c.RColumn?
    ensures forall c :: c in columns ==> Field(c.table) in names
    ensures forall t :: t in names ==> exists c :: c in columns && t == Field(c.table) && names[t] == c.iter
  {
    var tables := set c | c in columns :: Field(c.table);
    map t | t in tables :: (var d :| d in columns && Field(d.table) == t; d.iter)
  }

  /** For bodies of the language, preprocessing succeeds exactly when all columns are of one datastore
      of the pool, every table has one iterator, and local variables are declared before use. */
  lemma PreprocessingSucceedsExactly(pool: seq<string>, q: Body)
    requires "" !in pool && pool != [] && ReadBody(map[], q).Some?
    ensures var body := ReadBody(map[], q).value;
            TransformQuery(pool, q).Ok? <==>
            OneDatastoreOneIterator(pool, Columns(body)) && DeclaredFirst(body, {})
  {
    var body := ReadBody(map[], q).value;
    var locals: Locals := map[];
    assert locals.Keys == {};
    NothingKnown(locals);
    if TransformQuery(pool, q).Ok? {
      TransformReads(pool, INITIAL, map[], locals, q);
      NotedIsOneIterator(pool, TransformExprs(pool, INITIAL, q).value.0, Columns(body));
    }
    if OneDatastoreOneIterator(pool, Columns(body)) && DeclaredFirst(body, {}) {
      var datastore := if c :| c in Columns(body) then c.datastore else pool[0];
      hide ReadBody, DeclaredFirst, Columns;
      OneIteratorAgrees(pool, datastore, Columns(body));
      ExprsSucceed(pool, INITIAL, map[], locals, q, datastore, NamesOf(Columns(body)));
    }
  }

  lemma NothingKnown(locals: Locals)
    requires locals == map[]
    ensures Related(INITIAL, map[]) && LocalsMatch(INITIAL, locals)
  {
  }

  lemma NotedIsOneIterator(pool: seq<string>, s: State, columns: set<RTerm>)
    requires forall c :: c in columns ==> c.RColumn?
    requires Noted(s, columns) && (s.expectedDatastore == "" || s.expectedDatastore in pool)
    ensures OneDatastoreOneIterator(pool, columns)
  {
  }

  lemma OneIteratorAgrees(pool: seq<string>, datastore: string, columns: set<RTerm>)
    requires forall c :: c in columns ==> c.RColumn?
    requires OneDatastoreOneIterator(pool, columns) && datastore in pool
    requires columns != {} ==> exists c :: c in columns && c.datastore == datastore
    ensures Agrees(datastore, NamesOf(columns), columns) && Fits(pool, INITIAL, datastore, NamesOf(columns))
  {
  }

  /** Preprocessing forgets nothing: with the reported datastore and the noted iterators, the rewritten
      arguments of every expression can be read back, so different references stay different. */
  lemma RewritingIsReversible(pool: seq<string>, q: Body)
    requires "" !in pool && ReadBody(map[], q).Some? && TransformQuery(pool, q).Ok?
    ensures var body := ReadBody(map[], q).value;
            var result := TransformQuery(pool, q).value;
            var names := TransformExprs(pool, INITIAL, q).value.0.tableNames;
            && Agrees(result.datastore, names, Columns(body))
            && (Columns(body) != {} ==> result.datastore in pool)
            && result.query == StripBody(Inline(body, map[]))
            && forall i :: 0 <= i < |body| ==>
                 RestoreAll(result.datastore, names, StripAll(body[i].args)) == Some(body[i].args)
  {
    var body := ReadBody(map[], q).value;
    var locals: Locals := map[];
    assert Related(INITIAL, map[]) && LocalsMatch(INITIAL, locals);
    TransformReads(pool, INITIAL, map[], locals, q);
    var names := TransformExprs(pool, INITIAL, q).value.0.tableNames;
    var datastore := TransformQuery(pool, q).value.datastore;
    forall i | 0 <= i < |body|
      ensures RestoreAll(datastore, names, StripAll(body[i].args)) == Some(body[i].args)
    {
      ColumnsOfExpr(body, i);
      RestoreStripAll(datastore, names, body[i].args);
    }
  }

  lemma {:induction false} ColumnsOfExpr(body: seq<RExpr>, i: nat)
    requires i < |body|
    ensures TermsColumns(body[i].args) <= Columns(body)
  {
    if i > 0 {
      ColumnsOfExpr(body[1..], i - 1);
    }
  }
}
