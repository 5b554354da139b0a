/** Rewriting of references and inlining of local variables
    (internal/pkg/translate/default-preprocessor.go). */
module Preprocessor {
  import opened Results
  import opened RegoAst

  datatype PreprocessError =
    | NotAString
    | InvalidDatastore
    | WrongDatastore
    | RefTooShort
    | RowIdentifierNotAVariable
    | SelfLink
    | UndefinedVariable(name: string)

  /** The maps of the preprocessor while it works on one query. A table prefix is the head of the
      reference and its table element. */
  datatype State = State(
    tableNames: map<Elem, string>,
    tableVars: map<string, (string, Elem)>,
    localVars: map<string, Term>,
    expectedDatastore: string)

  const INITIAL := State(map[], map[], map[], "")

  // ---------------------------------------------------------------- specification

  function RewriteRef(pool: seq<string>, s: State, head: string, path: seq<Elem>):
    Result<(State, Term), PreprocessError>
  {
    if path == [] then Ok((s, Ref(head, path)))
    else if head in s.tableVars then
      var (prefixHead, table) := s.tableVars[head];
      Ok((s, Ref(prefixHead, [table] + path)))
    else if !path[0].Field? then Err(NotAString)
    else if s.expectedDatastore == "" && path[0].text !in pool then Err(InvalidDatastore)
    else
      var expected := if s.expectedDatastore == "" then path[0].text else s.expectedDatastore;
      if head == "data" && path[0].text != expected then Err(WrongDatastore)
      else if |path| < 3 then Err(RefTooShort)
      else if !path[2].Iterator? then Err(RowIdentifierNotAVariable)
      else
        var table, rowID := path[1], path[2].text;
        if table in s.tableNames && s.tableNames[table] != rowID then Err(SelfLink)
        else
          Ok((s.(tableVars := s.tableVars[rowID := (head, table)],
                 tableNames := s.tableNames[table := rowID],
                 expectedDatastore := expected),
              Ref(head, [table] + path[3..])))
  }

  /** ast.TransformRefs: rewrites every reference of a term, left to right. */
  function RewriteTerm(pool: seq<string>, s: State, t: Term): Result<(State, Term), PreprocessError>
    decreases t, 1
  {
    match t
    case Scalar(_) => Ok((s, t))
    case Variable(_) => Ok((s, t))
    case Ref(head, path) => RewriteRef(pool, s, head, path)
    case Builtin(op, args) =>
      var (s', args') :- RewriteTerms(pool, s, args);
      Ok((s', Builtin(op, args')))
    case Composite(kind, children) =>
      var (s', children') :- RewriteTerms(pool, s, children);
      Ok((s', Composite(kind, children')))
  }

  function RewriteTerms(pool: seq<string>, s: State, ts: seq<Term>): Result<(State, seq<Term>), PreprocessError>
    decreases ts, 0
  {
    if ts == [] then Ok((s, []))
    else
      var (s1, first) :- RewriteTerm(pool, s, ts[0]);
      var (s2, rest) :- RewriteTerms(pool, s1, ts[1..]);
      Ok((s2, [first] + rest))
  }

  /** eq(<variable>, <reference>) declares a local variable. */
  predicate IsLocalVarDeclaration(op: string, args: seq<Term>) {
    op == "eq" && |args| == 2 && args[0].Variable? && args[1].Ref?
  }

  function SubstituteTerms(localVars: map<string, Term>, ts: seq<Term>): Result<seq<Term>, PreprocessError> {
    if ts == [] then Ok([])
    else if ts[0].Variable? && ts[0].name !in localVars then Err(UndefinedVariable(ts[0].name))
    else
      var rest :- SubstituteTerms(localVars, ts[1..]);
      Ok([if ts[0].Variable? then localVars[ts[0].name] else ts[0]] + rest)
  }

  /** One expression: a declaration is stored and leaves nothing, anything else leaves its
      substituted form. The negation flag is not carried over. */
  function TransformExpr(pool: seq<string>, s: State, e: Expr): Result<(State, Body), PreprocessError> {
    var (s1, args) :- RewriteTerms(pool, s, e.args);
    if IsLocalVarDeclaration(e.op, args) then
      Ok((s1.(localVars := s1.localVars[args[0].name := args[1]]), []))
    else
      var substituted :- SubstituteTerms(s1.localVars, args);
      Ok((s1, [Expr(false, e.op, substituted)]))
  }

  function TransformExprs(pool: seq<string>, s: State, q: Body): Result<(State, Body), PreprocessError>
    decreases |q|
  {
    if q == [] then Ok((s, []))
    else
      var (s1, first) :- TransformExpr(pool, s, q[0]);
      var (s2, rest) :- TransformExprs(pool, s1, q[1..]);
      Ok((s2, first + rest))
  }

  datatype PreprocessedQuery = PreprocessedQuery(query: Body, datastore: string)

  function TransformQuery(pool: seq<string>, q: Body): Result<PreprocessedQuery, PreprocessError> {
    var (s, query) :- TransformExprs(pool, INITIAL, q);
    Ok(PreprocessedQuery(query, s.expectedDatastore))
  }

  /** Every query on its own, in order; the first error ends it. */
  function TransformQueries(pool: seq<string>, qs: seq<Body>): Result<seq<PreprocessedQuery>, PreprocessError> {
    if qs == [] then Ok([])
    else
      var first :- TransformQuery(pool, qs[0]);
      var rest :- TransformQueries(pool, qs[1..]);
      Ok([first] + rest)
  }

  /** The k-th query is the first one that is refused. */
  predicate FirstRefused(pool: seq<string>, qs: seq<Body>, k: nat, e: PreprocessError) {
    && k < |qs| && TransformQuery(pool, qs[k]) == Err(e)
    && forall j :: 0 <= j < k ==> TransformQuery(pool, qs[j]).Ok?
  }

  /** All queries are accepted and nothing but their results is returned, in order; or one is refused, and its
      error is returned. */
  ghost predicate EachTransformed(pool: seq<string>, qs: seq<Body>, r: Result<seq<PreprocessedQuery>, PreprocessError>)
  {
    match r
    case Ok(out) => |out| == |qs| && forall k :: 0 <= k < |qs| ==> TransformQuery(pool, qs[k]) == Ok(out[k])
    case Err(e) => exists k: nat :: FirstRefused(pool, qs, k, e)
  }

  lemma {:induction false} QueriesOneByOne(pool: seq<string>, qs: seq<Body>)
    ensures EachTransformed(pool, qs, TransformQueries(pool, qs))
    ensures TransformQueries(pool, qs).Ok? <==> forall k :: 0 <= k < |qs| ==> TransformQuery(pool, qs[k]).Ok?
    decreases |qs|
  {
    hide TransformQuery;
    if qs != [] {
      QueriesOneByOne(pool, qs[1..]);
      var first, rest := TransformQuery(pool, qs[0]), TransformQueries(pool, qs[1..]);
      assert forall k :: 0 < k < |qs| ==> qs[k] == qs[1..][k - 1];
      if first.Err? {
        assert FirstRefused(pool, qs, 0, first.error);
      } else if rest.Err? {
        var k: nat :| FirstRefused(pool, qs[1..], k, rest.error);
        assert FirstRefused(pool, qs, k + 1, rest.error);
      }
    }
  }

  // ---------------------------------------------------------------- the preprocessor object

  class AstPreprocessor {
    var tableNames: map<Elem, string>
    var tableVars: map<string, (string, Elem)>
    var localVars: map<string, Term>
    var datastorePool: seq<string>
    var expectedDatastore: string

    function Current(): State
      reads this
    {
      State(tableNames, tableVars, localVars, expectedDatastore)
    }

    constructor ()
    {
      tableNames, tableVars, localVars, datastorePool, expectedDatastore := map[], map[], map[], [], "";
    }

    /** State left by one query never reaches the next one. */
    method Process(queries: seq<Body>, datastores: seq<string>)
      returns (r: Result<seq<PreprocessedQuery>, PreprocessError>)
      modifies this
      ensures r == TransformQueries(datastores, queries)
      ensures EachTransformed(datastores, queries, r)
    {
      QueriesOneByOne(datastores, queries);
      datastorePool := datastores;
      var transformed: seq<PreprocessedQuery> := [];
      ghost var all := TransformQueries(datastores, queries);
      assert queries[0..] == queries && (all.Ok? ==> [] + all.value == all.value);
      for i := 0 to |queries|
        invariant datastorePool == datastores
        invariant match TransformQueries(datastores, queries[i..])
                  case Ok(rest) => TransformQueries(datastores, queries) == Ok(transformed + rest)
                  case Err(e) => TransformQueries(datastores, queries) == Err(e)
      {
        var one := TransformOne(queries[i]);
        assert queries[i..][1..] == queries[i + 1..];
        if one.Err? {
          return Err(one.error);
        }
        ghost var rest := TransformQueries(datastores, queries[i + 1..]);
        assert rest.Ok? ==> transformed + ([one.value] + rest.value) == transformed + [one.value] + rest.value;
        transformed := transformed + [one.value];
      }
      assert transformed + [] == transformed;
      return Ok(transformed);
    }

    method TransformOne(q: Body) returns (r: Result<PreprocessedQuery, PreprocessError>)
      modifies this
      ensures datastorePool == old(datastorePool)
      ensures r == TransformQuery(datastorePool, q)
    {
      tableNames := map[];
      tableVars := map[];
      localVars := map[];
      expectedDatastore := "";
      var transformedExprs: Body := [];
      ghost var whole := TransformExprs(datastorePool, INITIAL, q);
      assert q[0..] == q && (whole.Ok? ==> [] + whole.value.1 == whole.value.1);
      for i := 0 to |q|
        invariant datastorePool == old(datastorePool)
        invariant match TransformExprs(datastorePool, Current(), q[i..])
                  case Ok((s, rest)) => whole == Ok((s, transformedExprs + rest))
                  case Err(e) => whole == Err(e)
      {
        hide TransformExpr;
        assert q[i..][1..] == q[i + 1..];
        var trans := TransformOneExpr(q[i]);
        if trans.Err? {
          return Err(trans.error);
        }
        ghost var rest := TransformExprs(datastorePool, Current(), q[i + 1..]);
        assert rest.Ok? ==>
            transformedExprs + (trans.value + rest.value.1) == transformedExprs + trans.value + rest.value.1;
        transformedExprs := transformedExprs + trans.value;
      }
      assert transformedExprs + [] == transformedExprs;
      return Ok(PreprocessedQuery(transformedExprs, expectedDatastore));
    }

    /** No expression is left of a local variable declaration. */
    method TransformOneExpr(e: Expr) returns (r: Result<Body, PreprocessError>)
      modifies this
      ensures datastorePool == old(datastorePool)
      ensures match TransformExpr(datastorePool, old(Current()), e)
              case Ok((s, out)) => r == Ok(out) && Current() == s
              case Err(error) => r == Err(error)
    {
      var terms := TransformTerms(e.args);
      if terms.Err? {
        return Err(terms.error);
      }
      var substituted := SubstituteVars(e.op, terms.value);
      if substituted.Err? {
        return Err(substituted.error);
      }
      return Ok(if substituted.value.Some? then [Expr(false, e.op, substituted.value.value)] else []);
    }

    method TransformRefs(t: Term) returns (r: Result<Term, PreprocessError>)
      modifies this
      ensures datastorePool == old(datastorePool)
      ensures match RewriteTerm(datastorePool, old(Current()), t)
              case Ok((s, t')) => r == Ok(t') && Current() == s
              case Err(e) => r == Err(e)
      decreases t, 1
    {
      match t
      case Scalar(_) => r := Ok(t);
      case Variable(_) => r := Ok(t);
      case Ref(head, path) => r := TransformRef(head, path);
      case Builtin(op, args) =>
        var done := TransformTerms(args);
        r := if done.Ok? then Ok(Builtin(op, done.value)) else Err(done.error);
      case Composite(kind, children) =>
        var done := TransformTerms(children);
        r := if done.Ok? then Ok(Composite(kind, done.value)) else Err(done.error);
    }

    method TransformTerms(ts: seq<Term>) returns (r: Result<seq<Term>, PreprocessError>)
      modifies this
      ensures datastorePool == old(datastorePool)
      ensures match RewriteTerms(datastorePool, old(Current()), ts)
              case Ok((s, ts')) => r == Ok(ts') && Current() == s
              case Err(e) => r == Err(e)
      decreases ts, 0
    {
      var done: seq<Term> := [];
      ghost var before := Current();
      ghost var all := RewriteTerms(datastorePool, before, ts);
      assert ts[0..] == ts && (all.Ok? ==> [] + all.value.1 == all.value.1);
      for i := 0 to |ts|
        invariant datastorePool == old(datastorePool)
        invariant match RewriteTerms(datastorePool, Current(), ts[i..])
                  case Ok((s, rest)) => RewriteTerms(datastorePool, before, ts) == Ok((s, done + rest))
                  case Err(e) => RewriteTerms(datastorePool, before, ts) == Err(e)
      {
        assert ts[i..][1..] == ts[i + 1..];
        var one := TransformRefs(ts[i]);
        if one.Err? {
          return Err(one.error);
        }
        ghost var rest := RewriteTerms(datastorePool, Current(), ts[i + 1..]);
        assert rest.Ok? ==> done + ([one.value] + rest.value.1) == done + [one.value] + rest.value.1;
        done := done + [one.value];
      }
      assert done + [] == done;
      return Ok(done);
    }

    method TransformRef(head: string, path: seq<Elem>) returns (r: Result<Term, PreprocessError>)
      modifies this
      ensures datastorePool == old(datastorePool)
      ensures match RewriteRef(datastorePool, old(Current()), head, path)
              case Ok((s, t)) => r == Ok(t) && Current() == s
              case Err(e) => r == Err(e)
    {
      if path == [] {
        return Ok(Ref(head, path));
      }
      if head in tableVars {
        return Ok(Ref(tableVars[head].0, [tableVars[head].1] + path));
      }
      if !path[0].Field? {
        return Err(NotAString);
      }
      if expectedDatastore == "" {
        if path[0].text !in datastorePool {
          return Err(InvalidDatastore);
        }
        expectedDatastore := path[0].text;
      }
      if head == "data" && path[0].text != expectedDatastore {
        return Err(WrongDatastore);
      }
      if |path| < 3 {
        return Err(RefTooShort);
      }
      if !path[2].Iterator? {
        return Err(RowIdentifierNotAVariable);
      }
      var rowID := path[2].text;
      tableVars := tableVars[rowID := (head, path[1])];
      if path[1] in tableNames && tableNames[path[1]] != rowID {
        return Err(SelfLink);
      }
      tableNames := tableNames[path[1] := rowID];
      return Ok(Ref(head, [path[1]] + path[3..]));
    }

    /** None for a local variable declaration. */
    method SubstituteVars(op: string, terms: seq<Term>) returns (r: Result<Option<seq<Term>>, PreprocessError>)
      modifies this
      ensures datastorePool == old(datastorePool)
      ensures if IsLocalVarDeclaration(op, terms)
              then r == Ok(None)
                   && Current() == old(Current()).(localVars := old(localVars)[terms[0].name := terms[1]])
              else Current() == old(Current())
                   && match SubstituteTerms(localVars, terms)
                      case Ok(ts) => r == Ok(Some(ts))
                      case Err(e) => r == Err(e)
    {
      if IsLocalVarDeclaration(op, terms) {
        localVars := localVars[terms[0].name := terms[1]];
        return Ok(None);
      }
      hide IsLocalVarDeclaration;
      var transformed: seq<Term> := [];
      ghost var all := SubstituteTerms(localVars, terms);
      assert terms[0..] == terms && (all.Ok? ==> [] + all.value == all.value);
      for i := 0 to |terms|
        invariant Current() == old(Current()) && datastorePool == old(datastorePool)
        invariant match SubstituteTerms(localVars, terms[i..])
                  case Ok(rest) => SubstituteTerms(localVars, terms) == Ok(transformed + rest)
                  case Err(e) => SubstituteTerms(localVars, terms) == Err(e)
      {
        assert terms[i..][1..] == terms[i + 1..];
        var term := terms[i];
        if term.Variable? {
          if term.name !in localVars {
            return Err(UndefinedVariable(term.name));
          }
          term := localVars[term.name];
        }
        ghost var rest := SubstituteTerms(localVars, terms[i + 1..]);
        assert rest.Ok? ==> transformed + ([term] + rest.value) == transformed + [term] + rest.value;
        transformed := transformed + [term];
      }
      assert transformed + [] == transformed;
      return Ok(Some(transformed));
    }
  }
}
