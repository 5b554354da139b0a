/** Building of the query tree (internal/pkg/translate/default-processor.go). */
module Processor {
  import opened Results
  import opened Stacks
  import QueryAst
  import opened RegoAst

  datatype TranslationError = UnexpectedTerm(name: string) | UnexpectedChild(name: string)

  datatype ProcessError = NoEntity | InvalidRequestTranslation(causes: seq<TranslationError>)

  // ---------------------------------------------------------------- specification

  /** The operands a term contributes: one for scalars, two-step references and calls, those of its children
      for a composite, none for anything else. */
  function TermOperands(t: Term): seq<QueryAst.Operand>
    decreases t, 1
  {
    match t
    case Scalar(c) => [QueryAst.Const(c)]
    case Variable(_) => []
    case Ref(_, path) => if |path| == 2 then [QueryAst.Attribute(path[0].text, path[1].text)] else []
    case Builtin(op, args) => [QueryAst.Call(op, TermsOperands(args))]
    case Composite(_, children) => TermsOperands(children)
  }

  function TermsOperands(ts: seq<Term>): seq<QueryAst.Operand>
    decreases ts, 0
  {
    if ts == [] then [] else TermOperands(ts[0]) + TermsOperands(ts[1..])
  }

  /** The tables a term refers to, left to right. */
  function TermTables(t: Term): seq<string>
    decreases t, 1
  {
    match t
    case Scalar(_) => []
    case Variable(_) => []
    case Ref(_, path) => if |path| == 2 then [path[0].text] else []
    case Builtin(_, args) => TermsTables(args)
    case Composite(_, children) => TermsTables(children)
  }

  function TermsTables(ts: seq<Term>): seq<string>
    decreases ts, 0
  {
    if ts == [] then [] else TermTables(ts[0]) + TermsTables(ts[1..])
  }

  /** A variable or composite is reported as a term and once more as the child of that term; the children of
      a composite are visited all the same. */
  function TermErrors(t: Term): seq<TranslationError>
    decreases t, 1
  {
    match t
    case Scalar(_) => []
    case Variable(name) => [UnexpectedTerm(name), UnexpectedChild(name)]
    case Ref(_, _) => []
    case Builtin(_, args) => TermsErrors(args)
    case Composite(kind, children) => [UnexpectedTerm(kind), UnexpectedChild(kind)] + TermsErrors(children)
  }

  function TermsErrors(ts: seq<Term>): seq<TranslationError>
    decreases ts, 0
  {
    if ts == [] then [] else TermErrors(ts[0]) + TermsErrors(ts[1..])
  }

  function Elements<T>(s: seq<T>): set<T> {
    set x | x in s
  }

  function Clauses(q: Body): seq<QueryAst.Operand> {
    if q == [] then [] else [QueryAst.Call(q[0].op, TermsOperands(q[0].args))] + Clauses(q[1..])
  }

  function BodyTables(q: Body): seq<string> {
    if q == [] then [] else TermsTables(q[0].args) + BodyTables(q[1..])
  }

  function BodyErrors(q: Body): seq<TranslationError> {
    if q == [] then [] else TermsErrors(q[0].args) + BodyErrors(q[1..])
  }

  /** The tables that an expression joins. */
  function Joined(e: Expr): set<string> {
    var tables := Elements(TermsTables(e.args));
    if |tables| > 1 then tables else {}
  }

  /** The tables of the expressions that name at least two tables. */
  function SharedTables(q: Body): set<string> {
    if q == [] then {} else Joined(q[0]) + SharedTables(q[1..])
  }

  /** A query built from a body. The order of the joined entities is that of a Go map. */
  ghost predicate BuiltFrom(query: QueryAst.Query, q: Body) {
    && BodyTables(q) != []
    && query.from == BodyTables(q)[0]
    && query.clauses == Clauses(q)
    && (forall i, j :: 0 <= i < j < |query.link| ==> query.link[i] != query.link[j])
    && Elements(query.link) == SharedTables(q) - {query.from}
  }

  // ---------------------------------------------------------------- the processor object

  class AstProcessor {
    var fromEntity: Option<string>
    var link: set<string>
    var conjunctions: seq<QueryAst.Operand>
    var entities: set<string>
    var relations: seq<QueryAst.Operand>
    var operands: seq<seq<QueryAst.Operand>>
    var errors: seq<TranslationError>
    const skipUnknown: bool

    constructor (skipUnknown: bool)
      ensures this.skipUnknown == skipUnknown && fromEntity == None
    {
      this.skipUnknown := skipUnknown;
      fromEntity, link, conjunctions, entities, relations, operands, errors := None, {}, [], {}, [], [], [];
    }

    /** A body without a table leaves no entity to select from; the program then dereferences nil. */
    method Process(query: Body) returns (r: Result<QueryAst.Query, ProcessError>)
      requires fromEntity == None
      modifies this
      ensures BodyTables(query) == [] ==> r == Err(NoEntity)
      ensures BodyTables(query) != [] && !skipUnknown && BodyErrors(query) != [] ==>
                r == Err(InvalidRequestTranslation(BodyErrors(query)))
      ensures BodyTables(query) != [] && (skipUnknown || BodyErrors(query) == []) ==>
                r.Ok? && BuiltFrom(r.value, query)
    {
      link, conjunctions, entities, relations, operands, errors := {}, [], {}, [], [], [];
      TranslateQuery(query);
      if fromEntity.None? {
        return Err(NoEntity);
      }
      link := link - {fromEntity.value};
      var joined := Keys(link);
      var clause := QueryAst.Query(fromEntity.value, joined, conjunctions);
      conjunctions := [];
      fromEntity := None;
      link := {};
      if errors != [] {
        return Err(InvalidRequestTranslation(errors));
      }
      return Ok(clause);
    }

    method TranslateQuery(q: Body)
      requires fromEntity == None && link == {} && conjunctions == [] && entities == {} && relations == []
      requires operands == [] && errors == []
      modifies this
      ensures fromEntity == if BodyTables(q) == [] then None else Some(BodyTables(q)[0])
      ensures link == SharedTables(q)
      ensures conjunctions == Clauses(q)
      ensures errors == if skipUnknown then [] else BodyErrors(q)
      ensures operands == [] && entities == {} && relations == []
    {
      hide TermsOperands, TermsTables, TermsErrors, Joined;
      for i := 0 to |q|
        invariant operands == [] && entities == {} && conjunctions == []
        invariant fromEntity == FirstOf(None, BodyTables(q[..i]))
        invariant link == SharedTables(q[..i])
        invariant relations == Clauses(q[..i])
        invariant errors == if skipUnknown then [] else BodyErrors(q[..i])
      {
        TranslateExpr(q[i]);
        assert q[..i + 1] == q[..i] + [q[i]];
        BodySnoc(q[..i], q[i]);
        NotesSnoc(q[..i], q[i]);
      }
      assert q[..|q|] == q;
      conjunctions := conjunctions + relations;
      entities := {};
      relations := [];
    }

    method TranslateExpr(e: Expr)
      requires operands == [] && entities == {}
      modifies this
      ensures fromEntity == FirstOf(old(fromEntity), TermsTables(e.args))
      ensures link == old(link) + Joined(e)
      ensures relations == old(relations) + [QueryAst.Call(e.op, TermsOperands(e.args))]
      ensures errors == old(errors) + if skipUnknown then [] else TermsErrors(e.args)
      ensures operands == [] && entities == {} && conjunctions == old(conjunctions)
    {
      hide TermsOperands, TermsTables, TermsErrors, Elements, WithTops, FirstOf;
      operands := operands + [[]];
      assert operands == [[]];
      TranslateTerms(e.args);
      WithTopsOfOne(TermsOperands(e.args));
      assert operands == [TermsOperands(e.args)] && entities == Elements(TermsTables(e.args));
      var functionOperands := operands[|operands| - 1];
      operands := operands[..|operands| - 1];
      if |entities| > 1 {
        link := link + entities;
      }
      assert link == old(link) + Joined(e);
      relations := relations + [QueryAst.Call(e.op, functionOperands)];
      entities := {};
    }

    method TranslateTerms(ts: seq<Term>)
      requires operands != []
      modifies this
      ensures operands == WithTops(old(operands), TermsOperands(ts))
      ensures entities == old(entities) + Elements(TermsTables(ts))
      ensures fromEntity == FirstOf(old(fromEntity), TermsTables(ts))
      ensures errors == old(errors) + if skipUnknown then [] else TermsErrors(ts)
      ensures unchanged(`link, `conjunctions, `relations)
      decreases ts, 0
    {
      WithTopsNothing(operands);
      for i := 0 to |ts|
        invariant operands != [] && operands == WithTops(old(operands), TermsOperands(ts[..i]))
        invariant entities == old(entities) + Elements(TermsTables(ts[..i]))
        invariant fromEntity == FirstOf(old(fromEntity), TermsTables(ts[..i]))
        invariant errors == old(errors) + if skipUnknown then [] else TermsErrors(ts[..i])
        invariant unchanged(`link, `conjunctions, `relations)
      {
        TranslateTerm(ts[i]);
        assert ts[..i + 1] == ts[..i] + [ts[i]];
        TermsSnoc(ts[..i], ts[i]);
        WithTopsTwice(old(operands), TermsOperands(ts[..i]), TermOperands(ts[i]));
      }
      assert ts[..|ts|] == ts;
    }

    method TranslateTerm(t: Term)
      requires operands != []
      modifies this
      ensures operands == WithTops(old(operands), TermOperands(t))
      ensures entities == old(entities) + Elements(TermTables(t))
      ensures fromEntity == FirstOf(old(fromEntity), TermTables(t))
      ensures errors == old(errors) + if skipUnknown then [] else TermErrors(t)
      ensures unchanged(`link, `conjunctions, `relations)
      decreases t, 1
    {
      hide TermsOperands, TermsTables, TermsErrors;
      match t
      case Scalar(c) =>
        operands := WithTop(operands, QueryAst.Const(c));
      case Ref(_, path) =>
        if |path| == 2 {
          var entity := path[0].text;
          entities := entities + {entity};
          if fromEntity.None? {
            fromEntity := Some(entity);
          }
          operands := WithTop(operands, QueryAst.Attribute(entity, path[1].text));
        } else {
          WithTopsNothing(operands);
        }
      case Builtin(op, args) => TranslateCall(op, args);
      case Variable(name) =>
        WithTopsNothing(operands);
        if !skipUnknown {
          errors := errors + [UnexpectedTerm(name)];
          errors := errors + [UnexpectedChild(name)];
        }
      case Composite(kind, children) =>
        if !skipUnknown {
          errors := errors + [UnexpectedTerm(kind)];
          errors := errors + [UnexpectedChild(kind)];
        }
        TranslateTerms(children);
    }

    method TranslateCall(op: string, args: seq<Term>)
      requires operands != []
      modifies this
      ensures operands == WithTops(old(operands), [QueryAst.Call(op, TermsOperands(args))])
      ensures entities == old(entities) + Elements(TermsTables(args))
      ensures fromEntity == FirstOf(old(fromEntity), TermsTables(args))
      ensures errors == old(errors) + if skipUnknown then [] else TermsErrors(args)
      ensures unchanged(`link, `conjunctions, `relations)
      decreases args, 1
    {
      hide TermsOperands, TermsTables, TermsErrors, Elements;
      operands := operands + [[]];
      TranslateTerms(args);
      var functionOperands := operands[|operands| - 1];
      operands := operands[..|operands| - 1];
      assert operands == old(operands);
      assert [] + TermsOperands(args) == TermsOperands(args);
      operands := WithTop(operands, QueryAst.Call(op, functionOperands));
    }
  }

  /** The keys of a Go map in its iteration order. */
  method Keys(input: set<string>) returns (result: seq<string>)
    ensures Elements(result) == input
    ensures forall i, j :: 0 <= i < j < |result| ==> result[i] != result[j]
  {
    result := [];
    var rest := input;
    while rest != {}
      invariant rest <= input
      invariant Elements(result) == input - rest
      invariant forall i, j :: 0 <= i < j < |result| ==> result[i] != result[j]
      decreases rest
    {
      var k :| k in rest;
      assert k !in Elements(result);
      assert Elements(result + [k]) == Elements(result) + {k};
      result := result + [k];
      rest := rest - {k};
    }
  }

  function FirstOf(known: Option<string>, tables: seq<string>): Option<string> {
    if known.Some? || tables == [] then known else Some(tables[0])
  }

  lemma TermsSnoc(ts: seq<Term>, last: Term)
    ensures TermsOperands(ts + [last]) == TermsOperands(ts) + TermOperands(last)
    ensures TermsTables(ts + [last]) == TermsTables(ts) + TermTables(last)
    ensures TermsErrors(ts + [last]) == TermsErrors(ts) + TermErrors(last)
  {
    hide *;
    OperandsSnoc(ts, last);
    TablesSnoc(ts, last);
    ErrorsSnoc(ts, last);
  }

  lemma {:induction false} OperandsSnoc(ts: seq<Term>, last: Term)
    ensures TermsOperands(ts + [last]) == TermsOperands(ts) + TermOperands(last)
  {
    hide TermOperands;
    if ts == [] {
      assert [] + [last] == [last] && [last][1..] == [];
    } else {
      var all := ts + [last];
      assert all[0] == ts[0] && all[1..] == ts[1..] + [last];
      OperandsSnoc(ts[1..], last);
      assert TermsOperands(all) == TermOperands(ts[0]) + (TermsOperands(ts[1..]) + TermOperands(last));
    }
  }

  lemma {:induction false} TablesSnoc(ts: seq<Term>, last: Term)
    ensures TermsTables(ts + [last]) == TermsTables(ts) + TermTables(last)
  {
    hide TermTables;
    if ts == [] {
      assert [] + [last] == [last] && [last][1..] == [];
    } else {
      var all := ts + [last];
      assert all[0] == ts[0] && all[1..] == ts[1..] + [last];
      TablesSnoc(ts[1..], last);
      assert TermsTables(all) == TermTables(ts[0]) + (TermsTables(ts[1..]) + TermTables(last));
    }
  }

  lemma {:induction false} ErrorsSnoc(ts: seq<Term>, last: Term)
    ensures TermsErrors(ts + [last]) == TermsErrors(ts) + TermErrors(last)
  {
    hide TermErrors;
    if ts == [] {
      assert [] + [last] == [last] && [last][1..] == [];
    } else {
      var all := ts + [last];
      assert all[0] == ts[0] && all[1..] == ts[1..] + [last];
      ErrorsSnoc(ts[1..], last);
      assert TermsErrors(all) == TermErrors(ts[0]) + (TermsErrors(ts[1..]) + TermErrors(last));
    }
  }

  lemma {:induction false} BodySnoc(q: Body, last: Expr)
    ensures Clauses(q + [last]) == Clauses(q) + [QueryAst.Call(last.op, TermsOperands(last.args))]
    ensures BodyTables(q + [last]) == BodyTables(q) + TermsTables(last.args)
  {
    hide TermsOperands, TermsTables;
    if q == [] {
      assert [last][1..] == [] && [] + [last] == [last];
    } else {
      assert (q + [last])[1..] == q[1..] + [last];
      BodySnoc(q[1..], last);
    }
  }

  lemma {:induction false} NotesSnoc(q: Body, last: Expr)
    ensures BodyErrors(q + [last]) == BodyErrors(q) + TermsErrors(last.args)
    ensures SharedTables(q + [last]) == SharedTables(q) + Joined(last)
  {
    hide TermsErrors, Joined;
    if q == [] {
      assert [last][1..] == [] && [] + [last] == [last];
    } else {
      assert (q + [last])[1..] == q[1..] + [last];
      NotesSnoc(q[1..], last);
    }
  }
}
