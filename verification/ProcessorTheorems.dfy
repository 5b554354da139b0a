/** What the processor keeps of a body, and which tables end up in From and Link. */
module ProcessorTheorems {
  import QueryAst
  import opened RegoAst
  import opened Processor
  import AstTranslator

  // ---------------------------------------------------------------- nothing is lost

  /** Reads a query tree back as terms. */
  function Untranslate(o: QueryAst.Operand): Term
    decreases o, 1
  {
    match o
    case Attribute(entity, name) => Ref("data", [Field(entity), Field(name)])
    case Const(c) => Scalar(c)
    case Call(op, args) => Builtin(op, UntranslateAll(args))
  }

  function UntranslateAll(os: seq<QueryAst.Operand>): (r: seq<Term>)
    ensures |r| == |os|
    decreases os, 0
  {
    if os == [] then [] else [Untranslate(os[0])] + UntranslateAll(os[1..])
  }

  /** Terms made of scalars, references data.<table>.<column> and calls. */
  predicate Plain(t: Term)
    decreases t, 1
  {
    match t
    case Scalar(_) => true
    case Variable(_) => false
    case Ref(head, path) => head == "data" && |path| == 2 && path[0].Field? && path[1].Field?
    case Builtin(_, args) => PlainAll(args)
    case Composite(_, _) => false
  }

  predicate PlainAll(ts: seq<Term>)
    decreases ts, 0
  {
    ts == [] || (Plain(ts[0]) && PlainAll(ts[1..]))
  }

  lemma {:induction false} ReadBackIsPlain(o: QueryAst.Operand)
    ensures Plain(Untranslate(o))
    decreases o, 1
  {
    if o.Call? {
      AllReadBackIsPlain(o.args);
    }
  }

  lemma {:induction false} AllReadBackIsPlain(os: seq<QueryAst.Operand>)
    ensures PlainAll(UntranslateAll(os))
    decreases os, 0
  {
    if os != [] {
      ReadBackIsPlain(os[0]);
      AllReadBackIsPlain(os[1..]);
    }
  }

  /** A term is translated without loss, with one operand per term at every depth, exactly when
      it is plain. */
  lemma {:induction false} TermRoundTrip(t: Term)
    ensures Plain(t) <==> |TermOperands(t)| == 1 && Untranslate(TermOperands(t)[0]) == t
    decreases t, 1
  {
    if |TermOperands(t)| == 1 {
      ReadBackIsPlain(TermOperands(t)[0]);
    }
    if Plain(t) {
      match t
      case Scalar(_) =>
      case Ref(head, path) =>
        assert path == [path[0], path[1]];
      case Builtin(op, args) =>
        TermsRoundTrip(args);
    }
  }

  lemma {:induction false} TermsRoundTrip(ts: seq<Term>)
    ensures PlainAll(ts) <==> UntranslateAll(TermsOperands(ts)) == ts
    decreases ts, 0
  {
    AllReadBackIsPlain(TermsOperands(ts));
    if ts != [] && PlainAll(ts) {
      TermRoundTrip(ts[0]);
      TermsRoundTrip(ts[1..]);
      var first, rest := TermOperands(ts[0])[0], TermsOperands(ts[1..]);
      assert TermsOperands(ts) == [first] + rest && ([first] + rest)[1..] == rest;
      assert ts == [ts[0]] + ts[1..];
    }
  }

  /** For bodies without negation, reading the clauses back gives the body, call by call, exactly
      when all terms are plain. */
  lemma {:induction false} BodyRoundTrip(q: Body)
    requires forall i :: 0 <= i < |q| ==> !q[i].negated
    ensures |Clauses(q)| == |q|
    ensures (forall i :: 0 <= i < |q| ==> PlainAll(q[i].args)) <==>
            forall i :: 0 <= i < |q| ==>
              Clauses(q)[i].Call? && Expr(false, Clauses(q)[i].op, UntranslateAll(Clauses(q)[i].args)) == q[i]
  {
    ClausesByIndex(q);
    forall i | 0 <= i < |q|
      ensures PlainAll(q[i].args) <==> Expr(false, Clauses(q)[i].op, UntranslateAll(Clauses(q)[i].args)) == q[i]
    {
      TermsRoundTrip(q[i].args);
    }
  }

  lemma {:induction false} ClausesByIndex(q: Body)
    ensures |Clauses(q)| == |q|
    ensures forall i :: 0 <= i < |q| ==> Clauses(q)[i] == QueryAst.Call(q[i].op, TermsOperands(q[i].args))
  {
    if q != [] {
      ClausesByIndex(q[1..]);
    }
  }

  // ---------------------------------------------------------------- what is reported

  /** The term and everything below it: a term before the terms it is made of, these from left to right. */
  function Preorder(t: Term): seq<Term>
    decreases t, 1
  {
    [t] + match t
          case Builtin(_, args) => PreorderAll(args)
          case Composite(_, children) => PreorderAll(children)
          case _ => []
  }

  function PreorderAll(ts: seq<Term>): seq<Term>
    decreases ts, 0
  {
    if ts == [] then [] else Preorder(ts[0]) + PreorderAll(ts[1..])
  }

  /** The processor does not know the term: null, an array, an object, a set or a variable. */
  predicate Unknown(t: Term) {
    t.Composite? || t.Variable?
  }

  function UnknownName(t: Term): string
    requires Unknown(t)
  {
    match t case Composite(kind, _) => kind case Variable(name) => name
  }

  /** Every unknown term is reported twice. */
  function Complaints(ts: seq<Term>): seq<TranslationError> {
    if ts == [] then []
    else
      (if Unknown(ts[0]) then [UnexpectedTerm(UnknownName(ts[0])), UnexpectedChild(UnknownName(ts[0]))] else [])
      + Complaints(ts[1..])
  }

  lemma {:induction false} ComplaintsAppend(a: seq<Term>, b: seq<Term>)
    ensures Complaints(a + b) == Complaints(a) + Complaints(b)
  {
    if a == [] {
      assert a + b == b;
    } else {
      assert (a + b)[0] == a[0] && (a + b)[1..] == a[1..] + b;
      ComplaintsAppend(a[1..], b);
      var first :=
        if Unknown(a[0]) then [UnexpectedTerm(UnknownName(a[0])), UnexpectedChild(UnknownName(a[0]))] else [];
      assert Complaints(a) == first + Complaints(a[1..]);
      assert Complaints(a + b) == first + (Complaints(a[1..]) + Complaints(b));
    }
  }

  lemma {:induction false} TermComplaints(t: Term)
    ensures TermErrors(t) == Complaints(Preorder(t))
    decreases t, 1
  {
    match t
    case Scalar(_) =>
    case Variable(_) =>
    case Ref(_, _) =>
    case Builtin(_, args) =>
      TermsComplaints(args);
      assert ([t] + PreorderAll(args))[1..] == PreorderAll(args);
    case Composite(_, children) =>
      TermsComplaints(children);
      assert ([t] + PreorderAll(children))[1..] == PreorderAll(children);
  }

  lemma {:induction false} TermsComplaints(ts: seq<Term>)
    ensures TermsErrors(ts) == Complaints(PreorderAll(ts))
    decreases ts, 0
  {
    if ts != [] {
      TermComplaints(ts[0]);
      TermsComplaints(ts[1..]);
      ComplaintsAppend(Preorder(ts[0]), PreorderAll(ts[1..]));
    }
  }

  /** The terms of all expressions, at any depth. */
  function BodyTerms(q: Body): seq<Term> {
    if q == [] then [] else PreorderAll(q[0].args) + BodyTerms(q[1..])
  }

  /** The processor complains about the unknown terms of a body, at any depth, in the order in which they are
      visited, and about nothing else. */
  lemma {:induction false} UnknownTermsAreReported(q: Body)
    ensures BodyErrors(q) == Complaints(BodyTerms(q))
    ensures BodyErrors(q) == [] <==> forall t :: t in BodyTerms(q) ==> !t.Variable? && !t.Composite?
  {
    NoComplaints(BodyTerms(q));
    if q != [] {
      TermsComplaints(q[0].args);
      UnknownTermsAreReported(q[1..]);
      ComplaintsAppend(PreorderAll(q[0].args), BodyTerms(q[1..]));
    }
  }

  lemma {:induction false} NoComplaints(ts: seq<Term>)
    ensures Complaints(ts) == [] <==> forall t :: t in ts ==> !t.Variable? && !t.Composite?
  {
    if ts != [] {
      NoComplaints(ts[1..]);
      assert ts == [ts[0]] + ts[1..];
    }
  }

  /** The tables of the references among the terms. */
  function TablesAmong(ts: seq<Term>): seq<string> {
    if ts == [] then []
    else (if ts[0].Ref? && |ts[0].path| == 2 then [ts[0].path[0].text] else []) + TablesAmong(ts[1..])
  }

  lemma {:induction false} TablesAmongAppend(a: seq<Term>, b: seq<Term>)
    ensures TablesAmong(a + b) == TablesAmong(a) + TablesAmong(b)
  {
    if a == [] {
      assert a + b == b;
    } else {
      assert (a + b)[0] == a[0] && (a + b)[1..] == a[1..] + b;
      TablesAmongAppend(a[1..], b);
      var first := if a[0].Ref? && |a[0].path| == 2 then [a[0].path[0].text] else [];
      assert TablesAmong(a + b) == first + (TablesAmong(a[1..]) + TablesAmong(b));
    }
  }

  lemma {:induction false} TermTablesAmong(t: Term)
    ensures TermTables(t) == TablesAmong(Preorder(t))
    decreases t, 1
  {
    match t
    case Scalar(_) =>
    case Variable(_) =>
    case Ref(_, _) =>
      assert Preorder(t)[1..] == [];
    case Builtin(op, args) =>
      TermsTablesAmong(args);
      assert ([t] + PreorderAll(args))[1..] == PreorderAll(args);
    case Composite(_, children) =>
      TermsTablesAmong(children);
      assert ([t] + PreorderAll(children))[1..] == PreorderAll(children);
  }

  lemma {:induction false} TermsTablesAmong(ts: seq<Term>)
    ensures TermsTables(ts) == TablesAmong(PreorderAll(ts))
    decreases ts, 0
  {
    if ts != [] {
      TermTablesAmong(ts[0]);
      TermsTablesAmong(ts[1..]);
      TablesAmongAppend(Preorder(ts[0]), PreorderAll(ts[1..]));
    }
  }

  lemma {:induction false} BodyTablesAmong(q: Body)
    ensures BodyTables(q) == TablesAmong(BodyTerms(q))
  {
    if q != [] {
      TermsTablesAmong(q[0].args);
      BodyTablesAmong(q[1..]);
      TablesAmongAppend(PreorderAll(q[0].args), BodyTerms(q[1..]));
    }
  }

  lemma {:induction false} SomeTableAmong(ts: seq<Term>)
    ensures TablesAmong(ts) != [] <==> exists t :: t in ts && t.Ref? && |t.path| == 2
  {
    if ts != [] {
      SomeTableAmong(ts[1..]);
      assert ts == [ts[0]] + ts[1..];
      assert ts[0] in ts;
    }
  }

  /** The processor accepts a body exactly when some term of it, at any depth, names a table and a column, and no
      term of it is unknown, unless unknown terms are skipped. */
  lemma TranslatableExactly(skipUnknown: bool, q: Body)
    ensures AstTranslator.Translatable(skipUnknown, q) <==>
            && (exists t :: t in BodyTerms(q) && t.Ref? && |t.path| == 2)
            && (skipUnknown || forall t :: t in BodyTerms(q) ==> !t.Variable? && !t.Composite?)
  {
    hide BodyTerms, BodyTables, BodyErrors;
    BodyTablesAmong(q);
    SomeTableAmong(BodyTerms(q));
    UnknownTermsAreReported(q);
  }

  /** With skipUnknown, a composite stands for the terms it is made of, and a variable for nothing. */
  lemma {:induction false} CompositesAreSpliced(before: seq<Term>, kind: string, children: seq<Term>,
                                                after: seq<Term>)
    ensures TermsOperands(before + [Composite(kind, children)] + after) == TermsOperands(before + children + after)
    ensures TermsTables(before + [Composite(kind, children)] + after) == TermsTables(before + children + after)
    decreases |before|
  {
    hide TermOperands, TermTables;
    if before == [] {
      var t := Composite(kind, children);
      assert before + [t] + after == [t] + after && before + children + after == children + after;
      assert ([t] + after)[1..] == after;
      assert TermOperands(t) == TermsOperands(children) && TermTables(t) == TermsTables(children) by {
        CompositeIsItsChildren(kind, children);
      }
      TermsAppend(children, after);
    } else {
      CompositesAreSpliced(before[1..], kind, children, after);
      assert (before + [Composite(kind, children)] + after)[1..] == before[1..] + [Composite(kind, children)] + after;
      assert (before + children + after)[1..] == before[1..] + children + after;
    }
  }

  lemma CompositeIsItsChildren(kind: string, children: seq<Term>)
    ensures TermOperands(Composite(kind, children)) == TermsOperands(children)
    ensures TermTables(Composite(kind, children)) == TermsTables(children)
  {
  }

  lemma {:induction false} TermsAppend(a: seq<Term>, b: seq<Term>)
    ensures TermsOperands(a + b) == TermsOperands(a) + TermsOperands(b)
    ensures TermsTables(a + b) == TermsTables(a) + TermsTables(b)
  {
    hide TermOperands, TermTables;
    if a == [] {
      assert a + b == b;
    } else {
      assert (a + b)[1..] == a[1..] + b;
      TermsAppend(a[1..], b);
    }
  }

  /** References that do not name a table and a column leave no operand and no table; neither do variables. */
  lemma OthersLeaveNothing(t: Term)
    ensures t.Variable? || (t.Ref? && |t.path| != 2) ==> TermOperands(t) == [] && TermTables(t) == []
  {
  }

  // ---------------------------------------------------------------- the order of tables

  /** The entities in the order in which a translator visits them. */
  function VisitedEntities(visits: seq<QueryAst.Visit>): seq<string> {
    if visits == [] then []
    else (if visits[0].VisitEntity? then [visits[0].entity] else []) + VisitedEntities(visits[1..])
  }

  lemma {:induction false} VisitedAppend(a: seq<QueryAst.Visit>, b: seq<QueryAst.Visit>)
    ensures VisitedEntities(a + b) == VisitedEntities(a) + VisitedEntities(b)
  {
    if a == [] {
      assert a + b == b;
    } else {
      assert (a + b)[0] == a[0] && (a + b)[1..] == a[1..] + b;
      VisitedAppend(a[1..], b);
      var first := if a[0].VisitEntity? then [a[0].entity] else [];
      assert VisitedEntities(a + b) == first + (VisitedEntities(a[1..]) + VisitedEntities(b));
    }
  }

  lemma {:induction false} WalkAppend(a: seq<QueryAst.Operand>, b: seq<QueryAst.Operand>)
    ensures QueryAst.WalkOperands(a + b) == QueryAst.WalkOperands(a) + QueryAst.WalkOperands(b)
    decreases |a|
  {
    if a == [] {
      assert a + b == b;
    } else {
      assert (a + b)[1..] == a[1..] + b;
      WalkAppend(a[1..], b);
    }
  }

  lemma {:induction false} TermVisits(t: Term)
    ensures VisitedEntities(QueryAst.WalkOperands(TermOperands(t))) == TermTables(t)
    decreases t, 1
  {
    match t
    case Scalar(c) =>
      WalkOfOne(QueryAst.Const(c));
    case Variable(_) =>
    case Ref(_, path) =>
      if |path| == 2 {
        WalkOfOne(QueryAst.Attribute(path[0].text, path[1].text));
        var visits := [QueryAst.VisitEntity(path[0].text), QueryAst.VisitAttribute(path[1].text)];
        assert visits[1..] == [QueryAst.VisitAttribute(path[1].text)] && visits[1..][1..] == [];
        assert VisitedEntities(visits[1..]) == [] && VisitedEntities(visits) == [path[0].text];
        assert QueryAst.WalkOperands(TermOperands(t)) == visits;
        assert TermTables(t) == [path[0].text];
      }
    case Builtin(op, args) =>
      TermsVisits(args);
      WalkOfOne(QueryAst.Call(op, TermsOperands(args)));
      CallVisits(op, TermsOperands(args));
    case Composite(_, children) =>
      TermsVisits(children);
  }

  lemma CallVisits(op: string, args: seq<QueryAst.Operand>)
    ensures VisitedEntities(QueryAst.WalkOperand(QueryAst.Call(op, args))) ==
            VisitedEntities(QueryAst.WalkOperands(args))
  {
    var inner := QueryAst.WalkOperands(args);
    VisitedAppend([QueryAst.VisitOperator(op)] + inner, [QueryAst.VisitCall]);
    VisitedAppend([QueryAst.VisitOperator(op)], inner);
  }

  lemma WalkOfOne(o: QueryAst.Operand)
    ensures QueryAst.WalkOperands([o]) == QueryAst.WalkOperand(o)
  {
    assert QueryAst.WalkOperand(o) + [] == QueryAst.WalkOperand(o);
  }

  lemma {:induction false} TermsVisits(ts: seq<Term>)
    ensures VisitedEntities(QueryAst.WalkOperands(TermsOperands(ts))) == TermsTables(ts)
    decreases ts, 0
  {
    if ts != [] {
      TermVisits(ts[0]);
      TermsVisits(ts[1..]);
      WalkAppend(TermOperands(ts[0]), TermsOperands(ts[1..]));
      VisitedAppend(QueryAst.WalkOperands(TermOperands(ts[0])), QueryAst.WalkOperands(TermsOperands(ts[1..])));
    }
  }

  /** From is the entity that a translator visits first in the clauses, and tables come in visiting order. */
  lemma {:induction false} TablesAreVisited(q: Body)
    ensures VisitedEntities(QueryAst.WalkOperands(Clauses(q))) == BodyTables(q)
  {
    if q != [] {
      var call := QueryAst.Call(q[0].op, TermsOperands(q[0].args));
      TablesAreVisited(q[1..]);
      TermsVisits(q[0].args);
      CallVisits(q[0].op, TermsOperands(q[0].args));
      assert Clauses(q)[0] == call && Clauses(q)[1..] == Clauses(q[1..]);
      assert QueryAst.WalkOperands(Clauses(q)) == QueryAst.WalkOperand(call) + QueryAst.WalkOperands(Clauses(q[1..]));
      VisitedAppend(QueryAst.WalkOperand(call), QueryAst.WalkOperands(Clauses(q[1..])));
    }
  }

  // ---------------------------------------------------------------- From and Link

  /** Two different tables occur in one expression. */
  ghost predicate ShareExpression(q: Body, t: string, u: string) {
    t != u && exists i :: 0 <= i < |q| && t in TermsTables(q[i].args) && u in TermsTables(q[i].args)
  }

  /** Every table except the first shares an expression with another table. */
  ghost predicate Linked(q: Body) {
    forall t :: t in BodyTables(q) && t != BodyTables(q)[0] ==> exists u :: ShareExpression(q, t, u)
  }

  lemma MoreThanOne<T>(s: set<T>, x: T)
    requires x in s
    ensures |s| > 1 <==> exists y :: y in s && y != x
  {
    assert s == {x} + (s - {x});
    if s - {x} != {} {
      var y :| y in s - {x};
      assert |s - {x}| > 0;
    }
  }

  lemma {:induction false} SharedTablesExact(q: Body, t: string)
    ensures t in SharedTables(q) <==> exists u :: ShareExpression(q, t, u)
  {
    if q != [] {
      SharedTablesExact(q[1..], t);
      var tables := Elements(TermsTables(q[0].args));
      if t in tables {
        MoreThanOne(tables, t);
        if |tables| > 1 {
          var u :| u in tables && u != t;
          assert t in TermsTables(q[0].args) && u in TermsTables(q[0].args);
          assert ShareExpression(q, t, u);
        }
      }
      if t in SharedTables(q[1..]) {
        var u :| ShareExpression(q[1..], t, u);
        var i :| 0 <= i < |q[1..]| && t in TermsTables(q[1..][i].args) && u in TermsTables(q[1..][i].args);
        assert q[i + 1] == q[1..][i];
        assert ShareExpression(q, t, u);
      }
      if u :| ShareExpression(q, t, u) {
        var i :| 0 <= i < |q| && t in TermsTables(q[i].args) && u in TermsTables(q[i].args);
        if i > 0 {
          assert q[1..][i - 1] == q[i];
          assert ShareExpression(q[1..], t, u);
        } else {
          assert u in tables;
        }
      }
    }
  }

  lemma {:induction false} TermEntities(t: Term)
    ensures QueryAst.EntitiesOfAll(TermOperands(t)) == Elements(TermTables(t))
    decreases t, 1
  {
    match t
    case Scalar(c) =>
      EntitiesOfOne(QueryAst.Const(c));
    case Variable(_) =>
    case Ref(_, path) =>
      if |path| == 2 {
        EntitiesOfOne(QueryAst.Attribute(path[0].text, path[1].text));
      }
    case Builtin(op, args) =>
      TermsEntities(args);
      EntitiesOfOne(QueryAst.Call(op, TermsOperands(args)));
    case Composite(_, children) =>
      TermsEntities(children);
  }

  lemma EntitiesOfOne(o: QueryAst.Operand)
    ensures QueryAst.EntitiesOfAll([o]) == QueryAst.EntitiesOf(o)
  {
  }

  lemma {:induction false} EntitiesAppend(a: seq<QueryAst.Operand>, b: seq<QueryAst.Operand>)
    ensures QueryAst.EntitiesOfAll(a + b) == QueryAst.EntitiesOfAll(a) + QueryAst.EntitiesOfAll(b)
    decreases |a|
  {
    if a == [] {
      assert a + b == b;
    } else {
      assert (a + b)[1..] == a[1..] + b;
      EntitiesAppend(a[1..], b);
    }
  }

  lemma {:induction false} TermsEntities(ts: seq<Term>)
    ensures QueryAst.EntitiesOfAll(TermsOperands(ts)) == Elements(TermsTables(ts))
    decreases ts, 0
  {
    if ts != [] {
      TermEntities(ts[0]);
      TermsEntities(ts[1..]);
      EntitiesAppend(TermOperands(ts[0]), TermsOperands(ts[1..]));
    }
  }

  lemma {:induction false} ClausesEntities(q: Body)
    ensures QueryAst.EntitiesOfAll(Clauses(q)) == Elements(BodyTables(q))
  {
    if q != [] {
      TermsEntities(q[0].args);
      ClausesEntities(q[1..]);
    }
  }

  /** From is the first table; Link holds, once each, the other tables that share an expression; and
      the condition stays within From and Link exactly when the body is linked. */
  lemma FromAndLinkExact(query: QueryAst.Query, q: Body)
    requires BuiltFrom(query, q)
    ensures forall t :: t in query.link <==> t != query.from && exists u :: ShareExpression(q, t, u)
    ensures QueryAst.EntitiesOfAll(query.clauses) <= {query.from} + Elements(query.link) <==> Linked(q)
  {
    ClausesEntities(q);
    forall t ensures t in query.link <==> t != query.from && exists u :: ShareExpression(q, t, u) {
      SharedTablesExact(q, t);
      assert t in query.link <==> t in Elements(query.link);
    }
    if QueryAst.EntitiesOfAll(query.clauses) <= {query.from} + Elements(query.link) {
      forall t | t in BodyTables(q) && t != BodyTables(q)[0] ensures exists u :: ShareExpression(q, t, u) {
        assert t in Elements(BodyTables(q));
        assert t in Elements(query.link);
      }
    }
  }
}
