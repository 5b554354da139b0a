/** The structure behind the generated SQL text, and the alignment of placeholders with parameters. */
module SqlStructure {
  import opened Results
  import opened Tokens
  import opened EntityConfig
  import opened QueryAst
  import opened Templates
  import opened TemplateTheorems
  import opened SqlTranslator
  import opened SqlRefinement

  datatype Setup = Setup(platform: Platform, templates: TemplateTable, schemas: Schemas)

  function ConfigOf(setup: Setup): Config {
    Config(setup.platform, CompiledOperands(setup.templates), setup.schemas)
  }

  // ---------------------------------------------------------------- structured statements

  datatype SqlExpr =
    | Column(table: string, column: string)
    | Param(k: nat)
    | Apply(op: string, args: seq<SqlExpr>)

  datatype Select = Select(from: string, joins: seq<string>, where: seq<SqlExpr>)

  ghost function TableOf(setup: Setup, entity: string): string {
    match EntityName(setup.platform, setup.schemas, entity) case Ok(text) => text case Err(_) => ""
  }

  /** The parameters a tree introduces, in visiting order. */
  function ParamValues(o: Operand): seq<string>
    decreases o, 1
  {
    match o
    case Attribute(_, _) => []
    case Const(c) => [c.value]
    case Call(_, args) => AllParamValues(args)
  }

  function AllParamValues(os: seq<Operand>): seq<string>
    decreases os, 0
  {
    if os == [] then [] else ParamValues(os[0]) + AllParamValues(os[1..])
  }

  ghost function Lower(setup: Setup, o: Operand, earlier: nat): SqlExpr
    decreases o, 1
  {
    match o
    case Attribute(entity, name) => Column(TableOf(setup, entity), name)
    case Const(_) => Param(earlier + 1)
    case Call(op, args) => Apply(op, LowerAll(setup, args, earlier))
  }

  ghost function LowerAll(setup: Setup, os: seq<Operand>, earlier: nat): (r: seq<SqlExpr>)
    ensures |r| == |os|
    decreases os, 0
  {
    if os == [] then []
    else [Lower(setup, os[0], earlier)] + LowerAll(setup, os[1..], earlier + |ParamValues(os[0])|)
  }

  ghost function TablesOf(setup: Setup, entities: seq<string>): (r: seq<string>)
    ensures |r| == |entities|
    ensures forall i :: 0 <= i < |r| ==> r[i] == TableOf(setup, entities[i])
  {
    if entities == [] then [] else [TableOf(setup, entities[0])] + TablesOf(setup, entities[1..])
  }

  ghost function LowerQuery(setup: Setup, q: Query, earlier: nat): Select {
    Select(TableOf(setup, q.from), TablesOf(setup, q.link), LowerAll(setup, q.clauses, earlier))
  }

  function QueryValues(q: Query): seq<string> {
    AllParamValues(q.clauses)
  }

  function UnionValues(qs: seq<Query>): seq<string> {
    if qs == [] then [] else QueryValues(qs[0]) + UnionValues(qs[1..])
  }

  ghost function LowerUnion(setup: Setup, qs: seq<Query>, earlier: nat): (r: seq<Select>)
    ensures |r| == |qs|
  {
    if qs == [] then []
    else [LowerQuery(setup, qs[0], earlier)] + LowerUnion(setup, qs[1..], earlier + |QueryValues(qs[0])|)
  }

  lemma LowerQueriesCons(setup: Setup, qs: seq<Query>, earlier: nat)
    requires qs != []
    ensures LowerUnion(setup, qs, earlier) ==
            [LowerQuery(setup, qs[0], earlier)] + LowerUnion(setup, qs[1..], earlier + |QueryValues(qs[0])|)
    ensures LowerQuery(setup, qs[0], earlier).where == LowerAll(setup, qs[0].clauses, earlier)
    ensures QueryValues(qs[0]) == AllParamValues(qs[0].clauses)
    ensures |UnionValues(qs)| == |QueryValues(qs[0])| + |UnionValues(qs[1..])|
  {
  }

  // ---------------------------------------------------------------- printing

  /** Every operator has a sound template that accepts its operands. */
  predicate Printable(templates: TemplateTable, e: SqlExpr)
    decreases e, 1
  {
    e.Apply? ==>
      && e.op in templates && SoundTemplate(templates[e.op]) && AcceptsCount(templates[e.op], |e.args|)
      && AllPrintable(templates, e.args)
  }

  predicate AllPrintable(templates: TemplateTable, es: seq<SqlExpr>)
    decreases es, 0
  {
    es == [] || (Printable(templates, es[0]) && AllPrintable(templates, es[1..]))
  }

  function Print(templates: TemplateTable, e: SqlExpr): seq<Token<nat>>
    requires Printable(templates, e)
    decreases e, 1
  {
    match e
    case Column(table, column) => Chars(table + "." + column)
    case Param(k) => [Gap(k)]
    case Apply(op, args) => Compose(templates[op], PrintAll(templates, args))
  }

  function PrintAll(templates: TemplateTable, es: seq<SqlExpr>): (r: seq<seq<Token<nat>>>)
    requires AllPrintable(templates, es)
    ensures |r| == |es|
    decreases es, 0
  {
    if es == [] then [] else [Print(templates, es[0])] + PrintAll(templates, es[1..])
  }

  function PrintSelect(templates: TemplateTable, s: Select): seq<Token<nat>>
    requires AllPrintable(templates, s.where)
  {
    Chars(SelectText(s.from, JoinClauses(s.joins), ""))
    + if s.where == [] then []
      else Chars(" WHERE (") + Join(PrintAll(templates, s.where), Chars(" AND ")) + Chars(")")
  }

  predicate PrintableSelects(templates: TemplateTable, selects: seq<Select>) {
    forall i :: 0 <= i < |selects| ==> AllPrintable(templates, selects[i].where)
  }

  function PrintSelects(templates: TemplateTable, selects: seq<Select>): (r: seq<seq<Token<nat>>>)
    requires PrintableSelects(templates, selects)
    ensures |r| == |selects|
  {
    if selects == [] then [] else [PrintSelect(templates, selects[0])] + PrintSelects(templates, selects[1..])
  }

  function PrintUnion(templates: TemplateTable, selects: seq<Select>): seq<Token<nat>>
    requires PrintableSelects(templates, selects)
  {
    Join(PrintSelects(templates, selects), Chars(" UNION "))
  }

  function Placeholders(platform: Platform): nat -> string {
    (k: nat) => Placeholder(platform, k)
  }

  // ---------------------------------------------------------------- text is printed structure

  ghost predicate KnownEntities(setup: Setup, entities: set<string>) {
    forall e :: e in entities ==> EntityName(setup.platform, setup.schemas, e).Ok?
  }

  ghost predicate Renderable(setup: Setup, o: Operand)
    decreases o, 1
  {
    match o
    case Attribute(entity, _) => EntityName(setup.platform, setup.schemas, entity).Ok?
    case Const(_) => true
    case Call(op, args) =>
      AllRenderable(setup, args) && op in setup.templates && AcceptsCount(setup.templates[op], |args|)
  }

  ghost predicate AllRenderable(setup: Setup, os: seq<Operand>)
    decreases os, 0
  {
    os == [] || (Renderable(setup, os[0]) && AllRenderable(setup, os[1..]))
  }

  /** The operators of a tree that have templates have sound ones. */
  predicate UsesSound(templates: TemplateTable, o: Operand)
    decreases o, 1
  {
    o.Call? ==> (o.op in templates ==> SoundTemplate(templates[o.op])) && AllUseSound(templates, o.args)
  }

  predicate AllUseSound(templates: TemplateTable, os: seq<Operand>)
    decreases os, 0
  {
    os == [] || (UsesSound(templates, os[0]) && AllUseSound(templates, os[1..]))
  }

  predicate SoundQueries(templates: TemplateTable, qs: seq<Query>) {
    forall i :: 0 <= i < |qs| ==> AllUseSound(templates, qs[i].clauses)
  }

  lemma OperatorApplies(setup: Setup, op: string, args: seq<string>)
    ensures ApplyOperator(ConfigOf(setup), op, args) ==
            if op !in setup.templates then Err(UnknownOperator(op))
            else match MapTemplate(setup.templates[op], args)
              case Ok(text) => Ok(text)
              case Err(e) => Err(CallFailed(e))
  {
  }

  /** Rendering succeeds exactly on known entities and operators with fitting operand counts, and
      then yields the printed structure and the parameters of the tree. */
  lemma {:induction false} RenderIsPrint(setup: Setup, o: Operand, earlier: nat)
    requires UsesSound(setup.templates, o)
    ensures RenderOperand(ConfigOf(setup), o, earlier).Ok? <==> Renderable(setup, o)
    ensures Renderable(setup, o) ==>
              && Printable(setup.templates, Lower(setup, o, earlier))
              && RenderOperand(ConfigOf(setup), o, earlier) ==
                 Ok(Rendered(Fill(Placeholders(setup.platform), Print(setup.templates, Lower(setup, o, earlier))),
                             ParamValues(o)))
    decreases o, 1
  {
    hide ApplyOperator, CompiledOperands, MapTemplate, Compose, Placeholder, SoundTemplate;
    var fill := Placeholders(setup.platform);
    match o
    case Attribute(entity, name) =>
      if Renderable(setup, o) {
        FillChars(fill, TableOf(setup, entity) + "." + name);
      }
    case Const(c) =>
      FillGap<nat>(fill, earlier + 1);
    case Call(op, args) =>
      RenderAllIsPrint(setup, args, earlier);
      if AllRenderable(setup, args) {
        var printed := PrintAll(setup.templates, LowerAll(setup, args, earlier));
        OperatorApplies(setup, op, FillEach(fill, printed));
        if op in setup.templates {
          OnlyAcceptedCounts(setup.templates[op], FillEach(fill, printed));
          if AcceptsCount(setup.templates[op], |args|) {
            ComposeNatural(setup.templates[op], fill, printed);
          }
        }
      }
  }

  lemma {:induction false} RenderAllIsPrint(setup: Setup, os: seq<Operand>, earlier: nat)
    requires AllUseSound(setup.templates, os)
    ensures RenderOperands(ConfigOf(setup), os, earlier).Ok? <==> AllRenderable(setup, os)
    ensures AllRenderable(setup, os) ==>
              && AllPrintable(setup.templates, LowerAll(setup, os, earlier))
              && RenderOperands(ConfigOf(setup), os, earlier) ==
                 Ok(Rendered(FillEach(Placeholders(setup.platform),
                                      PrintAll(setup.templates, LowerAll(setup, os, earlier))),
                             AllParamValues(os)))
    decreases os, 0
  {
    hide RenderOperand, Renderable, Print, Lower, CompiledOperands, Placeholders, UsesSound;
    var fill := Placeholders(setup.platform);
    if os == [] {
      assert FillEach(fill, []) == [];
    } else {
      var later := earlier + |ParamValues(os[0])|;
      RenderIsPrint(setup, os[0], earlier);
      if Renderable(setup, os[0]) {
        RenderAllIsPrint(setup, os[1..], later);
        var first, rest := Lower(setup, os[0], earlier), LowerAll(setup, os[1..], later);
        assert ([first] + rest)[1..] == rest;
        if AllRenderable(setup, os[1..]) {
          FillEachCons(fill, Print(setup.templates, first), PrintAll(setup.templates, rest));
        }
      }
    }
  }

  ghost predicate RenderableQuery(setup: Setup, q: Query) {
    && AllRenderable(setup, q.clauses)
    && KnownEntities(setup, {q.from} + set e | e in q.link)
  }

  ghost predicate RenderableUnion(setup: Setup, qs: seq<Query>) {
    forall i :: 0 <= i < |qs| ==> RenderableQuery(setup, qs[i])
  }

  lemma {:induction false} EntitiesRender(setup: Setup, es: seq<string>)
    ensures RenderEntities(ConfigOf(setup), es).Ok? <==> KnownEntities(setup, set e | e in es)
    ensures KnownEntities(setup, set e | e in es) ==>
              RenderEntities(ConfigOf(setup), es) == Ok(TablesOf(setup, es))
  {
    if es != [] {
      EntitiesRender(setup, es[1..]);
      assert (set e | e in es) == {es[0]} + set e | e in es[1..];
      assert KnownEntities(setup, set e | e in es) <==>
             EntityName(setup.platform, setup.schemas, es[0]).Ok? && KnownEntities(setup, set e | e in es[1..]) by {
        assert es[0] in (set e | e in es);
      }
    }
  }

  lemma SelectTextSplits(from: string, joins: seq<string>, condition: string)
    ensures SelectText(from, joins, condition) == SelectText(from, joins, "") + condition
  {
  }

  lemma {:induction false} FillSelect(templates: TemplateTable, fill: nat -> string, s: Select)
    requires AllPrintable(templates, s.where)
    ensures Fill(fill, PrintSelect(templates, s)) ==
            SelectText(s.from, JoinClauses(s.joins), WhereText(FillEach(fill, PrintAll(templates, s.where))))
  {
    hide SelectText;
    var head := SelectText(s.from, JoinClauses(s.joins), "");
    var printed := PrintAll(templates, s.where);
    FillChars<nat>(fill, head);
    if s.where == [] {
      assert Chars<nat>(head) + [] == Chars<nat>(head);
      assert FillEach(fill, printed) == [];
    } else {
      var middle := Join(printed, Chars<nat>(" AND "));
      FillAppend(fill, Chars<nat>(head), Chars<nat>(" WHERE (") + middle + Chars<nat>(")"));
      FillAppend(fill, Chars<nat>(" WHERE (") + middle, Chars<nat>(")"));
      FillAppend(fill, Chars<nat>(" WHERE ("), middle);
      FillChars<nat>(fill, " WHERE (");
      FillChars<nat>(fill, ")");
      FillJoin(fill, printed, " AND ");
      var where := WhereText(FillEach(fill, printed));
      assert where == " WHERE (" + Join(FillEach(fill, printed), " AND ") + ")";
      SelectTextSplits(s.from, JoinClauses(s.joins), where);
    }
  }

  lemma QueryIsPrint(setup: Setup, q: Query, earlier: nat)
    requires AllUseSound(setup.templates, q.clauses)
    ensures RenderQuery(ConfigOf(setup), q, earlier).Ok? <==> RenderableQuery(setup, q)
    ensures RenderableQuery(setup, q) ==>
              var lowered := LowerQuery(setup, q, earlier);
              && AllPrintable(setup.templates, lowered.where)
              && RenderQuery(ConfigOf(setup), q, earlier) ==
                 Ok(Rendered(Fill(Placeholders(setup.platform), PrintSelect(setup.templates, lowered)), QueryValues(q)))
  {
    EntitiesRender(setup, q.link);
    RenderAllIsPrint(setup, q.clauses, earlier);
    var links := set e | e in q.link;
    assert KnownEntities(setup, {q.from} + links) <==>
           EntityName(setup.platform, setup.schemas, q.from).Ok? && KnownEntities(setup, links) by {
      assert q.from in {q.from} + links;
    }
    if RenderableQuery(setup, q) {
      FillSelect(setup.templates, Placeholders(setup.platform), LowerQuery(setup, q, earlier));
    }
  }

  lemma {:induction false} QueriesSucceed(setup: Setup, qs: seq<Query>, earlier: nat)
    requires SoundQueries(setup.templates, qs)
    ensures RenderQueries(ConfigOf(setup), qs, earlier).Ok? <==> RenderableUnion(setup, qs)
    decreases |qs|
  {
    hide RenderQuery, RenderableQuery;
    if qs != [] {
      QueryIsPrint(setup, qs[0], earlier);
      RenderableCons(setup, qs);
      if RenderableQuery(setup, qs[0]) {
        RenderQueriesCons(ConfigOf(setup), qs, earlier);
        QueriesSucceed(setup, qs[1..], earlier + |QueryValues(qs[0])|);
      }
    }
  }

  ghost function PrintedUnion(setup: Setup, selects: seq<Select>): seq<string>
    requires PrintableSelects(setup.templates, selects)
  {
    FillEach(Placeholders(setup.platform), PrintSelects(setup.templates, selects))
  }

  lemma {:induction false} QueriesArePrint(setup: Setup, qs: seq<Query>, earlier: nat)
    requires SoundQueries(setup.templates, qs) && RenderableUnion(setup, qs)
    ensures PrintableSelects(setup.templates, LowerUnion(setup, qs, earlier))
    ensures RenderQueries(ConfigOf(setup), qs, earlier) ==
            Ok(Rendered(PrintedUnion(setup, LowerUnion(setup, qs, earlier)), UnionValues(qs)))
    decreases |qs|
  {
    hide RenderQuery, RenderableQuery, LowerQuery, PrintSelect;
    if qs == [] {
      assert FillEach(Placeholders(setup.platform), []) == [];
    } else {
      var later := earlier + |QueryValues(qs[0])|;
      RenderableCons(setup, qs);
      QueryIsPrint(setup, qs[0], earlier);
      QueriesArePrint(setup, qs[1..], later);
      RenderQueriesCons(ConfigOf(setup), qs, earlier);
      PrintedCons(setup, LowerQuery(setup, qs[0], earlier), LowerUnion(setup, qs[1..], later));
    }
  }

  lemma RenderQueriesCons(cfg: Config, qs: seq<Query>, earlier: nat)
    requires qs != [] && RenderQuery(cfg, qs[0], earlier).Ok?
    ensures var first := RenderQuery(cfg, qs[0], earlier).value;
            RenderQueries(cfg, qs, earlier) ==
            match RenderQueries(cfg, qs[1..], earlier + |first.values|)
            case Ok(rest) => Ok(Then(first, rest))
            case Err(e) => Err(e)
  {
    hide RenderQuery;
  }

  lemma RenderableCons(setup: Setup, qs: seq<Query>)
    requires qs != []
    ensures RenderableUnion(setup, qs) <==> RenderableQuery(setup, qs[0]) && RenderableUnion(setup, qs[1..])
  {
  }

  lemma PrintedCons(setup: Setup, first: Select, rest: seq<Select>)
    requires AllPrintable(setup.templates, first.where) && PrintableSelects(setup.templates, rest)
    ensures PrintableSelects(setup.templates, [first] + rest)
    ensures PrintedUnion(setup, [first] + rest) ==
            [Fill(Placeholders(setup.platform), PrintSelect(setup.templates, first))] + PrintedUnion(setup, rest)
  {
  }

  lemma PrintSelectsCons(templates: TemplateTable, first: Select, rest: seq<Select>)
    requires AllPrintable(templates, first.where) && PrintableSelects(templates, rest)
    ensures PrintableSelects(templates, [first] + rest)
    ensures PrintSelects(templates, [first] + rest) == [PrintSelect(templates, first)] + PrintSelects(templates, rest)
  {
  }

  /** The machine's statement is the printed structure with placeholders, its values are the parameters
      of the trees in visiting order, and it fails exactly when an entity or operator is unknown or an
      operator has the wrong number of operands. */
  lemma StatementIsPrintedStructure(setup: Setup, qs: seq<Query>)
    requires SoundQueries(setup.templates, qs) && AllCallClauses(qs)
    ensures Run(ConfigOf(setup), INITIAL, WalkUnion(qs)).Ok? <==> RenderableUnion(setup, qs)
    ensures RenderableUnion(setup, qs) ==>
              var selects := LowerUnion(setup, qs, 0);
              var statement := Run(ConfigOf(setup), INITIAL, WalkUnion(qs)).value;
              && PrintableSelects(setup.templates, selects)
              && Join(statement.query, "") == Fill(Placeholders(setup.platform), PrintUnion(setup.templates, selects))
              && statement.values == UnionValues(qs)
  {
    MachineRefinesRendering(ConfigOf(setup), qs);
    QueriesSucceed(setup, qs, 0);
    if RenderableUnion(setup, qs) {
      QueriesArePrint(setup, qs, 0);
      FillJoin(Placeholders(setup.platform), PrintSelects(setup.templates, LowerUnion(setup, qs, 0)), " UNION ");
    }
  }
}
