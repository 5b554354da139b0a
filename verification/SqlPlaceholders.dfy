/** Numbered placeholders always stand for their parameters. */
module SqlPlaceholders {
  import opened Tokens
  import opened QueryAst
  import opened Templates
  import opened TemplateTheorems
  import opened SqlTranslator
  import opened SqlRefinement
  import opened SqlStructure

  // ---------------------------------------------------------------- by number

  /** The statement with its constants written in place, as a plain recursion over the trees. */
  ghost function LiteralOperand(setup: Setup, literal: string -> string, o: Operand): string
    decreases o, 1
  {
    match o
    case Attribute(entity, name) => TableOf(setup, entity) + "." + name
    case Const(c) => literal(c.value)
    case Call(op, args) =>
      if op !in setup.templates then ""
      else match MapTemplate(setup.templates[op], LiteralOperands(setup, literal, args))
        case Ok(text) => text
        case Err(_) => ""
  }

  ghost function LiteralOperands(setup: Setup, literal: string -> string, os: seq<Operand>): seq<string>
    decreases os, 0
  {
    if os == [] then [] else [LiteralOperand(setup, literal, os[0])] + LiteralOperands(setup, literal, os[1..])
  }

  ghost function LiteralQuery(setup: Setup, literal: string -> string, q: Query): string {
    SelectText(TableOf(setup, q.from), JoinClauses(TablesOf(setup, q.link)),
               WhereText(LiteralOperands(setup, literal, q.clauses)))
  }

  ghost function LiteralQueries(setup: Setup, literal: string -> string, qs: seq<Query>): seq<string> {
    if qs == [] then [] else [LiteralQuery(setup, literal, qs[0])] + LiteralQueries(setup, literal, qs[1..])
  }

  /** `$k` stands for the k-th parameter. */
  function ByNumber(literal: string -> string, values: seq<string>): nat -> string {
    (k: nat) => if 1 <= k <= |values| then literal(values[k - 1]) else ""
  }

  /** `part` stands in `values` from position `at` on. */
  predicate StandsAt(values: seq<string>, at: nat, part: seq<string>) {
    at + |part| <= |values| && values[at..at + |part|] == part
  }

  lemma StandsAtParts(values: seq<string>, at: nat, a: seq<string>, b: seq<string>)
    requires StandsAt(values, at, a + b)
    ensures StandsAt(values, at, a) && StandsAt(values, at + |a|, b)
  {
    var whole := values[at..at + |a + b|];
    assert values[at..at + |a|] == whole[..|a|] && values[at + |a|..at + |a| + |b|] == whole[|a|..];
  }

  lemma {:induction false} OperandByNumber(setup: Setup, literal: string -> string, o: Operand, at: nat,
                                           values: seq<string>)
    requires Printable(setup.templates, Lower(setup, o, at))
    requires StandsAt(values, at, ParamValues(o))
    ensures Fill(ByNumber(literal, values), Print(setup.templates, Lower(setup, o, at))) ==
            LiteralOperand(setup, literal, o)
    decreases o, 1
  {
    var fill := ByNumber(literal, values);
    match o
    case Attribute(entity, name) =>
      FillChars<nat>(fill, TableOf(setup, entity) + "." + name);
    case Const(c) =>
      FillGap<nat>(fill, at + 1);
      assert values[at] == values[at..at + 1][0];
    case Call(op, args) =>
      OperandsByNumber(setup, literal, args, at, values);
      ComposeNatural(setup.templates[op], fill, PrintAll(setup.templates, LowerAll(setup, args, at)));
  }

  lemma {:induction false} OperandsByNumber(
    setup: Setup, literal: string -> string, os: seq<Operand>, at: nat, values: seq<string>)
    requires AllPrintable(setup.templates, LowerAll(setup, os, at))
    requires StandsAt(values, at, AllParamValues(os))
    ensures FillEach(ByNumber(literal, values), PrintAll(setup.templates, LowerAll(setup, os, at))) ==
            LiteralOperands(setup, literal, os)
    decreases os, 0
  {
    hide ByNumber, StandsAt;
    var fill := ByNumber(literal, values);
    if os == [] {
      assert FillEach(fill, []) == [];
    } else {
      var next := at + |ParamValues(os[0])|;
      var first, rest := Lower(setup, os[0], at), LowerAll(setup, os[1..], next);
      assert ([first] + rest)[1..] == rest;
      StandsAtParts(values, at, ParamValues(os[0]), AllParamValues(os[1..]));
      OperandByNumber(setup, literal, os[0], at, values);
      OperandsByNumber(setup, literal, os[1..], next, values);
      FillEachCons(fill, Print(setup.templates, first), PrintAll(setup.templates, rest));
    }
  }

  lemma NoSelects(setup: Setup, fill: nat -> string, at: nat)
    ensures FillEach(fill, PrintSelects(setup.templates, LowerUnion(setup, [], at))) == []
  {
  }

  lemma {:induction false} UnionByNumber(
    setup: Setup, literal: string -> string, qs: seq<Query>, at: nat, values: seq<string>)
    requires PrintableSelects(setup.templates, LowerUnion(setup, qs, at))
    requires StandsAt(values, at, UnionValues(qs))
    ensures FillEach(ByNumber(literal, values), PrintSelects(setup.templates, LowerUnion(setup, qs, at))) ==
            LiteralQueries(setup, literal, qs)
    decreases |qs|
  {
    hide SelectText, PrintSelect, StandsAt, ByNumber, LowerUnion, LowerAll, PrintSelects, PrintableSelects,
      AllPrintable, LiteralOperands;
    var fill := ByNumber(literal, values);
    if qs == [] {
      NoSelects(setup, fill, at);
    } else {
      LowerQueriesCons(setup, qs, at);
      var next := at + |QueryValues(qs[0])|;
      var first, rest := LowerQuery(setup, qs[0], at), LowerUnion(setup, qs[1..], next);
      PrintableParts(setup.templates, first, rest);
      StandsAtParts(values, at, QueryValues(qs[0]), UnionValues(qs[1..]));
      OperandsByNumber(setup, literal, qs[0].clauses, at, values);
      UnionByNumber(setup, literal, qs[1..], next, values);
      FillSelectsCons(setup, fill, first, rest);
    }
  }

  lemma PrintableParts(templates: TemplateTable, first: Select, rest: seq<Select>)
    ensures PrintableSelects(templates, [first] + rest) <==>
            AllPrintable(templates, first.where) && PrintableSelects(templates, rest)
  {
    assert forall i :: 0 < i < |[first] + rest| ==> ([first] + rest)[i] == rest[i - 1];
    assert ([first] + rest)[0] == first;
    assert forall i :: 0 <= i < |rest| ==> rest[i] == ([first] + rest)[i + 1];
  }

  lemma FillSelectsCons(setup: Setup, fill: nat -> string, first: Select, rest: seq<Select>)
    requires AllPrintable(setup.templates, first.where) && PrintableSelects(setup.templates, rest)
    ensures PrintableSelects(setup.templates, [first] + rest)
    ensures FillEach(fill, PrintSelects(setup.templates, [first] + rest)) ==
            [SelectText(first.from, JoinClauses(first.joins),
                        WhereText(FillEach(fill, PrintAll(setup.templates, first.where))))]
            + FillEach(fill, PrintSelects(setup.templates, rest))
  {
    FillSelect(setup.templates, fill, first);
    PrintSelectsCons(setup.templates, first, rest);
    FillEachCons(fill, PrintSelect(setup.templates, first), PrintSelects(setup.templates, rest));
  }

  /** Over a whole union, writing values[k-1] for the placeholder numbered k gives the statement with
      its constants in place. */
  lemma NumberedPlaceholdersAligned(setup: Setup, literal: string -> string, qs: seq<Query>)
    requires SoundQueries(setup.templates, qs) && RenderableUnion(setup, qs)
    ensures PrintableSelects(setup.templates, LowerUnion(setup, qs, 0))
    ensures Fill(ByNumber(literal, UnionValues(qs)), PrintUnion(setup.templates, LowerUnion(setup, qs, 0))) ==
            Join(LiteralQueries(setup, literal, qs), " UNION ")
  {
    QueriesArePrint(setup, qs, 0);
    UnionByNumber(setup, literal, qs, 0, UnionValues(qs));
    FillJoin(ByNumber(literal, UnionValues(qs)), PrintSelects(setup.templates, LowerUnion(setup, qs, 0)), " UNION ");
  }
}
