/** The MongoDB stack machine computes a simple recursive rendering, grouped by collection. */
module MongoRefinement {
  import opened Results
  import opened QueryAst
  import opened Stacks
  import opened MongoTranslator

  // ---------------------------------------------------------------- recursive rendering

  function RenderOperand(cfg: Config, o: Operand): Result<string, MongoError>
    decreases o, 1
  {
    match o
    case Attribute(entity, name) => Ok(MarkedAttribute(entity, name))
    case Const(c) => Ok(ConstantText(c))
    case Call(op, args) =>
      var operands :- RenderOperands(cfg, args);
      ApplyOperator(cfg, op, Reordered(operands))
  }

  function RenderOperands(cfg: Config, os: seq<Operand>): Result<seq<string>, MongoError>
    decreases os, 0
  {
    if os == [] then Ok([])
    else
      var first :- RenderOperand(cfg, os[0]);
      var rest :- RenderOperands(cfg, os[1..]);
      Ok([first] + rest)
  }

  function FilterText(relations: seq<string>): string {
    if relations == [] then "" else ConjunctionText(relations)
  }

  function RenderFilter(cfg: Config, q: Query): Result<ColFilter, MongoError> {
    var relations :- RenderOperands(cfg, q.clauses);
    Ok(ColFilter(q.from, FilterText(relations)))
  }

  function RenderFilters(cfg: Config, qs: seq<Query>): Result<seq<ColFilter>, MongoError> {
    if qs == [] then Ok([])
    else
      var first :- RenderFilter(cfg, qs[0]);
      var rest :- RenderFilters(cfg, qs[1..]);
      Ok([first] + rest)
  }

  // ---------------------------------------------------------------- refinement

  lemma {:induction false} RunAppend(cfg: Config, s: State, a: seq<Visit>, b: seq<Visit>)
    ensures Run(cfg, s, a + b) == match Run(cfg, s, a) case Ok(t) => Run(cfg, t, b) case Err(e) => Err(e)
    decreases |a|
  {
    if a == [] {
      assert a + b == b;
    } else {
      assert (a + b)[1..] == a[1..] + b;
      if Step(cfg, s, a[0]).Ok? {
        RunAppend(cfg, Step(cfg, s, a[0]).value, a[1..], b);
      }
    }
  }

  lemma RunOne(cfg: Config, s: State, v: Visit)
    ensures Run(cfg, s, [v]) == Step(cfg, s, v)
  {
  }

  lemma RunCons(cfg: Config, s: State, v: Visit, rest: seq<Visit>)
    requires Step(cfg, s, v).Ok?
    ensures Run(cfg, s, [v] + rest) == Run(cfg, Step(cfg, s, v).value, rest)
  {
  }

  function Pushed(s: State, texts: seq<string>): State
    requires s.operands != []
  {
    s.(operands := WithTops(s.operands, texts))
  }

  function Related(s: State, texts: seq<string>): State {
    s.(relations := s.relations + texts)
  }

  lemma {:induction false} OperandRefines(cfg: Config, o: Operand, s: State)
    requires s.operands != []
    ensures Run(cfg, s, WalkOperand(o)) ==
            match RenderOperand(cfg, o) case Ok(text) => Ok(Pushed(s, [text])) case Err(e) => Err(e)
    decreases o, 1
  {
    match o
    case Attribute(entity, name) =>
      RunAppend(cfg, s, [VisitEntity(entity)], [VisitAttribute(name)]);
      assert WalkOperand(o) == [VisitEntity(entity)] + [VisitAttribute(name)];
      RunOne(cfg, s, VisitEntity(entity));
      var t := s.(entities := s.entities + [entity]);
      RunOne(cfg, t, VisitAttribute(name));
      assert t.entities[..|s.entities|] == s.entities;
    case Const(c) =>
      RunOne(cfg, s, VisitConstant(c));
    case Call(op, args) =>
      CallRuns(cfg, op, args, s);
  }

  lemma {:induction false} OperandsRefine(cfg: Config, os: seq<Operand>, s: State)
    requires s.operands != []
    ensures Run(cfg, s, WalkOperands(os)) ==
            match RenderOperands(cfg, os) case Ok(texts) => Ok(Pushed(s, texts)) case Err(e) => Err(e)
    decreases os, 0
  {
    hide Step, ApplyOperator, Reordered;
    if os == [] {
      WithTopsNothing(s.operands);
    } else {
      RunAppend(cfg, s, WalkOperand(os[0]), WalkOperands(os[1..]));
      OperandRefines(cfg, os[0], s);
      var first := RenderOperand(cfg, os[0]);
      if first.Ok? {
        OperandsRefine(cfg, os[1..], Pushed(s, [first.value]));
        var rest := RenderOperands(cfg, os[1..]);
        if rest.Ok? {
          WithTopsTwice(s.operands, [first.value], rest.value);
        }
      }
    }
  }

  lemma {:induction false} CallRuns(cfg: Config, op: string, args: seq<Operand>, s: State)
    ensures Run(cfg, s, WalkOperand(Call(op, args))) ==
            match RenderOperand(cfg, Call(op, args))
            case Ok(text) => Ok(if s.operands != [] then Pushed(s, [text]) else Related(s, [text]))
            case Err(e) => Err(e)
    decreases args, 1
  {
    hide ApplyOperator, Reordered, Run, RenderOperands;
    var inside := s.(operands := s.operands + [[op]]);
    RunAppend(cfg, s, [VisitOperator(op)] + WalkOperands(args), [VisitCall]);
    RunAppend(cfg, s, [VisitOperator(op)], WalkOperands(args));
    RunOne(cfg, s, VisitOperator(op));
    OperandsRefine(cfg, args, inside);
    var operands := RenderOperands(cfg, args);
    if operands.Ok? {
      CallEnds(cfg, op, operands.value, s);
    }
  }

  /** The visit of a call whose frame is full. */
  lemma CallEnds(cfg: Config, op: string, operands: seq<string>, s: State)
    ensures var full := s.(operands := s.operands + [[op] + operands]);
            && Pushed(s.(operands := s.operands + [[op]]), operands) == full
            && Run(cfg, full, [VisitCall]) ==
               match ApplyOperator(cfg, op, Reordered(operands))
               case Ok(text) => Ok(if s.operands != [] then Pushed(s, [text]) else Related(s, [text]))
               case Err(e) => Err(e)
  {
    hide ApplyOperator, Reordered, Run;
    var full := s.(operands := s.operands + [[op] + operands]);
    RunOne(cfg, full, VisitCall);
    assert ([op] + operands)[1..] == operands && full.operands[..|s.operands|] == s.operands;
    assert (s.operands + [[op]])[..|s.operands|] == s.operands;
  }

  lemma {:induction false} ClausesRefine(cfg: Config, clauses: seq<Operand>, s: State)
    requires s.operands == [] && forall i :: 0 <= i < |clauses| ==> clauses[i].Call?
    ensures Run(cfg, s, WalkOperands(clauses)) ==
            match RenderOperands(cfg, clauses) case Ok(texts) => Ok(Related(s, texts)) case Err(e) => Err(e)
    decreases |clauses|
  {
    hide Step, ApplyOperator, Reordered;
    if clauses == [] {
      assert s.relations + [] == s.relations;
    } else {
      RunAppend(cfg, s, WalkOperand(clauses[0]), WalkOperands(clauses[1..]));
      CallRuns(cfg, clauses[0].op, clauses[0].args, s);
      var first := RenderOperand(cfg, clauses[0]);
      if first.Ok? {
        ClausesRefine(cfg, clauses[1..], Related(s, [first.value]));
        var rest := RenderOperands(cfg, clauses[1..]);
        if rest.Ok? {
          assert s.relations + [first.value] + rest.value == s.relations + ([first.value] + rest.value);
        }
      }
    }
  }

  lemma {:induction false} EntitiesRefine(cfg: Config, es: seq<string>, s: State)
    ensures Run(cfg, s, WalkEntities(es)) == Ok(s.(entities := s.entities + es))
    decreases |es|
  {
    if es == [] {
      assert s.entities + [] == s.entities;
    } else {
      RunAppend(cfg, s, [VisitEntity(es[0])], WalkEntities(es[1..]));
      RunOne(cfg, s, VisitEntity(es[0]));
      EntitiesRefine(cfg, es[1..], s.(entities := s.entities + [es[0]]));
      assert s.entities + [es[0]] + es[1..] == s.entities + es;
    }
  }

  predicate BetweenQueries(s: State) {
    s.entities == [] && s.relations == [] && s.operands == []
  }

  function Filtered(s: State, filters: seq<ColFilter>): State {
    s.(filters := s.filters + filters)
  }

  function FilteredBy(s: State, r: Result<ColFilter, MongoError>): Result<State, MongoError> {
    match r
    case Ok(filter) => Ok(Filtered(s, [filter]))
    case Err(e) => Err(e)
  }

  lemma TailRuns(cfg: Config, s: State, from: string)
    requires s.entities == []
    ensures Run(cfg, s, [VisitConjunction, VisitCondition, VisitEntity(from), VisitQuery]) ==
            Ok(Filtered(s.(relations := []), [ColFilter(from, FilterText(s.relations))]))
  {
    hide ConjunctionText, Run;
    var t := Step(cfg, s, VisitConjunction).value;
    var u := t.(entities := t.entities + [from]);
    assert [VisitConjunction] + ([VisitCondition] + ([VisitEntity(from)] + [VisitQuery])) ==
           [VisitConjunction, VisitCondition, VisitEntity(from), VisitQuery];
    RunCons(cfg, s, VisitConjunction, [VisitCondition] + ([VisitEntity(from)] + [VisitQuery]));
    RunCons(cfg, t, VisitCondition, [VisitEntity(from)] + [VisitQuery]);
    RunCons(cfg, t, VisitEntity(from), [VisitQuery]);
    RunOne(cfg, u, VisitQuery);
    assert u.entities == [from] && [from][..0] == [];
  }

  /** One query adds one filter for its collection and leaves the working stacks empty. */
  lemma QueryRefines(cfg: Config, q: Query, s: State)
    requires BetweenQueries(s) && CallClauses(q)
    ensures Run(cfg, s, WalkQuery(q)) == FilteredBy(s, RenderFilter(cfg, q))
  {
    var links := WalkEntities(q.link) + [VisitLink];
    var tail := [VisitConjunction, VisitCondition, VisitEntity(q.from), VisitQuery];
    assert WalkQuery(q) == links + WalkOperands(q.clauses) + tail;
    RunAppend(cfg, s, links + WalkOperands(q.clauses), tail);
    RunAppend(cfg, s, links, WalkOperands(q.clauses));
    RunAppend(cfg, s, WalkEntities(q.link), [VisitLink]);
    EntitiesRefine(cfg, q.link, s);
    RunOne(cfg, s.(entities := s.entities + q.link), VisitLink);
    assert Run(cfg, s, links) == Ok(s);
    ClausesRefine(cfg, q.clauses, s);
    var relations := RenderOperands(cfg, q.clauses);
    if relations.Ok? {
      TailRuns(cfg, Related(s, relations.value), q.from);
      assert s.relations + relations.value == relations.value;
    }
  }

  lemma {:induction false} QueriesRefine(cfg: Config, qs: seq<Query>, s: State)
    requires BetweenQueries(s) && AllCallClauses(qs)
    ensures Run(cfg, s, WalkQueries(qs)) ==
            match RenderFilters(cfg, qs) case Ok(fs) => Ok(Filtered(s, fs)) case Err(e) => Err(e)
    decreases |qs|
  {
    hide WalkQuery, RenderFilter;
    if qs == [] {
      assert s.filters + [] == s.filters;
    } else {
      RunAppend(cfg, s, WalkQuery(qs[0]), WalkQueries(qs[1..]));
      QueryRefines(cfg, qs[0], s);
      var first := RenderFilter(cfg, qs[0]);
      if first.Ok? {
        QueriesRefine(cfg, qs[1..], Filtered(s, [first.value]));
        var rest := RenderFilters(cfg, qs[1..]);
        if rest.Ok? {
          assert s.filters + [first.value] + rest.value == s.filters + ([first.value] + rest.value);
        }
      }
    }
  }

  // ---------------------------------------------------------------- grouping

  /** The filters of a collection, in order. */
  function OfCollection(collection: string, filters: seq<ColFilter>): seq<string> {
    if filters == [] then []
    else (if filters[0].collection == collection then [filters[0].filter] else []) + OfCollection(collection,
                                                                                                  filters[1..])
  }

  function CollectionsOf(filters: seq<ColFilter>): set<string> {
    set k | 0 <= k < |filters| :: filters[k].collection
  }

  function GroupAt(groups: map<string, seq<string>>, collection: string): seq<string> {
    if collection in groups then groups[collection] else []
  }

  lemma {:induction false} RegroupedCollections(groups: map<string, seq<string>>, filters: seq<ColFilter>, c: string)
    ensures c in Regroup(groups, filters) <==> c in groups || c in CollectionsOf(filters)
    decreases |filters|
  {
    if filters != [] {
      var first, rest := filters[0], filters[1..];
      RegroupedCollections(WithFilter(groups, first), rest, c);
      assert c in CollectionsOf(filters) <==> c == first.collection || c in CollectionsOf(rest) by {
        assert forall k :: 0 < k < |filters| ==> filters[k] == rest[k - 1];
        assert forall k :: 0 <= k < |rest| ==> rest[k] == filters[k + 1];
      }
    }
  }

  lemma GroupWithFilter(groups: map<string, seq<string>>, f: ColFilter, c: string)
    ensures GroupAt(WithFilter(groups, f), c) ==
            GroupAt(groups, c) + if f.collection == c then [f.filter] else []
  {
    assert GroupAt(groups, c) + [] == GroupAt(groups, c);
  }

  /** Grouping keeps every filter once, with its collection, in order. */
  lemma {:induction false} RegroupKeepsFilters(groups: map<string, seq<string>>, filters: seq<ColFilter>, c: string)
    ensures GroupAt(Regroup(groups, filters), c) == GroupAt(groups, c) + OfCollection(c, filters)
    ensures c in Regroup(groups, filters) <==> c in groups || c in CollectionsOf(filters)
    decreases |filters|
  {
    hide WithFilter, GroupAt, CollectionsOf;
    RegroupedCollections(groups, filters, c);
    if filters == [] {
      assert GroupAt(groups, c) + [] == GroupAt(groups, c);
    } else {
      RegroupKeepsFilters(WithFilter(groups, filters[0]), filters[1..], c);
      GroupWithFilter(groups, filters[0], c);
    }
  }

  lemma {:induction false} FilterErrors(cfg: Config, qs: seq<Query>)
    ensures RenderFilters(cfg, qs).Err? ==> InputError(RenderFilters(cfg, qs).error)
  {
    if qs != [] {
      OperandsErrors(cfg, qs[0].clauses);
      FilterErrors(cfg, qs[1..]);
    }
  }

  predicate InputError(e: MongoError) {
    e.UnknownOperator? || e.CallFailed?
  }

  lemma {:induction false} OperandErrors(cfg: Config, o: Operand)
    ensures RenderOperand(cfg, o).Err? ==> InputError(RenderOperand(cfg, o).error)
    decreases o, 1
  {
    if o.Call? {
      OperandsErrors(cfg, o.args);
    }
  }

  lemma {:induction false} OperandsErrors(cfg: Config, os: seq<Operand>)
    ensures RenderOperands(cfg, os).Err? ==> InputError(RenderOperands(cfg, os).error)
    decreases os, 0
  {
    if os != [] {
      OperandErrors(cfg, os[0]);
      OperandsErrors(cfg, os[1..]);
    }
  }

  /** The whole machine: the first rendering error, or the filters of all queries grouped by collection.
      No pop fails and the "too many relations" error cannot occur. */
  lemma MachineRefinesRendering(cfg: Config, qs: seq<Query>)
    requires AllCallClauses(qs)
    ensures match RenderFilters(cfg, qs)
            case Ok(fs) => Run(cfg, INITIAL, WalkUnion(qs)) ==
                           Ok(INITIAL.(filters := fs, filtersByCollection := Regroup(map[], fs)))
            case Err(e) => Run(cfg, INITIAL, WalkUnion(qs)) == Err(e) && InputError(e)
  {
    RunAppend(cfg, INITIAL, WalkQueries(qs), [VisitUnion]);
    QueriesRefine(cfg, qs, INITIAL);
    FilterErrors(cfg, qs);
    var filters := RenderFilters(cfg, qs);
    if filters.Ok? {
      assert [] + filters.value == filters.value;
      RunOne(cfg, INITIAL.(filters := filters.value), VisitUnion);
    }
  }
}
