/** The SQL stack machine computes a simple recursive rendering of the query tree. */
module SqlRefinement {
  import opened Results
  import opened Tokens
  import opened QueryAst
  import opened Stacks
  import opened SqlTranslator

  // ---------------------------------------------------------------- recursive rendering

  /** Text and the parameters it introduces. Only the number of earlier parameters matters. */
  datatype Rendered<T> = Rendered(text: T, values: seq<string>)

  ghost function RenderOperand(cfg: Config, o: Operand, earlier: nat): Result<Rendered<string>, SqlError>
    decreases o, 1
  {
    match o
    case Attribute(entity, name) =>
      var table :- EntityText(cfg, entity);
      Ok(Rendered(table + "." + name, []))
    case Const(c) =>
      Ok(Rendered(Placeholder(cfg.platform, earlier + 1), [c.value]))
    case Call(op, args) =>
      var operands :- RenderOperands(cfg, args, earlier);
      var text :- ApplyOperator(cfg, op, operands.text);
      Ok(Rendered(text, operands.values))
  }

  ghost function RenderOperands(cfg: Config, os: seq<Operand>, earlier: nat): Result<Rendered<seq<string>>, SqlError>
    decreases os, 0
  {
    if os == [] then Ok(Rendered([], []))
    else
      var first :- RenderOperand(cfg, os[0], earlier);
      var rest :- RenderOperands(cfg, os[1..], earlier + |first.values|);
      Ok(Rendered([first.text] + rest.text, first.values + rest.values))
  }

  ghost function RenderEntities(cfg: Config, es: seq<string>): Result<seq<string>, SqlError> {
    if es == [] then Ok([])
    else
      var first :- EntityText(cfg, es[0]);
      var rest :- RenderEntities(cfg, es[1..]);
      Ok([first] + rest)
  }

  function WhereText(clauses: seq<string>): string {
    if clauses == [] then "" else " WHERE (" + Join(clauses, " AND ") + ")"
  }

  ghost function RenderQuery(cfg: Config, q: Query, earlier: nat): Result<Rendered<string>, SqlError> {
    var joined :- RenderEntities(cfg, q.link);
    var clauses :- RenderOperands(cfg, q.clauses, earlier);
    var from :- EntityText(cfg, q.from);
    Ok(Rendered(SelectText(from, JoinClauses(joined), WhereText(clauses.text)), clauses.values))
  }

  ghost function RenderQueries(cfg: Config, qs: seq<Query>, earlier: nat): Result<Rendered<seq<string>>, SqlError> {
    if qs == [] then Ok(Rendered([], []))
    else
      var first :- RenderQuery(cfg, qs[0], earlier);
      var rest :- RenderQueries(cfg, qs[1..], earlier + |first.values|);
      Ok(Rendered([first.text] + rest.text, first.values + rest.values))
  }

  ghost function RenderUnion(cfg: Config, qs: seq<Query>): Result<Rendered<string>, SqlError> {
    var selects :- RenderQueries(cfg, qs, 0);
    Ok(Rendered(Join(selects.text, " UNION "), selects.values))
  }

  // ---------------------------------------------------------------- refinement

  lemma {:induction false} RunAppend(cfg: Config, s: State, a: seq<Visit>, b: seq<Visit>)
    ensures Run(cfg, s, a + b) == match Run(cfg, s, a) case Ok(t) => Run(cfg, t, b) case Err(e) => Err(e)
    decreases |a|
  {
    if a == [] {
      assert a + b == b;
    } else {
      assert (a + b)[1..] == a[1..] + b;
      if Step(cfg, s, a[0]).Ok? {
        RunAppend(cfg, Step(cfg, s, a[0]).value, a[1..], b);
      }
    }
  }

  lemma RunOne(cfg: Config, s: State, v: Visit)
    ensures Run(cfg, s, [v]) == Step(cfg, s, v)
  {
  }

  function Pushed(s: State, r: Rendered<string>): State
    requires s.operands != []
  {
    s.(operands := WithTop(s.operands, r.text), values := s.values + r.values)
  }

  function PushedAll(s: State, r: Rendered<seq<string>>): State
    requires s.operands != []
  {
    s.(operands := WithTops(s.operands, r.text), values := s.values + r.values)
  }

  function Selected(s: State, r: Rendered<seq<string>>): State {
    s.(selects := s.selects + r.text, values := s.values + r.values)
  }

  function Then(first: Rendered<string>, rest: Rendered<seq<string>>): Rendered<seq<string>> {
    Rendered([first.text] + rest.text, first.values + rest.values)
  }

  lemma PushedThen(s: State, first: Rendered<string>, rest: Rendered<seq<string>>)
    requires s.operands != []
    ensures PushedAll(Pushed(s, first), rest) == PushedAll(s, Then(first, rest))
  {
    WithTopsTwice(s.operands, [first.text], rest.text);
    assert s.values + first.values + rest.values == s.values + (first.values + rest.values);
  }

  lemma SelectedThen(s: State, first: Rendered<string>, rest: Rendered<seq<string>>)
    ensures Selected(Selected(s, Rendered([first.text], first.values)), rest) == Selected(s, Then(first, rest))
  {
  }

  /** Inside a call, visiting an operand appends its rendering to the top frame and its parameters
      to the values; all lower frames and all other stacks stay as they were. */
  lemma {:induction false} OperandRefines(cfg: Config, o: Operand, s: State)
    requires s.operands != []
    ensures Run(cfg, s, WalkOperand(o)) ==
            match RenderOperand(cfg, o, |s.values|)
            case Ok(r) => Ok(Pushed(s, r))
            case Err(e) => Err(e)
    decreases o, 1
  {
    match o
    case Attribute(entity, name) =>
      RunAppend(cfg, s, [VisitEntity(entity)], [VisitAttribute(name)]);
      assert WalkOperand(o) == [VisitEntity(entity)] + [VisitAttribute(name)];
      RunOne(cfg, s, VisitEntity(entity));
      if EntityText(cfg, entity).Ok? {
        var t := s.(entities := s.entities + [EntityText(cfg, entity).value]);
        RunOne(cfg, t, VisitAttribute(name));
        assert t.entities[..|t.entities| - 1] == s.entities;
      }
      assert s.values + [] == s.values;
    case Const(c) =>
      RunOne(cfg, s, VisitConstant(c));
    case Call(op, args) =>
      CallRuns(cfg, op, args, s);
      if RenderOperand(cfg, o, |s.values|).Ok? {
        assert (s.operands + [[op]])[..|s.operands|] == s.operands;
      }
  }

  lemma {:induction false} OperandsRefine(cfg: Config, os: seq<Operand>, s: State)
    requires s.operands != []
    ensures Run(cfg, s, WalkOperands(os)) ==
            match RenderOperands(cfg, os, |s.values|)
            case Ok(r) => Ok(PushedAll(s, r))
            case Err(e) => Err(e)
    decreases os, 0
  {
    hide Step, RenderOperand, WalkOperand, PushedAll;
    if os == [] {
      NothingPushed(s);
    } else {
      RunAppend(cfg, s, WalkOperand(os[0]), WalkOperands(os[1..]));
      OperandRefines(cfg, os[0], s);
      var first := RenderOperand(cfg, os[0], |s.values|);
      if first.Ok? {
        var t := Pushed(s, first.value);
        assert |t.values| == |s.values| + |first.value.values|;
        OperandsRefine(cfg, os[1..], t);
        var rest := RenderOperands(cfg, os[1..], |t.values|);
        assert Run(cfg, s, WalkOperands(os)) == Run(cfg, t, WalkOperands(os[1..]));
        if rest.Ok? {
          PushedThen(s, first.value, rest.value);
          assert RenderOperands(cfg, os, |s.values|) == Ok(Then(first.value, rest.value));
        }
      }
    }
  }

  lemma NothingPushed(s: State)
    requires s.operands != []
    ensures PushedAll(s, Rendered([], [])) == s
  {
    WithTopsNothing(s.operands);
    assert s.values + [] == s.values;
  }

  /** A call opens a frame, fills it with its operator and operands, and closes it again. */
  lemma {:induction false} CallRuns(cfg: Config, op: string, args: seq<Operand>, s: State)
    ensures Run(cfg, s, WalkOperand(Call(op, args))) ==
            match RenderOperand(cfg, Call(op, args), |s.values|)
            case Ok(r) => Ok(if s.operands != []
                             then s.(operands := WithTop(s.operands, r.text), values := s.values + r.values)
                             else s.(relations := s.relations + [r.text], values := s.values + r.values))
            case Err(e) => Err(e)
    decreases args, 1
  {
    var inside := s.(operands := s.operands + [[op]]);
    RunAppend(cfg, s, [VisitOperator(op)] + WalkOperands(args), [VisitCall]);
    RunAppend(cfg, s, [VisitOperator(op)], WalkOperands(args));
    RunOne(cfg, s, VisitOperator(op));
    OperandsRefine(cfg, args, inside);
    var operands := RenderOperands(cfg, args, |s.values|);
    if operands.Ok? {
      var full := inside.(operands := WithTops(inside.operands, operands.value.text),
                          values := s.values + operands.value.values);
      RunOne(cfg, full, VisitCall);
      assert full.operands == s.operands + [[op] + operands.value.text];
      assert ([op] + operands.value.text)[1..] == operands.value.text;
      assert full.operands[..|s.operands|] == s.operands;
    }
  }

  function WithRelations(s: State, r: Rendered<seq<string>>): State {
    s.(relations := s.relations + r.text, values := s.values + r.values)
  }

  lemma WithRelationsThen(s: State, first: Rendered<string>, rest: Rendered<seq<string>>)
    ensures WithRelations(WithRelations(s, Rendered([first.text], first.values)), rest) ==
        WithRelations(s, Then(first, rest))
  {
  }

  /** At the top level every call becomes one relation. */
  lemma {:induction false} ClausesRefine(cfg: Config, clauses: seq<Operand>, s: State)
    requires s.operands == []
    requires forall i :: 0 <= i < |clauses| ==> clauses[i].Call?
    ensures Run(cfg, s, WalkOperands(clauses)) ==
            match RenderOperands(cfg, clauses, |s.values|)
            case Ok(r) => Ok(WithRelations(s, r))
            case Err(e) => Err(e)
    decreases |clauses|
  {
    if clauses == [] {
      assert s.relations + [] == s.relations && s.values + [] == s.values;
    } else {
      RunAppend(cfg, s, WalkOperand(clauses[0]), WalkOperands(clauses[1..]));
      CallRuns(cfg, clauses[0].op, clauses[0].args, s);
      var first := RenderOperand(cfg, clauses[0], |s.values|);
      if first.Ok? {
        var t := WithRelations(s, Rendered([first.value.text], first.value.values));
        assert |t.values| == |s.values| + |first.value.values|;
        ClausesRefine(cfg, clauses[1..], t);
        var rest := RenderOperands(cfg, clauses[1..], |t.values|);
        if rest.Ok? {
          WithRelationsThen(s, first.value, rest.value);
        }
      }
    }
  }

  lemma {:induction false} EntitiesRefine(cfg: Config, es: seq<string>, s: State)
    ensures Run(cfg, s, WalkEntities(es)) ==
            match RenderEntities(cfg, es)
            case Ok(texts) => Ok(s.(entities := s.entities + texts))
            case Err(e) => Err(e)
    decreases |es|
  {
    if es == [] {
      assert s.entities + [] == s.entities;
    } else {
      RunAppend(cfg, s, [VisitEntity(es[0])], WalkEntities(es[1..]));
      RunOne(cfg, s, VisitEntity(es[0]));
      hide Run, EntityText;
      if EntityText(cfg, es[0]).Ok? {
        var first := EntityText(cfg, es[0]).value;
        EntitiesRefine(cfg, es[1..], s.(entities := s.entities + [first]));
        if RenderEntities(cfg, es[1..]).Ok? {
          assert s.entities + [first] + RenderEntities(cfg, es[1..]).value
              == s.entities + ([first] + RenderEntities(cfg, es[1..]).value);
        }
      }
    }
  }

  /** Between queries only the finished SELECTs and the parameters are left. */
  predicate BetweenQueries(s: State) {
    s.entities == [] && s.relations == [] && s.joins == [] && s.operands == []
  }

  /** One query adds one SELECT and its own parameters and leaves the working stacks empty;
      it fails only when the recursive rendering fails. */
  lemma QueryRefines(cfg: Config, q: Query, s: State)
    requires BetweenQueries(s) && CallClauses(q)
    ensures Run(cfg, s, WalkQuery(q)) ==
            match RenderQuery(cfg, q, |s.values|)
            case Ok(r) => Ok(Selected(s, Rendered([r.text], r.values)))
            case Err(e) => Err(e)
  {
    var links := WalkEntities(q.link) + [VisitLink];
    var clauses := WalkOperands(q.clauses);
    var tail := [VisitEntity(q.from), VisitQuery];
    RunAppend(cfg, s, links + clauses + [VisitConjunction, VisitCondition], tail);
    RunAppend(cfg, s, links + clauses, [VisitConjunction, VisitCondition]);
    RunAppend(cfg, s, links, clauses);
    RunAppend(cfg, s, WalkEntities(q.link), [VisitLink]);
    EntitiesRefine(cfg, q.link, s);
    var joined := RenderEntities(cfg, q.link);
    if joined.Ok? {
      RunOne(cfg, s.(entities := s.entities + joined.value), VisitLink);
      assert s.entities + joined.value == joined.value && s.joins + JoinClauses(joined.value) ==
          JoinClauses(joined.value);
      var s1 := s.(joins := JoinClauses(joined.value));
      ClausesRefine(cfg, q.clauses, s1);
      var rendered := RenderOperands(cfg, q.clauses, |s.values|);
      if rendered.Ok? {
        assert s1.relations + rendered.value.text == rendered.value.text;
        var s2 := s1.(relations := rendered.value.text, values := s.values + rendered.value.values);
        ConditionRuns(cfg, s2);
        FromRuns(cfg, s2.(relations := ConditionOf(s2.relations)), q.from);
      }
    }
  }

  function ConditionOf(relations: seq<string>): seq<string> {
    if relations == [] then [] else [WhereText(relations)]
  }

  lemma ConditionRuns(cfg: Config, s: State)
    ensures Run(cfg, s, [VisitConjunction, VisitCondition]) == Ok(s.(relations := ConditionOf(s.relations)))
  {
    RunAppend(cfg, s, [VisitConjunction], [VisitCondition]);
    assert [VisitConjunction] + [VisitCondition] == [VisitConjunction, VisitCondition];
    RunOne(cfg, s, VisitConjunction);
    var t := Step(cfg, s, VisitConjunction).value;
    RunOne(cfg, t, VisitCondition);
    if s.relations != [] {
      assert t.relations[..0] + [" WHERE " + t.relations[0]] == [" WHERE " + t.relations[0]];
      assert " WHERE " + ("(" + Join(s.relations, " AND ") + ")") == WhereText(s.relations);
    }
  }

  lemma FromRuns(cfg: Config, s: State, from: string)
    requires s.entities == [] && |s.relations| <= 1
    ensures Run(cfg, s, [VisitEntity(from), VisitQuery]) ==
            match EntityText(cfg, from)
            case Ok(text) =>
              Ok(s.(selects := s.selects + [SelectText(text, s.joins,
                                                       if s.relations == [] then "" else s.relations[0])],
                    joins := [], relations := []))
            case Err(e) => Err(e)
  {
    hide SelectText, EntityText;
    RunAppend(cfg, s, [VisitEntity(from)], [VisitQuery]);
    assert [VisitEntity(from)] + [VisitQuery] == [VisitEntity(from), VisitQuery];
    RunOne(cfg, s, VisitEntity(from));
    if EntityText(cfg, from).Ok? {
      var t := s.(entities := [EntityText(cfg, from).value]);
      assert s.entities + t.entities == t.entities && t.entities[..0] == [];
      RunOne(cfg, t, VisitQuery);
    }
  }

  lemma {:induction false} QueriesRefine(cfg: Config, qs: seq<Query>, s: State)
    requires BetweenQueries(s)
    requires AllCallClauses(qs)
    ensures Run(cfg, s, WalkQueries(qs)) ==
            match RenderQueries(cfg, qs, |s.values|)
            case Ok(r) => Ok(Selected(s, r))
            case Err(e) => Err(e)
    decreases |qs|
  {
    hide RenderQuery, WalkQuery;
    if qs == [] {
      assert s.selects + [] == s.selects && s.values + [] == s.values;
    } else {
      RunAppend(cfg, s, WalkQuery(qs[0]), WalkQueries(qs[1..]));
      QueryRefines(cfg, qs[0], s);
      var first := RenderQuery(cfg, qs[0], |s.values|);
      if first.Ok? {
        var t := Selected(s, Rendered([first.value.text], first.value.values));
        QueriesRefine(cfg, qs[1..], t);
        var rest := RenderQueries(cfg, qs[1..], |t.values|);
        if rest.Ok? {
          SelectedThen(s, first.value, rest.value);
        }
      }
    }
  }

  /** The whole machine equals the recursive rendering, in results and in errors. In particular no
      pop ever fails and the "too many relations" error cannot occur, since rendering has neither. */
  lemma MachineRefinesRendering(cfg: Config, qs: seq<Query>)
    requires AllCallClauses(qs)
    ensures match RenderUnion(cfg, qs)
            case Ok(r) => Run(cfg, INITIAL, WalkUnion(qs)) == Ok(INITIAL.(query := [r.text], values := r.values))
            case Err(e) => Run(cfg, INITIAL, WalkUnion(qs)) == Err(e) && !e.EmptyStack? && !e.TooManyRelations?
  {
    RunAppend(cfg, INITIAL, WalkQueries(qs), [VisitUnion]);
    QueriesRefine(cfg, qs, INITIAL);
    var selects := RenderQueries(cfg, qs, 0);
    if selects.Ok? {
      assert [] + selects.value.text == selects.value.text && [] + selects.value.values == selects.value.values;
      var s := INITIAL.(selects := selects.value.text, values := selects.value.values);
      RunOne(cfg, s, VisitUnion);
      assert [] + [Join(s.selects, " UNION ")] == [Join(s.selects, " UNION ")];
    } else {
      QueriesErrors(cfg, qs, 0);
    }
  }

  // ---------------------------------------------------------------- which errors can occur

  predicate InputError(e: SqlError) {
    e.UnknownOperator? || e.CallFailed? || e.UnknownEntity?
  }

  lemma {:induction false} OperandErrors(cfg: Config, o: Operand, earlier: nat)
    ensures RenderOperand(cfg, o, earlier).Err? ==> InputError(RenderOperand(cfg, o, earlier).error)
    decreases o, 1
  {
    if o.Call? {
      OperandsErrors(cfg, o.args, earlier);
    }
  }

  lemma {:induction false} OperandsErrors(cfg: Config, os: seq<Operand>, earlier: nat)
    ensures RenderOperands(cfg, os, earlier).Err? ==> InputError(RenderOperands(cfg, os, earlier).error)
    decreases os, 0
  {
    if os != [] {
      OperandErrors(cfg, os[0], earlier);
      if RenderOperand(cfg, os[0], earlier).Ok? {
        OperandsErrors(cfg, os[1..], earlier + |RenderOperand(cfg, os[0], earlier).value.values|);
      }
    }
  }

  lemma {:induction false} QueriesErrors(cfg: Config, qs: seq<Query>, earlier: nat)
    ensures RenderQueries(cfg, qs, earlier).Err? ==> InputError(RenderQueries(cfg, qs, earlier).error)
    decreases |qs|
  {
    if qs != [] {
      EntitiesErrors(cfg, qs[0].link);
      OperandsErrors(cfg, qs[0].clauses, earlier);
      var first := RenderQuery(cfg, qs[0], earlier);
      if first.Ok? {
        QueriesErrors(cfg, qs[1..], earlier + |first.value.values|);
      }
    }
  }

  lemma {:induction false} EntitiesErrors(cfg: Config, es: seq<string>)
    ensures RenderEntities(cfg, es).Err? ==> InputError(RenderEntities(cfg, es).error)
  {
    if es != [] {
      EntitiesErrors(cfg, es[1..]);
    }
  }
}
