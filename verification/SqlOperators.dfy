/** Only the operators that a union uses matter: an unsound template, such as one with a literal '%',
    cannot disturb the queries that do not use it. */
module SqlOperators {
  import opened QueryAst
  import opened Templates
  import opened SqlTranslator
  import opened SqlRefinement
  import opened SqlStructure

  function OperatorsOf(o: Operand): set<string>
    decreases o, 1
  {
    if o.Call? then {o.op} + OperatorsOfAll(o.args) else {}
  }

  function OperatorsOfAll(os: seq<Operand>): set<string>
    decreases os, 0
  {
    if os == [] then {} else OperatorsOf(os[0]) + OperatorsOfAll(os[1..])
  }

  function UnionOperators(qs: seq<Query>): set<string> {
    if qs == [] then {} else OperatorsOfAll(qs[0].clauses) + UnionOperators(qs[1..])
  }

  /** The configurations apply the given operators alike and agree in everything else. */
  ghost predicate AgreeOn(ops: set<string>, a: Config, b: Config) {
    && a.platform == b.platform && a.schemas == b.schemas
    && forall op, args :: op in ops ==> ApplyOperator(a, op, args) == ApplyOperator(b, op, args)
  }

  lemma {:induction false} OperandsAgree(a: Config, b: Config, os: seq<Operand>, earlier: nat)
    requires AgreeOn(OperatorsOfAll(os), a, b)
    ensures RenderOperands(a, os, earlier) == RenderOperands(b, os, earlier)
    decreases os, 0
  {
    hide ApplyOperator;
    if os != [] {
      OperandAgrees(a, b, os[0], earlier);
      if RenderOperand(a, os[0], earlier).Ok? {
        OperandsAgree(a, b, os[1..], earlier + |RenderOperand(a, os[0], earlier).value.values|);
      }
    }
  }

  lemma {:induction false} OperandAgrees(a: Config, b: Config, o: Operand, earlier: nat)
    requires AgreeOn(OperatorsOf(o), a, b)
    ensures RenderOperand(a, o, earlier) == RenderOperand(b, o, earlier)
    decreases o, 1
  {
    hide ApplyOperator;
    if o.Call? {
      assert AgreeOn(OperatorsOfAll(o.args), a, b);
      OperandsAgree(a, b, o.args, earlier);
    }
  }

  lemma {:induction false} EntitiesAgree(a: Config, b: Config, es: seq<string>)
    requires AgreeOn({}, a, b)
    ensures RenderEntities(a, es) == RenderEntities(b, es)
  {
    if es != [] {
      EntitiesAgree(a, b, es[1..]);
    }
  }

  lemma QueryAgrees(a: Config, b: Config, q: Query, earlier: nat)
    requires AgreeOn(OperatorsOfAll(q.clauses), a, b)
    ensures RenderQuery(a, q, earlier) == RenderQuery(b, q, earlier)
  {
    hide ApplyOperator, SelectText, WhereText, JoinClauses;
    OperandsAgree(a, b, q.clauses, earlier);
    EntitiesAgree(a, b, q.link);
  }

  lemma {:induction false} QueriesAgree(a: Config, b: Config, qs: seq<Query>, earlier: nat)
    requires AgreeOn(UnionOperators(qs), a, b)
    ensures RenderQueries(a, qs, earlier) == RenderQueries(b, qs, earlier)
    decreases |qs|
  {
    hide ApplyOperator, RenderQuery, OperatorsOfAll;
    if qs != [] {
      QueryAgrees(a, b, qs[0], earlier);
      if RenderQuery(a, qs[0], earlier).Ok? {
        QueriesAgree(a, b, qs[1..], earlier + |RenderQuery(a, qs[0], earlier).value.values|);
      }
    }
  }

  function SoundSetup(setup: Setup): Setup {
    setup.(templates := SoundPart(setup.templates))
  }

  /** A union that uses no unsound template is translated as if there were none, so everything said
      about sound tables of templates holds for it. */
  lemma UnsoundTemplatesDoNotMatter(setup: Setup, qs: seq<Query>)
    requires AllCallClauses(qs)
    requires forall op :: op in UnionOperators(qs) && op in setup.templates ==> SoundTemplate(setup.templates[op])
    ensures SoundTemplates(SoundSetup(setup).templates)
    ensures Run(ConfigOf(setup), INITIAL, WalkUnion(qs)) == Run(ConfigOf(SoundSetup(setup)), INITIAL, WalkUnion(qs))
  {
    var a, b := ConfigOf(setup), ConfigOf(SoundSetup(setup));
    MachineRefinesRendering(a, qs);
    MachineRefinesRendering(b, qs);
    hide Run, SoundTemplate, MapTemplate, RenderQueries;
    forall op, args | op in UnionOperators(qs) ensures ApplyOperator(a, op, args) == ApplyOperator(b, op, args) {
      OperatorApplies(setup, op, args);
      OperatorApplies(SoundSetup(setup), op, args);
    }
    QueriesAgree(a, b, qs, 0);
  }
}
