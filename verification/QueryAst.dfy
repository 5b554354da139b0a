/** The intermediate query tree and the order in which it is visited (pkg/data/ast.go). */
module QueryAst {

  datatype Constant = Constant(value: string, isNumeric: bool)

  datatype Operand =
    | Attribute(entity: string, name: string)
    | Const(c: Constant)
    | Call(op: string, args: seq<Operand>)

  /** A query; its condition is the conjunction of the clauses. */
  datatype Query = Query(from: string, link: seq<string>, clauses: seq<Operand>)

  /** Queries as the processor builds them: every clause is a call. */
  predicate CallClauses(q: Query) {
    forall i :: 0 <= i < |q.clauses| ==> q.clauses[i].Call?
  }

  predicate AllCallClauses(qs: seq<Query>) {
    forall i :: 0 <= i < |qs| ==> CallClauses(qs[i])
  }

  /** What a visitor sees of a node: its kind and the value it carries itself. */
  datatype Visit =
    | VisitUnion
    | VisitQuery
    | VisitLink
    | VisitCondition
    | VisitConjunction
    | VisitAttribute(name: string)
    | VisitCall
    | VisitOperator(op: string)
    | VisitEntity(entity: string)
    | VisitConstant(c: Constant)

  // The Walk methods: bottom-up, left to right. The operator of a call comes first.

  function WalkOperand(o: Operand): seq<Visit>
    decreases o, 1
  {
    match o
    case Attribute(entity, name) => [VisitEntity(entity), VisitAttribute(name)]
    case Const(c) => [VisitConstant(c)]
    case Call(op, args) => [VisitOperator(op)] + WalkOperands(args) + [VisitCall]
  }

  function WalkOperands(os: seq<Operand>): seq<Visit>
    decreases os, 0
  {
    if os == [] then [] else WalkOperand(os[0]) + WalkOperands(os[1..])
  }

  function WalkEntities(es: seq<string>): seq<Visit> {
    if es == [] then [] else [VisitEntity(es[0])] + WalkEntities(es[1..])
  }

  function WalkQuery(q: Query): seq<Visit> {
    WalkEntities(q.link) + [VisitLink]
    + WalkOperands(q.clauses) + [VisitConjunction, VisitCondition]
    + [VisitEntity(q.from), VisitQuery]
  }

  function WalkQueries(qs: seq<Query>): seq<Visit> {
    if qs == [] then [] else WalkQuery(qs[0]) + WalkQueries(qs[1..])
  }

  function WalkUnion(qs: seq<Query>): seq<Visit> {
    WalkQueries(qs) + [VisitUnion]
  }

  /** The entities named by the attributes of a tree. */
  function EntitiesOf(o: Operand): set<string>
    decreases o, 1
  {
    match o
    case Attribute(entity, _) => {entity}
    case Const(_) => {}
    case Call(_, args) => EntitiesOfAll(args)
  }

  function EntitiesOfAll(os: seq<Operand>): set<string>
    decreases os, 0
  {
    if os == [] then {} else EntitiesOf(os[0]) + EntitiesOfAll(os[1..])
  }
}
