/** The SQL stack machine (internal/pkg/data/sql-datastore-translator.go). */
module SqlTranslator {
  import opened Results
  import opened Tokens
  import opened EntityConfig
  import opened QueryAst
  import opened Stacks
  import opened Templates

  datatype Platform = Postgres | Mysql

  datatype Config = Config(platform: Platform, callOps: CallOperands, schemas: Schemas)

  datatype SqlError =
    | EmptyStack
    | TooManyRelations
    | UnknownOperator(op: string)
    | CallFailed(cause: CallError)
    | UnknownEntity(entity: string)

  function Digits(n: nat): string {
    if n < 10 then [n as char + '0'] else Digits(n / 10) + [(n % 10) as char + '0']
  }

  /** getPreparePlaceholderForPlatform. */
  function Placeholder(platform: Platform, counter: nat): string {
    match platform
    case Postgres => "$" + Digits(counter)
    case Mysql => "?"
  }

  /** The table name of a declared entity. */
  function TableText(platform: Platform, schema: string, name: string): string {
    if schema == "public" && platform == Postgres then name else schema + "." + name
  }

  ghost function EntityName(platform: Platform, schemas: Schemas, entity: string): Result<string, SqlError> {
    match Lookup(schemas, entity)
    case None => Err(UnknownEntity(entity))
    case Some((schema, e)) => Ok(TableText(platform, schema, e.name))
  }

  ghost function EntityText(cfg: Config, entity: string): Result<string, SqlError> {
    EntityName(cfg.platform, cfg.schemas, entity)
  }

  function ApplyOperator(cfg: Config, op: string, args: seq<string>): Result<string, SqlError> {
    if op !in cfg.callOps then Err(UnknownOperator(op))
    else match cfg.callOps[op](args)
      case Ok(text) => Ok(text)
      case Err(e) => Err(CallFailed(e))
  }

  // ---------------------------------------------------------------- one visit, as a function

  datatype State = State(
    query: seq<string>,
    selects: seq<string>,
    entities: seq<string>,
    relations: seq<string>,
    joins: seq<string>,
    operands: seq<seq<string>>,
    values: seq<string>)

  const INITIAL := State([], [], [], [], [], [], [])

  function JoinClauses(entities: seq<string>): (r: seq<string>)
    ensures |r| == |entities|
  {
    seq(|entities|, i requires 0 <= i < |entities| => ", " + entities[i])
  }

  function SelectText(entity: string, joins: seq<string>, condition: string): string {
    "SELECT count(*) FROM " + entity + Join(joins, "") + condition
  }

  ghost function Step(cfg: Config, s: State, v: Visit): Result<State, SqlError> {
    match v
    case VisitUnion =>
      Ok(s.(query := s.query + [Join(s.selects, " UNION ")], selects := []))
    case VisitQuery =>
      if s.entities == [] then Err(EmptyStack)
      else if |s.relations| > 1 then Err(TooManyRelations)
      else
        var last := |s.entities| - 1;
        Ok(s.(selects := s.selects
                         + [SelectText(s.entities[last], s.joins, if s.relations == [] then "" else s.relations[0])],
              entities := s.entities[..last], joins := [], relations := []))
    case VisitLink =>
      Ok(s.(joins := s.joins + JoinClauses(s.entities), entities := []))
    case VisitCondition =>
      if s.relations == [] then Ok(s)
      else
        var last := |s.relations| - 1;
        Ok(s.(relations := s.relations[..last] + [" WHERE " + s.relations[last]]))
    case VisitConjunction =>
      if s.relations == [] then Ok(s)
      else Ok(s.(relations := ["(" + Join(s.relations, " AND ") + ")"]))
    case VisitAttribute(name) =>
      if s.entities == [] || s.operands == [] then Err(EmptyStack)
      else
        var last := |s.entities| - 1;
        Ok(s.(entities := s.entities[..last], operands := WithTop(s.operands, s.entities[last] + "." + name)))
    case VisitCall =>
      if s.operands == [] || s.operands[|s.operands| - 1] == [] then Err(EmptyStack)
      else
        var last := |s.operands| - 1;
        var ops := s.operands[last];
        var text :- ApplyOperator(cfg, ops[0], ops[1..]);
        if last > 0 then Ok(s.(operands := WithTop(s.operands[..last], text)))
        else Ok(s.(operands := [], relations := s.relations + [text]))
    case VisitOperator(op) =>
      Ok(s.(operands := s.operands + [[op]]))
    case VisitEntity(entity) =>
      var text :- EntityText(cfg, entity);
      Ok(s.(entities := s.entities + [text]))
    case VisitConstant(c) =>
      if s.operands == [] then Err(EmptyStack)
      else Ok(s.(values := s.values + [c.value],
                 operands := WithTop(s.operands, Placeholder(cfg.platform, |s.values| + 1))))
  }

  /** A whole visit sequence; the first error ends it. */
  ghost function Run(cfg: Config, s: State, visits: seq<Visit>): Result<State, SqlError>
    decreases |visits|
  {
    if visits == [] then Ok(s)
    else
      var next :- Step(cfg, s, visits[0]);
      Run(cfg, next, visits[1..])
  }

  /** What a visit may lead to, whatever the order in which a Go map of schemas is visited: an entity may stand
      for any of its declarations. */
  ghost predicate MayStep(cfg: Config, s: State, v: Visit, next: Result<State, SqlError>) {
    if v.VisitEntity? then
      || (exists schema, e ::
            && Declares(cfg.schemas, schema, v.entity, e)
            && next == Ok(s.(entities := s.entities + [TableText(cfg.platform, schema, e.name)])))
      || (next == Err(UnknownEntity(v.entity)) && forall schema, e :: !Declares(cfg.schemas, schema, v.entity, e))
    else next == Step(cfg, s, v)
  }

  /** What a visit sequence may lead to when every lookup is made anew. */
  ghost predicate MayRun(cfg: Config, s: State, visits: seq<Visit>, end: Result<State, SqlError>)
    decreases |visits|
  {
    if visits == [] then end == Ok(s)
    else exists next ::
           && MayStep(cfg, s, visits[0], next)
           && (if next.Ok? then MayRun(cfg, next.value, visits[1..], end) else end == next)
  }

  /** All declarations of a name are stored in one table. */
  ghost predicate OneTable(cfg: Config) {
    forall search, s1, s2, e1, e2 ::
      Declares(cfg.schemas, s1, search, e1) && Declares(cfg.schemas, s2, search, e2) ==>
        TableText(cfg.platform, s1, e1.name) == TableText(cfg.platform, s2, e2.name)
  }

  // ---------------------------------------------------------------- the translator object

  /** A state and an outcome agree with what a visit may lead to. */
  ghost predicate MayResult(cfg: Config, before: State, v: Visit, r: Result<(), SqlError>, after: State) {
    match r
    case Ok(_) => MayStep(cfg, before, v, Ok(after))
    case Err(e) => MayStep(cfg, before, v, Err(e))
  }

  /** The statement and the values of a final state. */
  function Written(end: Result<State, SqlError>): Result<(string, seq<string>), SqlError> {
    match end
    case Ok(s) => Ok((Join(s.query, ""), s.values))
    case Err(e) => Err(e)
  }

  /** A state and an outcome agree with one step of the specification. */
  ghost predicate Outcome(expected: Result<State, SqlError>, r: Result<(), SqlError>, after: State) {
    match expected
    case Ok(s) => r == Ok(()) && after == s
    case Err(e) => r == Err(e)
  }

  class Translator {
    const cfg: Config
    const relations: Stack<string>
    const operands: Stack<seq<string>>
    var query: seq<string>
    var selects: seq<string>
    var entities: seq<string>
    var joins: seq<string>
    var values: seq<string>

    predicate Valid()
      reads this, relations, operands
    {
      relations.Valid() && operands.Valid()
    }

    ghost function Current(): State
      requires Valid()
      reads this, relations, relations.store, operands, operands.store
    {
      State(query, selects, entities, relations.Contents(), joins, operands.Contents(), values)
    }

    /** The stacks keep their backing arrays or move to new ones. */
    twostate predicate Owned()
      reads relations, operands
    {
      && (relations.store == old(relations.store) || fresh(relations.store))
      && (operands.store == old(operands.store) || fresh(operands.store))
    }

    constructor (cfg: Config)
      ensures this.cfg == cfg && Valid() && Current() == INITIAL
      ensures fresh(relations) && fresh(relations.store) && fresh(operands) && fresh(operands.store)
    {
      this.cfg := cfg;
      relations := new Stack();
      operands := new Stack();
      query, selects, entities, joins, values := [], [], [], [], [];
    }

    /** Walks the union and hands every visited node to the walk method of its kind. */
    method Translate(input: seq<Query>) returns (r: Result<(string, seq<string>), SqlError>)
      requires Valid() && Current() == INITIAL
      modifies this, relations, relations.store, operands, operands.store
      ensures exists end :: MayRun(cfg, INITIAL, WalkUnion(input), end) && r == Written(end)
      ensures OneTable(cfg) ==> r == Written(Run(cfg, INITIAL, WalkUnion(input)))
    {
      var visits := WalkUnion(input);
      ghost var end: Result<State, SqlError>;
      for i := 0 to |visits|
        invariant Valid() && Owned()
        invariant forall end :: MayRun(cfg, Current(), visits[i..], end) ==> MayRun(cfg, INITIAL, visits, end)
      {
        ghost var before := Current();
        var outcome := Visit(visits[i]);
        assert visits[i..][1..] == visits[i + 1..];
        if outcome.Err? {
          end := Err(outcome.error);
          assert MayRun(cfg, before, visits[i..], end);
          OneTableRun(cfg, INITIAL, visits, end);
          return Err(outcome.error);
        }
        assert MayStep(cfg, before, visits[i..][0], Ok(Current()));
      }
      end := Ok(Current());
      assert MayRun(cfg, INITIAL, visits, end);
      OneTableRun(cfg, INITIAL, visits, end);
      return Ok((Join(query, ""), values));
    }

    method Visit(v: Visit) returns (r: Result<(), SqlError>)
      requires Valid()
      modifies this, relations, relations.store, operands, operands.store
      ensures Valid() && Owned()
      ensures MayResult(cfg, old(Current()), v, r, Current())
    {
      match v
      case VisitUnion => r := VisitedUnion();
      case VisitQuery => r := VisitedQuery();
      case VisitLink => r := VisitedLink();
      case VisitCondition => r := VisitedCondition();
      case VisitConjunction => r := VisitedConjunction();
      case VisitAttribute(name) => r := VisitedAttribute(name);
      case VisitCall => r := VisitedCall();
      case VisitOperator(op) => r := VisitedOperator(op);
      case VisitEntity(entity) => r := VisitedEntity(entity);
      case VisitConstant(c) => r := VisitedConstant(c);
    }

    method VisitedUnion() returns (r: Result<(), SqlError>)
      requires Valid()
      modifies this, relations, relations.store, operands, operands.store
      ensures Valid() && Owned()
      ensures Outcome(Step(cfg, old(Current()), VisitUnion), r, Current())
    {
      query := query + [Join(selects, " UNION ")];
      selects := [];
      return Ok(());
    }

    method VisitedQuery() returns (r: Result<(), SqlError>)
      requires Valid()
      modifies this, relations, relations.store, operands, operands.store
      ensures Valid() && Owned()
      ensures Outcome(Step(cfg, old(Current()), VisitQuery), r, Current())
    {
      if entities == [] {
        return Err(EmptyStack);
      }
      var entity := entities[|entities| - 1];
      entities := entities[..|entities| - 1];
      var joinClause := JoinClause();
      var condition := "";
      var empty := relations.IsEmpty();
      if !empty {
        var top := relations.Peek();
        condition := top.value;
        var size := relations.Size();
        if size != 1 {
          return Err(TooManyRelations);
        }
      }
      selects := selects + [SelectText(entity, [joinClause], condition)];
      joins := [];
      relations.Clear();
      return Ok(());
    }

    method JoinClause() returns (joinClause: string)
      ensures joinClause == Join(joins, "")
    {
      joinClause := "";
      for i := 0 to |joins|
        invariant joinClause == Join(joins[..i], "")
      {
        joinClause := joinClause + joins[i];
        JoinSnoc(joins[..i], joins[i]);
        assert joins[..i + 1] == joins[..i] + [joins[i]];
      }
      assert joins[..|joins|] == joins;
    }

    method VisitedLink() returns (r: Result<(), SqlError>)
      requires Valid()
      modifies this, relations, relations.store, operands, operands.store
      ensures Valid() && Owned()
      ensures Outcome(Step(cfg, old(Current()), VisitLink), r, Current())
    {
      for i := 0 to |entities|
        invariant unchanged(`query, `selects, `entities, `values, relations, operands)
        invariant relations.store[..] == old(relations.store[..]) && operands.store[..] == old(operands.store[..])
        invariant joins == old(joins) + JoinClauses(entities[..i])
      {
        joins := joins + [", " + entities[i]];
        assert JoinClauses(entities[..i + 1]) == JoinClauses(entities[..i]) + [", " + entities[i]];
      }
      assert entities[..|entities|] == entities;
      entities := [];
      return Ok(());
    }

    method VisitedCondition() returns (r: Result<(), SqlError>)
      requires Valid()
      modifies this, relations, relations.store, operands, operands.store
      ensures Valid() && Owned()
      ensures Outcome(Step(cfg, old(Current()), VisitCondition), r, Current())
    {
      var empty := relations.IsEmpty();
      if !empty {
        var rel := relations.Pop();
        relations.Push(" WHERE " + rel.value);
      }
      return Ok(());
    }

    /** Reads the relations after clearing the stack: they are still in the backing array, until the push
        overwrites the first of them. */
    method VisitedConjunction() returns (r: Result<(), SqlError>)
      requires Valid()
      modifies this, relations, relations.store, operands, operands.store
      ensures Valid() && Owned()
      ensures Outcome(Step(cfg, old(Current()), VisitConjunction), r, Current())
    {
      var empty := relations.IsEmpty();
      if !empty {
        var rels := relations.Values();
        relations.Clear();
        assert rels.Read() == old(relations.Contents());
        relations.Push("(" + Join(rels.Read(), " AND ") + ")");
      }
      return Ok(());
    }

    method VisitedAttribute(name: string) returns (r: Result<(), SqlError>)
      requires Valid()
      modifies this, relations, relations.store, operands, operands.store
      ensures Valid() && Owned()
      ensures Outcome(Step(cfg, old(Current()), VisitAttribute(name)), r, Current())
    {
      if entities == [] {
        return Err(EmptyStack);
      }
      var entity := entities[|entities| - 1];
      entities := entities[..|entities| - 1];
      var ok := AppendToTop(operands, entity + "." + name);
      return if ok then Ok(()) else Err(EmptyStack);
    }

    method VisitedCall() returns (r: Result<(), SqlError>)
      requires Valid()
      modifies this, relations, relations.store, operands, operands.store
      ensures Valid() && Owned()
      ensures Outcome(Step(cfg, old(Current()), VisitCall), r, Current())
    {
      ghost var frames := operands.Contents();
      var frame := operands.Pop();
      if frame.None? || frame.value == [] {
        return Err(EmptyStack);
      }
      assert frames[..|frames| - 1] == operands.Contents();
      var ops := frame.value;
      if ops[0] !in cfg.callOps {
        return Err(UnknownOperator(ops[0]));
      }
      var nextRel := cfg.callOps[ops[0]](ops[1..]);
      if nextRel.Err? {
        return Err(CallFailed(nextRel.error));
      }
      var outermost := operands.IsEmpty();
      if !outermost {
        var ok := AppendToTop(operands, nextRel.value);
      } else {
        relations.Push(nextRel.value);
      }
      return Ok(());
    }

    method VisitedOperator(op: string) returns (r: Result<(), SqlError>)
      requires Valid()
      modifies this, relations, relations.store, operands, operands.store
      ensures Valid() && Owned()
      ensures Outcome(Step(cfg, old(Current()), VisitOperator(op)), r, Current())
    {
      operands.Push([]);
      var ok := AppendToTop(operands, op);
      assert operands.Contents() == old(operands.Contents()) + [[op]] by { assert [] + [op] == [op]; }
      return Ok(());
    }

    method VisitedEntity(entity: string) returns (r: Result<(), SqlError>)
      requires Valid()
      modifies this, relations, relations.store, operands, operands.store
      ensures Valid() && Owned()
      ensures MayResult(cfg, old(Current()), VisitEntity(entity), r, Current())
    {
      var found := FindSchemaForEntity(cfg.schemas, entity);
      if found.None? {
        return Err(UnknownEntity(entity));
      }
      entities := entities + [TableText(cfg.platform, found.value.0, found.value.1.name)];
      return Ok(());
    }

    method VisitedConstant(c: Constant) returns (r: Result<(), SqlError>)
      requires Valid()
      modifies this, relations, relations.store, operands, operands.store
      ensures Valid() && Owned()
      ensures Outcome(Step(cfg, old(Current()), VisitConstant(c)), r, Current())
    {
      values := values + [c.value];
      var ok := AppendToTop(operands, Placeholder(cfg.platform, |values|));
      return if ok then Ok(()) else Err(EmptyStack);
    }
  }

  /** Where every name means one table, a run has one outcome. */
  lemma {:induction false} OneTableRun(cfg: Config, s: State, visits: seq<Visit>, end: Result<State, SqlError>)
    requires MayRun(cfg, s, visits, end)
    ensures OneTable(cfg) ==> end == Run(cfg, s, visits)
    decreases |visits|
  {
    if visits != [] && OneTable(cfg) {
      var next :|
        && MayStep(cfg, s, visits[0], next)
        && (if next.Ok? then MayRun(cfg, next.value, visits[1..], end) else end == next);
      assert next == Step(cfg, s, visits[0]);
      if next.Ok? {
        OneTableRun(cfg, next.value, visits[1..], end);
      }
    }
  }

  lemma {:induction false} JoinSnoc(texts: seq<string>, last: string)
    ensures Join(texts + [last], "") == Join(texts, "") + last
  {
    if texts == [] {
    } else if |texts| == 1 {
      assert (texts + [last])[1..] == [last];
    } else {
      assert (texts + [last])[1..] == texts[1..] + [last];
      JoinSnoc(texts[1..], last);
    }
  }
}
