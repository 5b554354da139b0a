/** The MongoDB stack machine (internal/pkg/data/mongo-datastore-translator.go). */
module MongoTranslator {
  import opened Results
  import opened Tokens
  import opened QueryAst
  import opened Stacks
  import opened Templates
  import EntityConfig

  datatype Config = Config(entityPaths: EntityConfig.Paths, callOps: CallOperands)

  datatype MongoError =
    | EmptyStack
    | TooManyRelations
    | UnknownOperator(op: string)
    | CallFailed(cause: CallError)
    | NoMapping
    | SliceOutOfRange

  datatype ColFilter = ColFilter(collection: string, filter: string)

  // ---------------------------------------------------------------- the entity matcher

  /** The first "}}" that is reached without a line break. */
  function CloseAt(s: string): Option<nat> {
    if |s| < 2 then None
    else if s[0] == '}' && s[1] == '}' then Some(0)
    else if s[0] == '\n' then None
    else match CloseAt(s[1..])
      case None => None
      case Some(n) => Some(n + 1)
  }

  lemma {:induction false} CloseAtBound(s: string)
    ensures CloseAt(s).Some? ==> CloseAt(s).value + 2 <= |s|
  {
    if |s| >= 2 {
      CloseAtBound(s[1..]);
    }
  }

  /** The length of the match of `\{\{(.*?)}}` at the start of a text. */
  function MatchLength(s: string): (r: Option<nat>)
    ensures r.Some? ==> 4 <= r.value <= |s|
  {
    if "{{" <= s && CloseAt(s[2..]).Some? then
      CloseAtBound(s[2..]);
      Some(CloseAt(s[2..]).value + 4)
    else None
  }

  /** regexp.MatchString. */
  function MatchString(s: string): bool {
    MatchLength(s).Some? || (s != "" && MatchString(s[1..]))
  }

  /** The path of an entity below a collection, with its final dot; nothing for the collection itself. */
  function PathPrefix(paths: EntityConfig.Paths, collection: string, entity: string): Result<string, MongoError> {
    if entity == collection then Ok("")
    else if collection in paths && entity in paths[collection] then
      if paths[collection][entity] == [] then Err(SliceOutOfRange)
      else Ok(Join(paths[collection][entity][1..], ".") + ".")
    else Err(NoMapping)
  }

  /** regexp.ReplaceAllStringFunc with the lookup of the entity named by each match. */
  function ReplaceMarkers(paths: EntityConfig.Paths, collection: string, s: string): Result<string, MongoError>
    decreases |s|
  {
    if s == "" then Ok("")
    else match MatchLength(s)
      case None =>
        var rest :- ReplaceMarkers(paths, collection, s[1..]);
        Ok([s[0]] + rest)
      case Some(n) =>
        if n < 5 then Err(SliceOutOfRange)
        else
          var path :- PathPrefix(paths, collection, s[2..n - 3]);
          var rest :- ReplaceMarkers(paths, collection, s[n..]);
          Ok(path + rest)
  }

  // ---------------------------------------------------------------- one visit, as a function

  datatype State = State(
    filters: seq<ColFilter>,
    entities: seq<string>,
    relations: seq<string>,
    operands: seq<seq<string>>,
    filtersByCollection: map<string, seq<string>>,
    result: map<string, string>)

  const INITIAL := State([], [], [], [], map[], map[])

  function ApplyOperator(cfg: Config, op: string, args: seq<string>): Result<string, MongoError> {
    if op !in cfg.callOps then Err(UnknownOperator(op))
    else match cfg.callOps[op](args)
      case Ok(text) => Ok(text)
      case Err(e) => Err(CallFailed(e))
  }

  /** Two operands change places when the first contains no marker. */
  function Reordered(args: seq<string>): (r: seq<string>)
    ensures |r| == |args|
  {
    if |args| == 2 && !MatchString(args[0]) then [args[1], args[0]] else args
  }

  function MarkedAttribute(entity: string, name: string): string {
    "\"{{" + entity + ".}}" + name + "\""
  }

  function ConstantText(c: Constant): string {
    if c.isNumeric then c.value else "\"" + c.value + "\""
  }

  function ConjunctionText(relations: seq<string>): string {
    "{" + Join(relations, ", ") + "}"
  }

  function CombinedFilter(filters: seq<string>): string {
    "{ \"$or\": [ " + Join(filters, ", ") + " ] }"
  }

  /** Adds the filters to those of their collections. */
  function Regroup(groups: map<string, seq<string>>, filters: seq<ColFilter>): map<string, seq<string>>
    decreases |filters|
  {
    if filters == [] then groups else Regroup(WithFilter(groups, filters[0]), filters[1..])
  }

  function WithFilter(groups: map<string, seq<string>>, f: ColFilter): map<string, seq<string>> {
    groups[f.collection := (if f.collection in groups then groups[f.collection] else []) + [f.filter]]
  }

  function FinalFilter(paths: EntityConfig.Paths, groups: map<string, seq<string>>, collection: string):
    Result<string, MongoError>
    requires collection in groups
  {
    ReplaceMarkers(paths, collection, CombinedFilter(groups[collection]))
  }

  /** The final filters of all collections, or an error of one of them. */
  ghost predicate FinishedUnion(paths: EntityConfig.Paths, groups: map<string, seq<string>>,
                                before: map<string, string>, r: Result<map<string, string>, MongoError>)
  {
    match r
    case Ok(result) =>
      && result.Keys == before.Keys + groups.Keys
      && (forall c :: c in groups ==> FinalFilter(paths, groups, c) == Ok(result[c]))
      && (forall c :: c in before && c !in groups ==> result[c] == before[c])
    case Err(e) =>
      exists c :: c in groups && FinalFilter(paths, groups, c) == Err(e)
  }

  /** Every visit but the last one; the visit of the union is described by FinishedUnion. */
  function Step(cfg: Config, s: State, v: Visit): Result<State, MongoError> {
    match v
    case VisitUnion =>
      Ok(s.(filtersByCollection := Regroup(s.filtersByCollection, s.filters)))
    case VisitQuery =>
      if s.entities == [] then Err(EmptyStack)
      else if |s.relations| > 1 then Err(TooManyRelations)
      else
        var last := |s.entities| - 1;
        Ok(s.(filters := s.filters + [ColFilter(s.entities[last], if s.relations == [] then "" else s.relations[0])],
              entities := s.entities[..last], relations := []))
    case VisitLink =>
      Ok(s.(entities := []))
    case VisitCondition =>
      Ok(s)
    case VisitConjunction =>
      if s.relations == [] then Ok(s) else Ok(s.(relations := [ConjunctionText(s.relations)]))
    case VisitAttribute(name) =>
      if s.entities == [] || s.operands == [] then Err(EmptyStack)
      else
        var last := |s.entities| - 1;
        Ok(s.(entities := s.entities[..last], operands := WithTop(s.operands, MarkedAttribute(s.entities[last], name))))
    case VisitCall =>
      if s.operands == [] || s.operands[|s.operands| - 1] == [] then Err(EmptyStack)
      else
        var last := |s.operands| - 1;
        var ops := s.operands[last];
        var text :- ApplyOperator(cfg, ops[0], Reordered(ops[1..]));
        if last > 0 then Ok(s.(operands := WithTop(s.operands[..last], text)))
        else Ok(s.(operands := [], relations := s.relations + [text]))
    case VisitOperator(op) =>
      Ok(s.(operands := s.operands + [[op]]))
    case VisitEntity(entity) =>
      Ok(s.(entities := s.entities + [entity]))
    case VisitConstant(c) =>
      if s.operands == [] then Err(EmptyStack)
      else Ok(s.(operands := WithTop(s.operands, ConstantText(c))))
  }

  function Run(cfg: Config, s: State, visits: seq<Visit>): Result<State, MongoError>
    decreases |visits|
  {
    if visits == [] then Ok(s)
    else
      var next :- Step(cfg, s, visits[0]);
      Run(cfg, next, visits[1..])
  }

  /** What a translation may return: the first error of the visits, or the finished union. */
  ghost predicate Translated(cfg: Config, input: seq<Query>, r: Result<map<string, string>, MongoError>) {
    match Run(cfg, INITIAL, WalkUnion(input))
    case Err(e) => r == Err(e)
    case Ok(s) => FinishedUnion(cfg.entityPaths, s.filtersByCollection, map[], r)
  }

  // ---------------------------------------------------------------- the translator object

  ghost predicate Outcome(expected: Result<State, MongoError>, r: Result<(), MongoError>, after: State) {
    match expected
    case Ok(s) => r == Ok(()) && after == s
    case Err(e) => r == Err(e)
  }

  class Translator {
    const cfg: Config
    const relations: Stack<string>
    const operands: Stack<seq<string>>
    var result: map<string, string>
    var filtersByCollection: map<string, seq<string>>
    var filters: seq<ColFilter>
    var entities: seq<string>

    predicate Valid()
      reads this, relations, operands
    {
      relations.Valid() && operands.Valid()
    }

    function Current(): State
      requires Valid()
      reads this, relations, relations.store, operands, operands.store
    {
      State(filters, entities, relations.Contents(), operands.Contents(), filtersByCollection, result)
    }

    /** The stacks keep their backing arrays or move to new ones. */
    twostate predicate Owned()
      reads relations, operands
    {
      && (relations.store == old(relations.store) || fresh(relations.store))
      && (operands.store == old(operands.store) || fresh(operands.store))
    }

    constructor (cfg: Config)
      ensures this.cfg == cfg && Valid() && Current() == INITIAL
      ensures fresh(relations) && fresh(relations.store) && fresh(operands) && fresh(operands.store)
    {
      this.cfg := cfg;
      relations := new Stack();
      operands := new Stack();
      result, filtersByCollection, filters, entities := map[], map[], [], [];
    }

    method Translate(input: seq<Query>) returns (r: Result<map<string, string>, MongoError>)
      requires Valid() && Current() == INITIAL
      modifies this, relations, relations.store, operands, operands.store
      ensures Translated(cfg, input, r)
    {
      var visits := WalkUnion(input);
      var n := |visits| - 1;
      assert visits[n] == VisitUnion && visits[0..] == visits;
      NoEarlyUnion(input);
      for i := 0 to n
        invariant Valid() && Owned()
        invariant Run(cfg, INITIAL, visits) == Run(cfg, Current(), visits[i..])
        invariant result == map[]
      {
        assert visits[i..][1..] == visits[i + 1..] && visits[i] == WalkQueries(input)[i];
        var outcome := Visit(visits[i]);
        if outcome.Err? {
          return Err(outcome.error);
        }
      }
      assert visits[n..][1..] == [];
      r := VisitedUnion();
    }

    method Visit(v: Visit) returns (r: Result<(), MongoError>)
      requires !v.VisitUnion?
      requires Valid()
      modifies this, relations, relations.store, operands, operands.store
      ensures Valid() && Owned()
      ensures Outcome(Step(cfg, old(Current()), v), r, Current())
      ensures result == old(result)
    {
      match v
      case VisitQuery => r := VisitedQuery();
      case VisitLink =>
        entities := [];
        r := Ok(());
      case VisitCondition => r := Ok(());
      case VisitConjunction => r := VisitedConjunction();
      case VisitAttribute(name) => r := VisitedAttribute(name);
      case VisitCall => r := VisitedCall();
      case VisitOperator(op) => r := VisitedOperator(op);
      case VisitEntity(entity) =>
        entities := entities + [entity];
        r := Ok(());
      case VisitConstant(c) => r := VisitedConstant(c);
    }

    /** Sorts the filters by collection and finishes the filter of each collection, in any order. */
    method VisitedUnion() returns (r: Result<map<string, string>, MongoError>)
      modifies this
      ensures filtersByCollection == Regroup(old(filtersByCollection), old(filters))
      ensures FinishedUnion(cfg.entityPaths, filtersByCollection, old(result), r)
      ensures r.Ok? ==> result == r.value
    {
      for i := 0 to |filters|
        invariant unchanged(`filters, `result)
        invariant Regroup(filtersByCollection, filters[i..]) == Regroup(old(filtersByCollection), filters)
      {
        assert filters[i..][1..] == filters[i + 1..];
        filtersByCollection := WithFilter(filtersByCollection, filters[i]);
      }
      var rest := filtersByCollection.Keys;
      var groups := filtersByCollection;
      while rest != {}
        invariant rest <= groups.Keys && filtersByCollection == groups
        invariant result.Keys == old(result.Keys) + (groups.Keys - rest)
        invariant forall c :: c in groups && c !in rest ==> FinalFilter(cfg.entityPaths, groups, c) == Ok(result[c])
        invariant forall c :: c in old(result) && c !in groups ==> result[c] == old(result)[c]
        decreases rest
      {
        var collection :| collection in rest;
        var finalFilter := ReplaceMarkers(cfg.entityPaths, collection, CombinedFilter(groups[collection]));
        if finalFilter.Err? {
          assert FinalFilter(cfg.entityPaths, groups, collection) == Err(finalFilter.error);
          return Err(finalFilter.error);
        }
        result := result[collection := finalFilter.value];
        rest := rest - {collection};
      }
      return Ok(result);
    }

    method VisitedQuery() returns (r: Result<(), MongoError>)
      requires Valid()
      modifies this, relations, relations.store, operands, operands.store
      ensures Valid() && Owned()
      ensures Outcome(Step(cfg, old(Current()), VisitQuery), r, Current()) && result == old(result)
    {
      if entities == [] {
        return Err(EmptyStack);
      }
      var entity := entities[|entities| - 1];
      entities := entities[..|entities| - 1];
      var condition := "";
      var empty := relations.IsEmpty();
      if !empty {
        var top := relations.Peek();
        condition := top.value;
        var size := relations.Size();
        if size != 1 {
          return Err(TooManyRelations);
        }
      }
      filters := filters + [ColFilter(entity, condition)];
      relations.Clear();
      return Ok(());
    }

    method VisitedConjunction() returns (r: Result<(), MongoError>)
      requires Valid()
      modifies this, relations, relations.store, operands, operands.store
      ensures Valid() && Owned()
      ensures Outcome(Step(cfg, old(Current()), VisitConjunction), r, Current()) && result == old(result)
    {
      var empty := relations.IsEmpty();
      if !empty {
        var rels := relations.Values();
        relations.Clear();
        assert rels.Read() == old(relations.Contents());
        relations.Push(ConjunctionText(rels.Read()));
      }
      return Ok(());
    }

    method VisitedAttribute(name: string) returns (r: Result<(), MongoError>)
      requires Valid()
      modifies this, relations, relations.store, operands, operands.store
      ensures Valid() && Owned()
      ensures Outcome(Step(cfg, old(Current()), VisitAttribute(name)), r, Current()) && result == old(result)
    {
      if entities == [] {
        return Err(EmptyStack);
      }
      var entity := entities[|entities| - 1];
      entities := entities[..|entities| - 1];
      var ok := AppendToTop(operands, MarkedAttribute(entity, name));
      return if ok then Ok(()) else Err(EmptyStack);
    }

    method VisitedCall() returns (r: Result<(), MongoError>)
      requires Valid()
      modifies this, relations, relations.store, operands, operands.store
      ensures Valid() && Owned()
      ensures Outcome(Step(cfg, old(Current()), VisitCall), r, Current()) && result == old(result)
    {
      ghost var frames := operands.Contents();
      var frame := operands.Pop();
      if frame.None? || frame.value == [] {
        return Err(EmptyStack);
      }
      assert frames[..|frames| - 1] == operands.Contents();
      var ops := frame.value;
      var op := ops[0];
      SwappingReorders(ops);
      if |ops| == 3 {
        if !MatchString(ops[1]) {
          ops := ops[1 := ops[2]][2 := ops[1]];
        }
      }
      hide Reordered, MatchString;
      assert ops[1..] == Reordered(frames[|frames| - 1][1..]);
      if op !in cfg.callOps {
        return Err(UnknownOperator(op));
      }
      var nextRel := cfg.callOps[op](ops[1..]);
      if nextRel.Err? {
        return Err(CallFailed(nextRel.error));
      }
      PlaceCall(nextRel.value);
      return Ok(());
    }

    /** The text of a call is an operand of the frame below, or a relation of its own. */
    method PlaceCall(text: string)
      requires Valid()
      modifies this, relations, relations.store, operands, operands.store
      ensures Valid() && Owned() && result == old(result)
      ensures var s := old(Current());
              Current() == if s.operands != [] then s.(operands := WithTop(s.operands, text))
                           else s.(relations := s.relations + [text])
    {
      var outermost := operands.IsEmpty();
      if !outermost {
        var ok := AppendToTop(operands, text);
      } else {
        relations.Push(text);
      }
    }

    method VisitedOperator(op: string) returns (r: Result<(), MongoError>)
      requires Valid()
      modifies this, relations, relations.store, operands, operands.store
      ensures Valid() && Owned()
      ensures Outcome(Step(cfg, old(Current()), VisitOperator(op)), r, Current()) && result == old(result)
    {
      operands.Push([]);
      var ok := AppendToTop(operands, op);
      assert operands.Contents() == old(operands.Contents()) + [[op]] by { assert [] + [op] == [op]; }
      return Ok(());
    }

    method VisitedConstant(c: Constant) returns (r: Result<(), MongoError>)
      requires Valid()
      modifies this, relations, relations.store, operands, operands.store
      ensures Valid() && Owned()
      ensures Outcome(Step(cfg, old(Current()), VisitConstant(c)), r, Current()) && result == old(result)
    {
      var ok := AppendToTop(operands, ConstantText(c));
      return if ok then Ok(()) else Err(EmptyStack);
    }
  }

  lemma SwappingReorders(ops: seq<string>)
    requires ops != []
    ensures if |ops| == 3 && !MatchString(ops[1])
            then Reordered(ops[1..]) == ops[1 := ops[2]][2 := ops[1]][1..]
            else Reordered(ops[1..]) == ops[1..]
  {
  }

  lemma {:induction false} NoUnionInOperand(o: Operand)
    ensures VisitUnion !in WalkOperand(o)
    decreases o, 1
  {
    if o.Call? {
      NoUnionInOperands(o.args);
    }
  }

  lemma {:induction false} NoUnionInOperands(os: seq<Operand>)
    ensures VisitUnion !in WalkOperands(os)
    decreases os, 0
  {
    if os != [] {
      NoUnionInOperand(os[0]);
      NoUnionInOperands(os[1..]);
    }
  }

  lemma {:induction false} NoUnionInEntities(es: seq<string>)
    ensures VisitUnion !in WalkEntities(es)
  {
    if es != [] {
      NoUnionInEntities(es[1..]);
    }
  }

  /** The union is visited last only. */
  lemma {:induction false} NoEarlyUnion(qs: seq<Query>)
    ensures VisitUnion !in WalkQueries(qs)
  {
    if qs != [] {
      NoUnionInEntities(qs[0].link);
      NoUnionInOperands(qs[0].clauses);
      NoEarlyUnion(qs[1..]);
    }
  }
}
