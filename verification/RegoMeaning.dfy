/** A reference reading of policy bodies, independent of the compiler: iterators range over the keys
    of tables, local variables name column values, and an iterator followed by a column means that
    column of the row the iterator stands for. */
module RegoMeaning {
  import opened Results
  import QueryAst
  import opened RegoAst
  import opened Meaning

  datatype RTerm =
    | RConst(c: QueryAst.Constant)
    | RLocal(name: string)
    | RColumn(datastore: string, table: string, iter: string, column: string)
    | RCall(op: string, args: seq<RTerm>)

  datatype RExpr = RExpr(negated: bool, op: string, args: seq<RTerm>) {
    /** <local> = <column>: a declaration of the local variable. */
    predicate IsDeclaration() {
      op == "eq" && |args| == 2 && args[0].RLocal? && args[1].RColumn?
    }
  }

  /** Where each iterator was bound last: datastore and table. */
  type Bindings = map<string, (string, string)>

  // ---------------------------------------------------------------- reading

  /** Reads data.<datastore>.<table>[<iterator>].<column>, which binds the iterator, and
      <iterator>.<column> for a bound iterator; any other reference is outside the language. */
  function ReadRef(b: Bindings, head: string, path: seq<Elem>): Option<(Bindings, RTerm)> {
    if head in b then
      if |path| == 1 && path[0].Field? then Some((b, RColumn(b[head].0, b[head].1, head, path[0].text))) else None
    else if head == "data" && |path| == 4 && path[0].Field? && path[1].Field? && path[2].Iterator?
        && path[3].Field? then
      Some((b[path[2].text := (path[0].text, path[1].text)],
            RColumn(path[0].text, path[1].text, path[2].text, path[3].text)))
    else None
  }

  /** Variables other than iterators stand for local variables; they occur as direct operands only. */
  function ReadTerm(b: Bindings, t: Term, direct: bool): Option<(Bindings, RTerm)>
    decreases t, 1
  {
    match t
    case Scalar(c) => Some((b, RConst(c)))
    case Variable(name) => if direct then Some((b, RLocal(name))) else None
    case Ref(head, path) => ReadRef(b, head, path)
    case Composite(_, _) => None
    case Builtin(op, args) =>
      match ReadTerms(b, args, false)
      case None => None
      case Some((b', rargs)) => Some((b', RCall(op, rargs)))
  }

  function ReadTerms(b: Bindings, ts: seq<Term>, direct: bool): Option<(Bindings, seq<RTerm>)>
    decreases ts, 0
  {
    if ts == [] then Some((b, []))
    else match ReadTerm(b, ts[0], direct)
      case None => None
      case Some((b1, first)) =>
        match ReadTerms(b1, ts[1..], direct)
        case None => None
        case Some((b2, rest)) => Some((b2, [first] + rest))
  }

  function ReadBody(b: Bindings, q: Body): Option<seq<RExpr>>
    decreases |q|
  {
    if q == [] then Some([])
    else match ReadTerms(b, q[0].args, true)
      case None => None
      case Some((b', args)) =>
        match ReadBody(b', q[1..])
        case None => None
        case Some(rest) => Some([RExpr(q[0].negated, q[0].op, args)] + rest)
  }

  // ---------------------------------------------------------------- what a body mentions

  function TermColumns(t: RTerm): (r: set<RTerm>)
    ensures forall c :: c in r ==> c.RColumn?
    decreases t, 1
  {
    match t
    case RConst(_) => {}
    case RLocal(_) => {}
    case RColumn(_, _, _, _) => {t}
    case RCall(_, args) => TermsColumns(args)
  }

  function TermsColumns(ts: seq<RTerm>): (r: set<RTerm>)
    ensures forall c :: c in r ==> c.RColumn?
    decreases ts, 0
  {
    if ts == [] then {}
    else TermColumns(ts[0]) + TermsColumns(ts[1..])
  }

  /** The column references of a body. */
  function Columns(body: seq<RExpr>): (r: set<RTerm>)
    ensures forall c :: c in r ==> c.RColumn?
  {
    if body == [] then {} else TermsColumns(body[0].args) + Columns(body[1..])
  }

  /** The declarations of a body: local variable and column. */
  function Declarations(body: seq<RExpr>): (r: set<(string, RTerm)>)
    ensures forall d :: d in r ==> d.1.RColumn?
  {
    if body == [] then {}
    else (if body[0].IsDeclaration() then {(body[0].args[0].name, body[0].args[1])} else {}) + Declarations(body[1..])
  }

  // ---------------------------------------------------------------- meaning

  type Database = (string, string) -> Table

  function TermValue(i: Interpretation, arity: string -> nat, db: Database, env: string -> Value, t: RTerm): Value
    decreases t, 1
  {
    match t
    case RConst(c) => i.constant(c.value)
    case RLocal(name) => env(name)
    case RColumn(ds, table, iter, column) => Cell(db(ds, table), env(iter), column)
    case RCall(op, args) => CallValue(i, arity(op), op, TermsValues(i, arity, db, env, args))
  }

  function TermsValues(i: Interpretation, arity: string -> nat, db: Database, env: string -> Value,
                       ts: seq<RTerm>): (r: seq<Value>)
    ensures |r| == |ts|
    decreases ts, 0
  {
    if ts == [] then []
    else [TermValue(i, arity, db, env, ts[0])] + TermsValues(i, arity, db, env, ts[1..])
  }

  predicate ExprHolds(i: Interpretation, arity: string -> nat, db: Database, env: string -> Value, e: RExpr) {
    if e.IsDeclaration() && !e.negated
    then env(e.args[0].name) == TermValue(i, arity, db, env, e.args[1])
    else i.holds(CallValue(i, arity(e.op), e.op, TermsValues(i, arity, db, env, e.args))) != e.negated
  }

  /** Every iterator stands for a key of each table it is used with. */
  predicate InRange(db: Database, env: string -> Value, columns: set<RTerm>)
    requires forall c :: c in columns ==> c.RColumn?
  {
    forall c :: c in columns ==> env(c.iter) in db(c.datastore, c.table)
  }

  predicate Satisfies(i: Interpretation, arity: string -> nat, db: Database, env: string -> Value, body: seq<RExpr>) {
    && InRange(db, env, Columns(body))
    && forall k :: 0 <= k < |body| ==> ExprHolds(i, arity, db, env, body[k])
  }

  /** Some assignment of iterators and local variables satisfies the body. */
  ghost predicate BodyTrue(i: Interpretation, arity: string -> nat, db: Database, body: seq<RExpr>) {
    exists env: string -> Value :: Satisfies(i, arity, db, env, body)
  }
}
