/** The partially evaluated policy: what the compiler receives from OPA. */
module RegoAst {
  import opened QueryAst

  /** A step of a reference after its head: a field name or a variable. */
  datatype Elem = Field(text: string) | Iterator(text: string)

  /** Scalars are booleans, strings and numbers. A composite is anything else, with the terms it is made of in
      visiting order: arrays, objects and sets, and null, which has none. */
  datatype Term =
    | Scalar(c: Constant)
    | Variable(name: string)
    | Ref(head: string, path: seq<Elem>)
    | Builtin(op: string, args: seq<Term>)
    | Composite(kind: string, children: seq<Term>)

  /** A call expression of a body, possibly under `not`. */
  datatype Expr = Expr(negated: bool, op: string, args: seq<Term>)

  type Body = seq<Expr>
}
