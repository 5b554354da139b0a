/** Data and operators as both languages see them: an arbitrary database and an arbitrary
    interpretation of constants and operators. */
module Meaning {

  datatype Value = Undefined | Number(n: int) | Text(s: string) | Truth(b: bool)

  type Row = string -> Value

  /** Rows by key. */
  type Table = map<Value, Row>

  datatype Interpretation = Interpretation(
    constant: string -> Value,
    apply: (string, seq<Value>) -> Value,
    equals: (Value, Value) -> Value,
    holds: Value -> bool)

  function Cell(table: Table, key: Value, column: string): Value {
    if key in table then table[key](column) else Undefined
  }

  /** A call with one argument more than its operator takes compares the result with that argument:
      the output position of a Rego built-in, the appended comparison of a call operand. */
  function CallValue(i: Interpretation, arity: nat, op: string, args: seq<Value>): Value {
    if |args| == arity + 1 then i.equals(i.apply(op, args[..arity]), args[arity]) else i.apply(op, args)
  }
}
