/**
  The abstract syntax the code generator consumes (the `parser` module's `Value`,
  `BinaryOp`, `Expr` and `Func`). Source spans are dropped: every `Spanned<Expr>`
  is just its `Expr`.
*/
module Ast {

  /** A literal value as the parser produces it. */
  datatype Value =
    | Null
    | Bool(b: bool)
    | Num(n: real)
    | Str(s: string)
    | List(items: seq<Value>)
    | Func(name: string)

  datatype BinaryOp = Add | Sub | Mul | Div | Eq | NotEq | LowerT | GreaterT | ListAt

  /** `Expr::Value` is called `Literal` here, so that it does not clash with the type `Value`. */
  datatype Expr =
    | Error
    | Literal(value: Value)
    | List(elements: seq<Expr>)
    | LocalVar(name: string)
    | Let(name: string, init: Expr, body: Expr)
    | Then(first: Expr, second: Expr)
    | Binary(lhs: Expr, op: BinaryOp, rhs: Expr)
    | Call(callee: Expr, args: seq<Expr>)
    | If(cond: Expr, thenBranch: Expr, elseBranch: Expr)
    | Print(arg: Expr)
    | Return(arg: Expr)

  /** A function definition: its parameter names, in order, and its body. */
  datatype Func = Func(args: seq<string>, body: Expr)
}
