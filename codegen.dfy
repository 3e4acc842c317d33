/**
  The lowering of src/codegen.rs: from the syntax tree of each function to a list
  of stack-machine instructions. This instruction set is the code generator's own;
  it is not the one the runtime executes.
*/
module Codegen {
  import opened Results
  import Ast

  /** A constant operand (`BopVal`). */
  datatype BopVal =
    | Number(n: real)
    | Boolean(b: bool)
    | String(s: string)
    | List(items: seq<BopVal>)

  datatype ByteCodeOp =
    | Return
    | Local(slot: nat)
    | Store(slot: nat)
    | Load(slot: nat)
    | Const(value: BopVal)
    | Add
    | Sub
    | Div
    | Mul
    | ListAt
    | LowerT
    | GreaterT
    | Equal
    | NotEq
    | Call(callee: string)
    | Print
    | JumpTrue
    | JumpFalse

  /** A lowered function: its name, its code and its number of parameters. */
  datatype BFunc = BFunc(name: string, ops: seq<ByteCodeOp>, argCt: nat)

  /** The ways lowering stops. In the source each of these is a panic, a `todo!`,
      an `unreachable!`, an `unwrap` of `None`, or (for `NoMain`) an error return. */
  datatype CodegenError =
    | Unreachable              // `Expr::Error`
    | NotImplemented           // `Null`, `Expr::List`, `If`
    | FunctionValue            // a `Value::Func` literal
    | ConversionFailed         // `Null` or `Func` inside a list literal
    | UnboundVariable(name: string)
    | NoMain

  /** `From<&Value> for BopVal`: `Null` and `Func` cannot be converted, and a list
      converts when all its elements do. */
  function ToBopVal(v: Ast.Value): Result<BopVal, CodegenError>
  {
    match v
    case Null => Err(ConversionFailed)
    case Bool(b) => Ok(Boolean(b))
    case Num(n) => Ok(Number(n))
    case Str(s) => Ok(String(s))
    case List(l) =>
      if forall i | 0 <= i < |l| :: ToBopVal(l[i]).Ok? then
        Ok(List(seq(|l|, i requires 0 <= i < |l| => ToBopVal(l[i]).value)))
      else
        Err(ConversionFailed)
    case Func(_) => Err(ConversionFailed)
  }

  /** The literal a constant operand stands for. */
  function FromBopVal(b: BopVal): Ast.Value
  {
    match b
    case Number(n) => Ast.Num(n)
    case Boolean(x) => Ast.Bool(x)
    case String(s) => Ast.Str(s)
    case List(items) => Ast.Value.List(seq(|items|, i requires 0 <= i < |items| => FromBopVal(items[i])))
  }

  /** The single instruction a binary operator lowers to. */
  function OpCode(op: Ast.BinaryOp): ByteCodeOp
  {
    match op
    case Add => Add
    case Sub => Sub
    case Mul => Mul
    case Div => Div
    case Eq => Equal
    case NotEq => NotEq
    case LowerT => LowerT
    case GreaterT => GreaterT
    case ListAt => ListAt
  }

  /** What lowering one expression produces: the instructions it appends and the
      variable-to-slot table (`mem_store`) after it. */
  datatype Emitted = Emitted(code: seq<ByteCodeOp>, memStore: map<string, nat>)

  /** `generate_function_bytecode` as a function of its inputs: `storeCt` is the next
      free slot, passed by value, while the table is threaded from one
      sub-expression to the next, as the shared `&mut HashMap` is. `Then` and `Call`
      only print their operands in the source, so they append nothing. */
  function Lowered(e: Ast.Expr, storeCt: nat, memStore: map<string, nat>): Result<Emitted, CodegenError>
  {
    match e
    case Error => Err(Unreachable)
    case Literal(v) =>
      if v.Null? then Err(NotImplemented)
      else if v.Func? then Err(FunctionValue)
      else
        var b :- ToBopVal(v);
        Ok(Emitted([Const(b)], memStore))
    case List(_) => Err(NotImplemented)
    case LocalVar(x) =>
      if x in memStore then Ok(Emitted([Load(memStore[x])], memStore))
      else Err(UnboundVariable(x))
    case Let(x, init, body) =>
      var i :- Lowered(init, storeCt, memStore);
      var b :- Lowered(body, storeCt + 1, i.memStore[x := storeCt]);
      Ok(Emitted(i.code + [Store(storeCt)] + b.code, b.memStore))
    case Then(_, _) => Ok(Emitted([], memStore))
    case Binary(lhs, op, rhs) =>
      var l :- Lowered(lhs, storeCt, memStore);
      var r :- Lowered(rhs, storeCt, l.memStore);
      Ok(Emitted(l.code + r.code + [OpCode(op)], r.memStore))
    case Call(_, _) => Ok(Emitted([], memStore))
    case If(_, _, _) => Err(NotImplemented)
    case Print(x) =>
      var a :- Lowered(x, storeCt, memStore);
      Ok(Emitted(a.code + [Print], a.memStore))
    case Return(x) =>
      var a :- Lowered(x, storeCt, memStore);
      Ok(Emitted(a.code + [Return], a.memStore))
  }

  /** `generate_function_bytecode`: appends the code of `e` to `operations` and
      records `let` bindings in `memStore`. */
  method GenerateFunctionBytecode(e: Ast.Expr, storeCt: nat, memStore: map<string, nat>, operations: seq<ByteCodeOp>)
    returns (status: Result<(), CodegenError>, memOut: map<string, nat>, opsOut: seq<ByteCodeOp>)
    ensures status.Ok? <==> Lowered(e, storeCt, memStore).Ok?
    ensures status.Err? ==> status.error == Lowered(e, storeCt, memStore).error
    ensures status.Ok? ==>
      opsOut == operations + Lowered(e, storeCt, memStore).value.code &&
      memOut == Lowered(e, storeCt, memStore).value.memStore
  {
    memOut, opsOut := memStore, operations;
    match e {
      case Error =>
        return Err(Unreachable), memOut, opsOut;
      case Literal(v) =>
        if v.Null? {
          return Err(NotImplemented), memOut, opsOut;
        }
        if v.Func? {
          return Err(FunctionValue), memOut, opsOut;
        }
        var b := ToBopVal(v);
        if b.Err? {
          return Err(b.error), memOut, opsOut;
        }
        opsOut := opsOut + [Const(b.value)];
        status := Ok(());
      case List(_) =>
        return Err(NotImplemented), memOut, opsOut;
      case LocalVar(x) =>
        if x !in memStore {
          return Err(UnboundVariable(x)), memOut, opsOut;
        }
        opsOut := opsOut + [Load(memStore[x])];
        status := Ok(());
      case Let(x, init, body) =>
        status, memOut, opsOut := GenerateFunctionBytecode(init, storeCt, memOut, opsOut);
        if status.Err? {
          return;
        }
        ghost var i := Lowered(init, storeCt, memStore).value;
        memOut := memOut[x := storeCt];
        opsOut := opsOut + [Store(storeCt)];
        status, memOut, opsOut := GenerateFunctionBytecode(body, storeCt + 1, memOut, opsOut);
        if status.Ok? {
          assert opsOut == operations + (i.code + [Store(storeCt)] + Lowered(body, storeCt + 1, i.memStore[x := storeCt]).value.code);
        }
      case Then(_, _) =>
        status := Ok(());
      case Binary(lhs, op, rhs) =>
        status, memOut, opsOut := GenerateFunctionBytecode(lhs, storeCt, memOut, opsOut);
        if status.Err? {
          return;
        }
        ghost var l := Lowered(lhs, storeCt, memStore).value;
        status, memOut, opsOut := GenerateFunctionBytecode(rhs, storeCt, memOut, opsOut);
        if status.Err? {
          return;
        }
        ghost var r := Lowered(rhs, storeCt, l.memStore).value;
        opsOut := opsOut + [OpCode(op)];
        assert opsOut == operations + (l.code + r.code + [OpCode(op)]);
      case Call(_, _) =>
        status := Ok(());
      case If(_, _, _) =>
        return Err(NotImplemented), memOut, opsOut;
      case Print(x) =>
        status, memOut, opsOut := GenerateFunctionBytecode(x, storeCt, memOut, opsOut);
        if status.Ok? {
          opsOut := opsOut + [Print];
        }
      case Return(x) =>
        status, memOut, opsOut := GenerateFunctionBytecode(x, storeCt, memOut, opsOut);
        if status.Ok? {
          opsOut := opsOut + [Return];
        }
    }
  }

  /** The table after binding the parameters in order: a repeated name ends up at
      its last position. */
  function ParamSlots(args: seq<string>): map<string, nat>
  {
    if args == [] then map[] else ParamSlots(DropLast(args))[Last(args) := |args| - 1]
  }

  /** The prologue `Local(0), …, Local(n-1)`. */
  function Locals(n: nat): seq<ByteCodeOp>
  {
    seq(n, i requires 0 <= i < n => Local(i))
  }

  /** The code of a whole function: the prologue, then its body lowered with the
      parameters bound and the first free slot just past them. */
  function FunctionCode(f: Ast.Func): Result<seq<ByteCodeOp>, CodegenError>
  {
    var body :- Lowered(f.body, |f.args|, ParamSlots(f.args));
    Ok(Locals(|f.args|) + body.code)
  }

  /** `From<&Func> for Vec<RelativeOperation>`. */
  method FunctionOps(f: Ast.Func) returns (r: Result<seq<ByteCodeOp>, CodegenError>)
    ensures r == FunctionCode(f)
  {
    var operations: seq<ByteCodeOp> := [];
    var memStore: map<string, nat> := map[];
    var memCounter: nat := 0;
    for i := 0 to |f.args|
      invariant memCounter == i
      invariant operations == Locals(i)
      invariant memStore == ParamSlots(f.args[..i])
    {
      operations := operations + [Local(i)];
      assert DropLast(f.args[..i + 1]) == f.args[..i];
      memStore := memStore[f.args[i] := memCounter];
      memCounter := memCounter + 1;
    }
    assert f.args[..|f.args|] == f.args;
    var status, _, ops := GenerateFunctionBytecode(f.body, memCounter, memStore, operations);
    if status.Err? {
      return Err(status.error);
    }
    return Ok(ops);
  }

  /** `Generator::generate_bytecod`: one `BFunc` per function of the tree, in the
      (unspecified) order the map yields them, provided there is a `main`. */
  method GenerateBytecode(ast: map<string, Ast.Func>) returns (r: Result<seq<BFunc>, CodegenError>)
    ensures "main" !in ast ==> r == Err(NoMain)
    ensures "main" in ast ==> (r.Ok? <==> forall name | name in ast :: FunctionCode(ast[name]).Ok?)
    ensures r.Err? && "main" in ast ==> exists name | name in ast :: FunctionCode(ast[name]) == Err(r.error)
    ensures r.Ok? ==> |r.value| == |ast|
    ensures r.Ok? ==> forall i, j | 0 <= i < j < |r.value| :: r.value[i].name != r.value[j].name
    ensures r.Ok? ==> forall name | name in ast :: exists i | 0 <= i < |r.value| :: r.value[i].name == name
    ensures r.Ok? ==> forall i | 0 <= i < |r.value| ::
      r.value[i].name in ast &&
      Ok(r.value[i].ops) == FunctionCode(ast[r.value[i].name]) &&
      r.value[i].argCt == |ast[r.value[i].name].args|
  {
    if "main" !in ast {
      return Err(NoMain);
    }
    var funcs: seq<BFunc> := [];
    var todo := ast.Keys;
    while todo != {}
      invariant todo <= ast.Keys
      invariant |funcs| + |todo| == |ast.Keys|
      invariant forall i | 0 <= i < |funcs| ::
        funcs[i].name in ast && funcs[i].name !in todo &&
        Ok(funcs[i].ops) == FunctionCode(ast[funcs[i].name]) &&
        funcs[i].argCt == |ast[funcs[i].name].args|
      invariant forall i, j | 0 <= i < j < |funcs| :: funcs[i].name != funcs[j].name
      invariant forall name | name in ast && name !in todo :: exists i | 0 <= i < |funcs| :: funcs[i].name == name
      decreases |todo|
    {
      var name :| name in todo;
      var code := FunctionOps(ast[name]);
      if code.Err? {
        return Err(code.error);
      }
      ghost var before := funcs;
      funcs := funcs + [BFunc(name, code.value, |ast[name].args|)];
      todo := todo - {name};
      forall n | n in ast && n !in todo
        ensures exists i | 0 <= i < |funcs| :: funcs[i].name == n
      {
        if n == name {
          assert funcs[|funcs| - 1].name == n;
        } else {
          var i :| 0 <= i < |before| && before[i].name == n;
          assert funcs[i].name == n;
        }
      }
    }
    return Ok(funcs);
  }
}
