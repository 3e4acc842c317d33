/**
  The instruction set, values and one-step semantics of the stack virtual
  machine of src/runtime.rs, as pure functions. The class `Runtime.Machine`
  executes programs in place and is proved against `Step` and `Run`.
*/
module Bytecode {
  import opened Results

  /** A runtime value. `f64` numbers are abstracted as reals; `ReturnMark` is the
      sentinel that `Call` pushes below the callee's operands. */
  datatype Value =
    | Number(n: real)
    | Boolean(b: bool)
    | String(s: string)
    | List(items: seq<Value>)
    | ReturnMark

  datatype Op =
    | Return
    | LocalGet(slot: nat)
    | LocalSet(slot: nat)
    | Const(v: Value)
    | Add
    | Sub
    | Div
    | Mul
    | ListAt
    | LowerT
    | GreaterT
    | Equal
    | NotEq
    | Call(callee: string, argc: nat)
    | Print
    | JumpTrue(target: string)
    | JumpFalse(target: string)
    | Label(name: string)
    | End
    | Jump(target: string)
    | Pop

  /** One function's code, as handed to the machine's constructor. */
  datatype ByteCodeFunction = ByteCodeFunction(ops: seq<Op>)

  /** The local slots of one activation. */
  type Frame = map<nat, Value>

  /** The linked program: the flattened instructions and the label table. */
  datatype Program = Program(ops: seq<Op>, labels: map<string, nat>)

  /** The mutable part of the machine. `output` collects the values `Print` writes. */
  datatype State = State(
    pc: nat,
    callStack: seq<nat>,
    valueStack: seq<Value>,
    frames: seq<Frame>,
    output: seq<Value>)

  /** Every panic of the interpreter loop, as a value. */
  datatype Error =
    | EmptyCallStack          // `Return` with no return address
    | EmptyValueStack         // a pop that must succeed found nothing
    | NoFrame                 // `last().unwrap()` on an empty frame stack
    | BadOperand(op: Op)      // a missing or non-number operand of an arithmetic op
    | UnboundLocal(slot: nat) // `LocalGet` of a slot the top frame does not hold
    | UnknownLabel(target: string)
    | Unsupported(op: Op)     // `ListAt`
    | PcOutOfRange(pc: nat)   // `operations[pc]` beyond the program

  /** What one iteration of the interpreter loop does. `Diverge` is the inner
      loop of `Return` spinning forever on an exhausted value stack. */
  datatype StepResult = Next(next: State) | Halt | Fault(error: Error) | Diverge

  // ---------------------------------------------------------------------------
  // Linking: flattening and the label table

  /** The functions' instructions, one function after another. */
  function Flatten(fs: seq<ByteCodeFunction>): seq<Op>
  {
    if fs == [] then [] else Flatten(DropLast(fs)) + Last(fs).ops
  }

  /** The label table built while scanning `ops` from left to right: a later
      `Label` with the same name overwrites an earlier one. */
  function LabelTable(ops: seq<Op>): map<string, nat>
  {
    if ops == [] then map[]
    else
      var t := LabelTable(DropLast(ops));
      if Last(ops).Label? then t[Last(ops).name := |ops| - 1] else t
  }

  /** The start pc: the index of the last `Label("main")`, or 0 when there is none. */
  function EntryPc(ops: seq<Op>): nat
  {
    if ops == [] then 0
    else if Last(ops) == Label("main") then |ops| - 1
    else EntryPc(DropLast(ops))
  }

  /** The program the constructor links from a list of functions. */
  function Link(fs: seq<ByteCodeFunction>): (p: Program)
    ensures p.ops == Flatten(fs)
  {
    var ops := Flatten(fs);
    Program(ops, LabelTable(ops))
  }

  /** The state the constructor starts from. */
  function Initial(fs: seq<ByteCodeFunction>): (s: State)
    ensures s.callStack == [] && s.valueStack == [] && s.output == []
    ensures s.frames == [map[]]
  {
    State(EntryPc(Flatten(fs)), [], [], [map[]], [])
  }

  /** A label is in the table exactly when some `Label` instruction carries it, and
      the table sends it to the LAST such instruction. */
  lemma {:induction false} LabelTableExact(ops: seq<Op>, l: string)
    ensures l in LabelTable(ops) <==> Label(l) in ops
    ensures l in LabelTable(ops) ==>
      var i := LabelTable(ops)[l];
      i < |ops| && ops[i] == Label(l) && forall j :: i < j < |ops| ==> ops[j] != Label(l)
  {
    if ops != [] {
      LabelTableExact(DropLast(ops), l);
      assert ops == DropLast(ops) + [Last(ops)];
    }
  }

  /** The start pc is the table's entry for "main", or 0 when there is no main label. */
  lemma {:induction false} EntryPcIsMainLabel(ops: seq<Op>)
    ensures "main" in LabelTable(ops) ==> EntryPc(ops) == LabelTable(ops)["main"]
    ensures "main" !in LabelTable(ops) ==> EntryPc(ops) == 0
  {
    if ops != [] {
      EntryPcIsMainLabel(DropLast(ops));
    }
  }

  /** Flattening keeps each function's code contiguous and in order. */
  lemma {:induction false} FlattenAppend(fs: seq<ByteCodeFunction>, f: ByteCodeFunction)
    ensures Flatten(fs + [f]) == Flatten(fs) + f.ops
    ensures |Flatten(fs + [f])| == |Flatten(fs)| + |f.ops|
  {
    assert DropLast(fs + [f]) == fs;
  }

  // ---------------------------------------------------------------------------
  // One step of the interpreter loop

  predicate IsArith(op: Op)
  {
    op.Add? || op.Sub? || op.Div? || op.Mul? || op.LowerT? || op.GreaterT?
  }

  /** Real division, with the f64 results of a zero divisor collapsed to 0. */
  function Quotient(x: real, y: real): real
  {
    if y == 0.0 then 0.0 else x / y
  }

  /** What an arithmetic or ordering op pushes when `a` was popped first (the
      right operand) and `b` second (the left operand). */
  function Arith(op: Op, a: real, b: real): Value
    requires IsArith(op)
  {
    if op.Add? then Number(a + b)
    else if op.Sub? then Number(b - a)
    else if op.Mul? then Number(a * b)
    else if op.Div? then Number(Quotient(b, a))
    else if op.LowerT? then Boolean(b < a)
    else Boolean(b > a)
  }

  /** The same as `Arith` with `Div` as src/runtime.rs:119 writes it: the right
      operand divided by the left one. */
  function ArithAsWritten(op: Op, a: real, b: real): Value
    requires IsArith(op)
  {
    if op.Div? then Number(Quotient(a, b)) else Arith(op, a, b)
  }

  /** Infix evaluation `left op right`: the reference for the operand order. */
  function Infix(op: Op, left: real, right: real): Value
    requires IsArith(op)
  {
    if op.Add? then Number(left + right)
    else if op.Sub? then Number(left - right)
    else if op.Mul? then Number(left * right)
    else if op.Div? then Number(Quotient(left, right))
    else if op.LowerT? then Boolean(left < right)
    else Boolean(left > right)
  }

  /** `push_next`: push one value and advance. */
  function PushNext(s: State, v: Value): (r: State)
    ensures r.valueStack == s.valueStack + [v] && r.pc == s.pc + 1
    ensures r.callStack == s.callStack && r.frames == s.frames && r.output == s.output
  {
    s.(pc := s.pc + 1, valueStack := s.valueStack + [v])
  }

  /** Pops through the first `ReturnMark` from the top, giving what lies below it;
      `None` when the stack runs out first. */
  function Drain(vs: seq<Value>): Option<seq<Value>>
  {
    if vs == [] then None
    else if Last(vs) == ReturnMark then Some(DropLast(vs))
    else Drain(DropLast(vs))
  }

  /** The frame a call builds from its arguments, first argument in slot 0. */
  function ArgFrame(args: seq<Value>): (f: Frame)
    ensures forall i: nat :: i in f <==> i < |args|
    ensures forall i: nat :: i < |args| ==> f[i] == args[i]
  {
    map i: nat | i < |args| :: args[i]
  }

  function ArithStep(s: State, op: Op): StepResult
    requires IsArith(op)
  {
    var vs := s.valueStack;
    if |vs| == 0 || !Last(vs).Number? then Fault(BadOperand(op))
    else
      var rest := DropLast(vs);
      if |rest| == 0 || !Last(rest).Number? then Fault(BadOperand(op))
      else Next(PushNext(s.(valueStack := DropLast(rest)), Arith(op, Last(vs).n, Last(rest).n)))
  }

  /** `Equal` (equal = true) and `NotEq` (equal = false). */
  function CompareStep(s: State, equal: bool): StepResult
  {
    var vs := s.valueStack;
    if |vs| < 2 then Fault(EmptyValueStack)
    else
      var a, b := vs[|vs| - 1], vs[|vs| - 2];
      Next(PushNext(s.(valueStack := vs[..|vs| - 2]), Boolean(if equal then a == b else a != b)))
  }

  function CallStep(p: Program, s: State, callee: string, argc: nat): StepResult
  {
    var vs := s.valueStack;
    if |vs| < argc then Fault(EmptyValueStack)
    else if callee !in p.labels then Fault(UnknownLabel(callee))
    else Next(State(
      p.labels[callee],
      s.callStack + [s.pc + 1],
      vs[..|vs| - argc] + [ReturnMark],
      s.frames + [ArgFrame(vs[|vs| - argc..])],
      s.output))
  }

  function ReturnStep(s: State): StepResult
  {
    if |s.callStack| == 0 then Fault(EmptyCallStack)
    else if |s.valueStack| == 0 then Fault(EmptyValueStack)
    else match Drain(DropLast(s.valueStack))
      case None => Diverge
      case Some(below) => Next(s.(
        pc := Last(s.callStack),
        callStack := DropLast(s.callStack),
        frames := if |s.frames| == 0 then [] else DropLast(s.frames),
        valueStack := below + [Last(s.valueStack)]))
  }

  /** `JumpTrue` (polarity = true) and `JumpFalse` (polarity = false): always pop
      when there is something to pop; jump only on the matching boolean. */
  function BranchStep(p: Program, s: State, target: string, polarity: bool): StepResult
  {
    var vs := s.valueStack;
    if |vs| > 0 && Last(vs) == Boolean(polarity) then
      if target in p.labels then Next(s.(pc := p.labels[target], valueStack := DropLast(vs)))
      else Fault(UnknownLabel(target))
    else Next(s.(pc := s.pc + 1, valueStack := if |vs| == 0 then [] else DropLast(vs)))
  }

  /** One iteration of the loop of `execute_program`. */
  function Step(p: Program, s: State): StepResult
  {
    if s.pc >= |p.ops| then Fault(PcOutOfRange(s.pc))
    else
      var vs := s.valueStack;
      match p.ops[s.pc]
      case End => Halt
      case Return => ReturnStep(s)
      case LocalGet(i) =>
        if |s.frames| == 0 then Fault(NoFrame)
        else if i !in Last(s.frames) then Fault(UnboundLocal(i))
        else Next(PushNext(s, Last(s.frames)[i]))
      case LocalSet(i) =>
        if |vs| == 0 then Fault(EmptyValueStack)
        else if |s.frames| == 0 then Fault(NoFrame)
        else Next(s.(
          pc := s.pc + 1,
          valueStack := DropLast(vs),
          frames := DropLast(s.frames) + [Last(s.frames)[i := Last(vs)]]))
      case Const(v) => Next(PushNext(s, v))
      case Add => ArithStep(s, Add)
      case Sub => ArithStep(s, Sub)
      case Div => ArithStep(s, Div)
      case Mul => ArithStep(s, Mul)
      case LowerT => ArithStep(s, LowerT)
      case GreaterT => ArithStep(s, GreaterT)
      case ListAt => Fault(Unsupported(ListAt))
      case Equal => CompareStep(s, true)
      case NotEq => CompareStep(s, false)
      case Call(callee, argc) => CallStep(p, s, callee, argc)
      case Print =>
        if |vs| == 0 then Fault(EmptyValueStack)
        else Next(s.(pc := s.pc + 1, valueStack := DropLast(vs), output := s.output + [Last(vs)]))
      case JumpTrue(l) => BranchStep(p, s, l, true)
      case JumpFalse(l) => BranchStep(p, s, l, false)
      case Label(_) => Next(s.(pc := s.pc + 1))
      case Jump(l) => if l in p.labels then Next(s.(pc := p.labels[l])) else Fault(UnknownLabel(l))
      case Pop => Next(s.(pc := s.pc + 1, valueStack := if |vs| == 0 then [] else DropLast(vs)))
  }

  /** How a bounded run of `execute_program` ends. `Exited(0, s)` is its `Ok(0)`. */
  datatype Outcome =
    | Exited(code: int, final: State)
    | Crashed(error: Error)
    | Hangs
    | OutOfFuel(final: State)

  /** At most `fuel` iterations of the interpreter loop; the loop stops at `End`. */
  function Run(p: Program, s: State, fuel: nat): Outcome
    decreases fuel
  {
    if fuel == 0 then OutOfFuel(s)
    else match Step(p, s)
      case Halt => Exited(0, s)
      case Fault(e) => Crashed(e)
      case Diverge => Hangs
      case Next(s') => Run(p, s', fuel - 1)
  }
}
