/**
  The `Runtime` struct of src/runtime.rs: a machine whose pc and stacks are
  updated in place. The methods that carry out an instruction equal the
  matching step of module `Bytecode`, and `ExecuteProgram` equals `Run`;
  `PushNext` states its update directly, and `PopArguments` and
  `DrainToSentinel` are proved against `ArgFrame` and `Drain`.
*/
module Runtime {
  import opened Results
  import opened Bytecode

  class Machine {
    const operations: seq<Op>
    const labelOffsets: map<string, nat>
    var pc: nat
    var callStack: seq<nat>
    var valueStack: seq<Value>
    var frames: seq<Frame>   // `ftxc_stack`
    var output: seq<Value>   // what `Print` has written, in order

    function Prog(): Program
    {
      Program(operations, labelOffsets)
    }

    function Snapshot(): State
      reads this
    {
      State(pc, callStack, valueStack, frames, output)
    }

    /** `Runtime::new`: flattens the functions, recording every label's offset
        and the offset of `Label("main")` on the way. */
    constructor (functions: seq<ByteCodeFunction>)
      ensures Prog() == Link(functions)
      ensures Snapshot() == Initial(functions)
    {
      var ops: seq<Op> := [];
      var labels: map<string, nat> := map[];
      var entry: nat := 0;
      var k := 0;
      while k < |functions|
        invariant k <= |functions|
        invariant ops == Flatten(functions[..k])
        invariant labels == LabelTable(ops) && entry == EntryPc(ops)
      {
        var code := functions[k].ops;
        var j := 0;
        while j < |code|
          invariant j <= |code|
          invariant ops == Flatten(functions[..k]) + code[..j]
          invariant labels == LabelTable(ops) && entry == EntryPc(ops)
        {
          var op := code[j];
          if op.Label? {
            if op.name == "main" {
              entry := |ops|;
            }
            labels := labels[op.name := |ops|];
          }
          assert DropLast(ops + [op]) == ops;
          ops := ops + [op];
          j := j + 1;
        }
        FlattenAppend(functions[..k], functions[k]);
        assert functions[..k + 1] == functions[..k] + [functions[k]];
        k := k + 1;
      }
      assert functions[..k] == functions;
      operations := ops;
      labelOffsets := labels;
      pc := entry;
      callStack := [];
      valueStack := [];
      frames := [map[]];
      output := [];
    }

    /** `push_next`. */
    method PushNext(v: Value)
      modifies this`pc, this`valueStack
      ensures pc == old(pc) + 1 && valueStack == old(valueStack) + [v]
    {
      pc := pc + 1;
      valueStack := valueStack + [v];
    }

    /** The `for` loop of `Call`: pops `argc` values, the last pushed into slot argc-1. */
    method PopArguments(argc: nat) returns (ok: bool, frame: Frame)
      modifies this`valueStack
      ensures ok <==> argc <= |old(valueStack)|
      ensures ok ==> valueStack == old(valueStack)[..|old(valueStack)| - argc]
      ensures ok ==> frame == ArgFrame(old(valueStack)[|old(valueStack)| - argc..])
    {
      ghost var vs := valueStack;
      frame := map[];
      var i: nat := argc;
      while i > 0
        invariant i <= argc && argc - i <= |vs|
        invariant valueStack == vs[..|vs| - (argc - i)]
        invariant forall j: nat :: j in frame <==> i <= j < argc
        invariant forall j: nat :: i <= j < argc ==> frame[j] == vs[|vs| - argc + j]
      {
        if |valueStack| == 0 {
          return false, frame;
        }
        i := i - 1;
        frame := frame[i := Last(valueStack)];
        valueStack := DropLast(valueStack);
      }
      ok := true;
      ghost var args := vs[|vs| - argc..];
      assert frame == ArgFrame(args) by {
        forall j: nat | j in frame ensures j in ArgFrame(args) && frame[j] == ArgFrame(args)[j] {
        }
      }
    }

    /** The inner `while` of `Return`: pops up to and including the sentinel. The
        source spins forever when the stack runs out; here `found` is false. */
    method DrainToSentinel() returns (found: bool)
      modifies this`valueStack
      ensures found <==> Drain(old(valueStack)).Some?
      ensures found ==> valueStack == Drain(old(valueStack)).value
    {
      found := false;
      while !found
        invariant !found ==> Drain(valueStack) == Drain(old(valueStack))
        invariant found ==> Drain(old(valueStack)) == Some(valueStack)
        decreases |valueStack|, if found then 0 else 1
      {
        if |valueStack| == 0 {
          return;
        }
        var top := Last(valueStack);
        valueStack := DropLast(valueStack);
        found := top == ReturnMark;
      }
    }

    method Arithmetic(op: Op) returns (r: StepResult)
      requires IsArith(op)
      modifies this`pc, this`valueStack
      ensures r == ArithStep(old(Snapshot()), op)
      ensures r.Next? ==> Snapshot() == r.next
    {
      if |valueStack| == 0 || !Last(valueStack).Number? {
        return Fault(BadOperand(op));
      }
      var a := Last(valueStack).n;
      valueStack := DropLast(valueStack);
      if |valueStack| == 0 || !Last(valueStack).Number? {
        return Fault(BadOperand(op));
      }
      var b := Last(valueStack).n;
      valueStack := DropLast(valueStack);
      PushNext(Arith(op, a, b));
      return Next(Snapshot());
    }

    method Compare(equal: bool) returns (r: StepResult)
      modifies this`pc, this`valueStack
      ensures r == CompareStep(old(Snapshot()), equal)
      ensures r.Next? ==> Snapshot() == r.next
    {
      if |valueStack| == 0 {
        return Fault(EmptyValueStack);
      }
      var a := Last(valueStack);
      valueStack := DropLast(valueStack);
      if |valueStack| == 0 {
        return Fault(EmptyValueStack);
      }
      var b := Last(valueStack);
      valueStack := DropLast(valueStack);
      PushNext(Boolean(if equal then a == b else a != b));
      return Next(Snapshot());
    }

    method CallFunction(callee: string, argc: nat) returns (r: StepResult)
      modifies this`pc, this`valueStack, this`frames, this`callStack
      ensures r == CallStep(Prog(), old(Snapshot()), callee, argc)
      ensures r.Next? ==> Snapshot() == r.next
    {
      var ok, frame := PopArguments(argc);
      if !ok {
        return Fault(EmptyValueStack);
      }
      valueStack := valueStack + [ReturnMark];
      frames := frames + [frame];
      callStack := callStack + [pc + 1];
      if callee !in labelOffsets {
        return Fault(UnknownLabel(callee));
      }
      pc := labelOffsets[callee];
      return Next(Snapshot());
    }

    method ReturnFromCall() returns (r: StepResult)
      modifies this`pc, this`valueStack, this`frames, this`callStack
      ensures r == ReturnStep(old(Snapshot()))
      ensures r.Next? ==> Snapshot() == r.next
    {
      if |callStack| == 0 {
        return Fault(EmptyCallStack);
      }
      pc := Last(callStack);
      callStack := DropLast(callStack);
      if |frames| > 0 {
        frames := DropLast(frames);
      }
      if |valueStack| == 0 {
        return Fault(EmptyValueStack);
      }
      var ret := Last(valueStack);
      valueStack := DropLast(valueStack);
      var found := DrainToSentinel();
      if !found {
        return Diverge;
      }
      valueStack := valueStack + [ret];
      return Next(Snapshot());
    }

    method Branch(target: string, polarity: bool) returns (r: StepResult)
      modifies this`pc, this`valueStack
      ensures r == BranchStep(Prog(), old(Snapshot()), target, polarity)
      ensures r.Next? ==> Snapshot() == r.next
    {
      var popped: Option<Value> := None;
      if |valueStack| > 0 {
        popped := Some(Last(valueStack));
        valueStack := DropLast(valueStack);
      }
      if popped == Some(Boolean(polarity)) {
        if target !in labelOffsets {
          return Fault(UnknownLabel(target));
        }
        pc := labelOffsets[target];
      } else {
        pc := pc + 1;
      }
      return Next(Snapshot());
    }

    /** The body of the interpreter loop for the instruction at `pc`. */
    method Dispatch() returns (r: StepResult)
      requires pc < |operations| && operations[pc] != End
      modifies this
      ensures r == Step(Prog(), old(Snapshot())) && !r.Halt?
      ensures r.Next? ==> Snapshot() == r.next
    {
      var op := operations[pc];
      match op {
        case Return =>
          r := ReturnFromCall();
        case LocalGet(i) =>
          if |frames| == 0 {
            return Fault(NoFrame);
          }
          if i !in Last(frames) {
            return Fault(UnboundLocal(i));
          }
          PushNext(Last(frames)[i]);
          r := Next(Snapshot());
        case LocalSet(i) =>
          if |valueStack| == 0 {
            return Fault(EmptyValueStack);
          }
          var v := Last(valueStack);
          valueStack := DropLast(valueStack);
          if |frames| == 0 {
            return Fault(NoFrame);
          }
          frames := DropLast(frames) + [Last(frames)[i := v]];
          pc := pc + 1;
          r := Next(Snapshot());
        case Const(v) =>
          PushNext(v);
          r := Next(Snapshot());
        case Add =>
          r := Arithmetic(op);
        case Sub =>
          r := Arithmetic(op);
        case Div =>
          r := Arithmetic(op);
        case Mul =>
          r := Arithmetic(op);
        case ListAt =>
          r := Fault(Unsupported(ListAt));
        case LowerT =>
          r := Arithmetic(op);
        case GreaterT =>
          r := Arithmetic(op);
        case Equal =>
          r := Compare(true);
        case NotEq =>
          r := Compare(false);
        case Call(callee, argc) =>
          r := CallFunction(callee, argc);
        case Print =>
          if |valueStack| == 0 {
            return Fault(EmptyValueStack);
          }
          output := output + [Last(valueStack)];
          valueStack := DropLast(valueStack);
          pc := pc + 1;
          r := Next(Snapshot());
        case JumpTrue(l) =>
          r := Branch(l, true);
        case JumpFalse(l) =>
          r := Branch(l, false);
        case Label(_) =>
          pc := pc + 1;
          r := Next(Snapshot());
        case End =>
          assert false;
        case Jump(l) =>
          if l !in labelOffsets {
            return Fault(UnknownLabel(l));
          }
          pc := labelOffsets[l];
          r := Next(Snapshot());
        case Pop =>
          if |valueStack| > 0 {
            valueStack := DropLast(valueStack);
          }
          pc := pc + 1;
          r := Next(Snapshot());
      }
    }

    /** `execute_program`, bounded by `fuel` iterations: loops until the instruction
        at `pc` is `End` and then returns 0. */
    method ExecuteProgram(fuel: nat) returns (r: Outcome)
      modifies this
      ensures r == Run(Prog(), old(Snapshot()), fuel)
      ensures r.Exited? || r.OutOfFuel? ==> Snapshot() == r.final
    {
      var remaining := fuel;
      while remaining > 0
        invariant Run(Prog(), Snapshot(), remaining) == Run(Prog(), old(Snapshot()), fuel)
      {
        if pc >= |operations| {
          return Crashed(PcOutOfRange(pc));
        }
        if operations[pc] == End {
          return Exited(0, Snapshot());
        }
        var step := Dispatch();
        if step.Fault? {
          return Crashed(step.error);
        }
        if step.Diverge? {
          return Hangs;
        }
        remaining := remaining - 1;
      }
      return OutOfFuel(Snapshot());
    }
  }
}
