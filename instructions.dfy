/**
  What each instruction of src/runtime.rs does to the machine, stated against
  `Bytecode.Step`, and what a bounded run of the interpreter loop promises.
*/
module Instructions {
  import opened Results
  import opened Bytecode

  /** The state `s` is about to execute `op`. */
  predicate At(p: Program, s: State, op: Op)
  {
    s.pc < |p.ops| && p.ops[s.pc] == op
  }

  /** `Const(v)` pushes exactly `v` and advances; nothing else changes. */
  lemma ConstPushesOne(p: Program, s: State, v: Value)
    requires At(p, s, Const(v))
    ensures Step(p, s) == Next(s.(pc := s.pc + 1, valueStack := s.valueStack + [v]))
  {
  }

  /** `LocalGet(i)` pushes slot `i` of the top frame and advances; it fails exactly
      when there is no frame or the top frame does not hold slot `i`. */
  lemma LocalGetReadsTopFrame(p: Program, s: State, i: nat)
    requires At(p, s, LocalGet(i))
    ensures Step(p, s).Fault? <==> |s.frames| == 0 || i !in Last(s.frames)
    ensures |s.frames| > 0 && i !in Last(s.frames) ==> Step(p, s) == Fault(UnboundLocal(i))
    ensures |s.frames| > 0 && i in Last(s.frames) ==>
      Step(p, s) == Next(s.(pc := s.pc + 1, valueStack := s.valueStack + [Last(s.frames)[i]]))
  {
  }

  /** `LocalSet(i)` pops one value into slot `i` of the top frame and advances. Every
      other frame, every other slot, the call stack and the output are unchanged.
      It fails on an empty value stack. */
  lemma LocalSetWritesTopFrame(p: Program, s: State, i: nat)
    requires At(p, s, LocalSet(i))
    ensures |s.valueStack| == 0 ==> Step(p, s) == Fault(EmptyValueStack)
    ensures |s.valueStack| > 0 && |s.frames| > 0 ==>
      Step(p, s).Next? &&
      var s' := Step(p, s).next;
      && s'.pc == s.pc + 1 && s'.callStack == s.callStack && s'.output == s.output
      && s'.valueStack == DropLast(s.valueStack)
      && |s'.frames| == |s.frames|
      && (forall j :: 0 <= j < |s.frames| - 1 ==> s'.frames[j] == s.frames[j])
      && Last(s'.frames)[i] == Last(s.valueStack)
      && Last(s'.frames).Keys == Last(s.frames).Keys + {i}
      && (forall k :: k in Last(s.frames) && k != i ==> Last(s'.frames)[k] == Last(s.frames)[k])
  {
  }

  /** An arithmetic or ordering op pops the right operand, then the left one, and
      pushes `left op right`: the stack shrinks by one. A missing or non-number
      operand fails. */
  lemma ArithPopsTwoPushesOne(p: Program, s: State, op: Op)
    requires IsArith(op) && At(p, s, op)
    ensures Step(p, s).Fault? <==>
      !(|s.valueStack| >= 2 && s.valueStack[|s.valueStack| - 1].Number? && s.valueStack[|s.valueStack| - 2].Number?)
    ensures Step(p, s).Fault? ==> Step(p, s) == Fault(BadOperand(op))
    ensures forall rest, left, right :: s.valueStack == rest + [Number(left), Number(right)] ==>
      Step(p, s) == Next(s.(pc := s.pc + 1, valueStack := rest + [Infix(op, left, right)]))
  {
    forall rest, left, right | s.valueStack == rest + [Number(left), Number(right)]
      ensures Step(p, s) == Next(s.(pc := s.pc + 1, valueStack := rest + [Infix(op, left, right)]))
    {
      var vs := s.valueStack;
      assert Last(vs) == Number(right) && DropLast(vs) == rest + [Number(left)];
      assert Last(DropLast(vs)) == Number(left) && DropLast(DropLast(vs)) == rest;
      assert Arith(op, right, left) == Infix(op, left, right);
    }
  }

  /** `Equal` and `NotEq` compare any two values, never failing on their variants;
      they fail only when fewer than two values are on the stack. */
  lemma EqualityIsTotal(p: Program, s: State, op: Op)
    requires (op == Equal || op == NotEq) && At(p, s, op)
    ensures Step(p, s).Fault? <==> |s.valueStack| < 2
    ensures forall rest, b, a :: s.valueStack == rest + [b, a] ==>
      Step(p, s) == Next(s.(pc := s.pc + 1, valueStack := rest + [Boolean((a == b) == (op == Equal))]))
  {
    forall rest, b, a | s.valueStack == rest + [b, a]
      ensures Step(p, s) == Next(s.(pc := s.pc + 1, valueStack := rest + [Boolean((a == b) == (op == Equal))]))
    {
      assert s.valueStack[..|s.valueStack| - 2] == rest;
    }
  }

  /** `Call(f, argc)`: the i-th of the `argc` arguments, in push order, lands in slot
      i of a new frame; the sentinel replaces the arguments; the return address is
      the next instruction; execution continues at `f`'s label. Too few values or
      an unknown `f` fail. */
  lemma CallEntersFunction(p: Program, s: State, f: string, argc: nat)
    requires At(p, s, Call(f, argc))
    ensures |s.valueStack| < argc ==> Step(p, s) == Fault(EmptyValueStack)
    ensures argc <= |s.valueStack| && f !in p.labels ==> Step(p, s) == Fault(UnknownLabel(f))
    ensures argc <= |s.valueStack| && f in p.labels ==>
      var n := |s.valueStack| - argc;
      Step(p, s).Next? &&
      var s' := Step(p, s).next;
      && s'.pc == p.labels[f]
      && s'.callStack == s.callStack + [s.pc + 1]
      && s'.valueStack == s.valueStack[..n] + [ReturnMark]
      && s'.frames[..|s.frames|] == s.frames && |s'.frames| == |s.frames| + 1
      && (forall i :: 0 <= i < argc <==> i in Last(s'.frames))
      && (forall i :: 0 <= i < argc ==> Last(s'.frames)[i] == s.valueStack[n + i])
      && s'.output == s.output
  {
  }

  /** `JumpTrue(l)` / `JumpFalse(l)` pop one value when there is one, and jump to
      `l` only when it is the boolean of the instruction's polarity; otherwise,
      also for a non-boolean or an empty stack, they advance by one. */
  lemma BranchOnlyOnMatchingBoolean(p: Program, s: State, l: string, polarity: bool)
    requires At(p, s, if polarity then JumpTrue(l) else JumpFalse(l))
    ensures var vs := s.valueStack;
      |vs| > 0 && Last(vs) == Boolean(polarity) && l in p.labels ==>
      Step(p, s) == Next(s.(pc := p.labels[l], valueStack := DropLast(vs)))
    ensures var vs := s.valueStack;
      !(|vs| > 0 && Last(vs) == Boolean(polarity)) ==>
      Step(p, s) == Next(s.(pc := s.pc + 1, valueStack := if |vs| == 0 then [] else DropLast(vs)))
    ensures Step(p, s).Fault? <==>
      |s.valueStack| > 0 && Last(s.valueStack) == Boolean(polarity) && l !in p.labels
  {
  }

  /** `Jump`, `Label`, `Pop` and `Print` as written: a jump moves only the pc, a
      label only advances, `Pop` drops the top value if there is one, `Print`
      moves the top value to the output. */
  lemma ControlOps(p: Program, s: State)
    requires s.pc < |p.ops|
    ensures p.ops[s.pc].Jump? && p.ops[s.pc].target in p.labels ==>
      Step(p, s) == Next(s.(pc := p.labels[p.ops[s.pc].target]))
    ensures p.ops[s.pc].Jump? && p.ops[s.pc].target !in p.labels ==>
      Step(p, s) == Fault(UnknownLabel(p.ops[s.pc].target))
    ensures p.ops[s.pc].Label? ==> Step(p, s) == Next(s.(pc := s.pc + 1))
    ensures p.ops[s.pc] == Pop ==>
      Step(p, s) == Next(s.(pc := s.pc + 1,
        valueStack := if |s.valueStack| == 0 then [] else DropLast(s.valueStack)))
    ensures p.ops[s.pc] == Print && |s.valueStack| > 0 ==>
      Step(p, s) == Next(s.(pc := s.pc + 1, valueStack := DropLast(s.valueStack),
        output := s.output + [Last(s.valueStack)]))
    ensures p.ops[s.pc] == ListAt ==> Step(p, s) == Fault(Unsupported(ListAt))
  {
  }

  /** The interpreter loop stops exactly at an `End` instruction. */
  lemma HaltsExactlyAtEnd(p: Program, s: State)
    ensures Step(p, s) == Halt <==> At(p, s, End)
  {
  }

  /** A run that exits returns 0 from a state about to execute `End`. */
  lemma {:induction false} ExitsOnlyAtEnd(p: Program, s: State, fuel: nat)
    requires Run(p, s, fuel).Exited?
    ensures Run(p, s, fuel).code == 0 && At(p, Run(p, s, fuel).final, End)
    decreases fuel
  {
    if Step(p, s).Next? {
      ExitsOnlyAtEnd(p, Step(p, s).next, fuel - 1);
    }
  }

  /** Fuel only bounds the run: a run that ends within `fuel` iterations ends the
      same way with any more fuel. */
  lemma {:induction false} MoreFuelSameOutcome(p: Program, s: State, fuel: nat, more: nat)
    requires !Run(p, s, fuel).OutOfFuel?
    requires fuel <= more
    ensures Run(p, s, more) == Run(p, s, fuel)
    decreases fuel
  {
    if Step(p, s).Next? {
      MoreFuelSameOutcome(p, Step(p, s).next, fuel - 1, more - 1);
    }
  }

  /** The operand order of the machine: pushing `left`, then `right`, then
      executing an arithmetic or ordering op leaves `left op right`. */
  lemma OperandOrder(op: Op, left: real, right: real)
    requires IsArith(op)
    ensures Arith(op, right, left) == Infix(op, left, right)
  {
  }

  /** `Div` as written divides the right operand by the left one: for `10 / 2` it
      leaves 0.2 where infix evaluation gives 5. */
  lemma DivAsWrittenSwapsOperands()
    ensures ArithAsWritten(Div, 2.0, 10.0) == Number(0.2)
    ensures Infix(Div, 10.0, 2.0) == Number(5.0)
    ensures ArithAsWritten(Div, 2.0, 10.0) != Infix(Div, 10.0, 2.0)
  {
  }

  /** For every input, the arithmetic as written agrees with infix evaluation on
      every op but `Div`, and for `Div` it evaluates `right / left`. */
  lemma AsWrittenOperandOrder(op: Op, left: real, right: real)
    requires IsArith(op)
    ensures !op.Div? ==> ArithAsWritten(op, right, left) == Infix(op, left, right)
    ensures op.Div? ==> ArithAsWritten(op, right, left) == Infix(Div, right, left)
    ensures op.Div? && left != 0.0 && right != 0.0 ==>
      (ArithAsWritten(op, right, left) == Infix(op, left, right) <==> right == left || right == -left)
  {
    if op.Div? && left != 0.0 && right != 0.0 {
      var q, q' := right / left, left / right;
      assert q * left == right && q' * right == left;
      if q == q' {
        assert right * right == q * left * right;
        assert left * left == q' * right * left;
        assert (right - left) * (right + left) == 0.0;
      }
    }
  }

  /** `add(a, b) { return a + b; }` followed by `main`, which prints `add(2, 3)`. */
  function AddFunctions(): seq<ByteCodeFunction>
  {
    [ByteCodeFunction([Label("add"), LocalGet(0), LocalGet(1), Add, Return]),
     ByteCodeFunction([Label("main"), Const(Number(2.0)), Const(Number(3.0)), Call("add", 2), Print, End])]
  }

  /** One more instruction at the end of the scan. */
  lemma ScanOne(ops: seq<Op>, op: Op)
    ensures LabelTable(ops + [op]) == if op.Label? then LabelTable(ops)[op.name := |ops|] else LabelTable(ops)
    ensures EntryPc(ops + [op]) == if op == Label("main") then |ops| else EntryPc(ops)
  {
    var ops' := ops + [op];
    assert Last(ops') == op && DropLast(ops') == ops && ops' != [];
  }

  /** Scanning the code of `add`: its label lands at 0. */
  lemma AddScanFirst()
    ensures LabelTable(AddFunctions()[0].ops) == map["add" := 0]
    ensures EntryPc(AddFunctions()[0].ops) == 0
  {
    var prefix: seq<Op> := [];
    ScanOne(prefix, Label("add"));
    prefix := prefix + [Label("add")];
    assert LabelTable(prefix) == map["add" := 0] && EntryPc(prefix) == 0;
    ScanOne(prefix, LocalGet(0));
    prefix := prefix + [LocalGet(0)];
    assert LabelTable(prefix) == map["add" := 0] && EntryPc(prefix) == 0;
    ScanOne(prefix, LocalGet(1));
    prefix := prefix + [LocalGet(1)];
    assert LabelTable(prefix) == map["add" := 0] && EntryPc(prefix) == 0;
    ScanOne(prefix, Add);
    prefix := prefix + [Add];
    assert LabelTable(prefix) == map["add" := 0] && EntryPc(prefix) == 0;
    ScanOne(prefix, Return);
    prefix := prefix + [Return];
    assert LabelTable(prefix) == map["add" := 0] && EntryPc(prefix) == 0;
    assert prefix == AddFunctions()[0].ops;
  }

  /** Scanning the code of `main` after five instructions: its label lands at 5. */
  lemma AddScanSecond(first: seq<Op>)
    requires |first| == 5 && LabelTable(first) == map["add" := 0]
    ensures LabelTable(first + AddFunctions()[1].ops) == map["add" := 0, "main" := 5]
    ensures EntryPc(first + AddFunctions()[1].ops) == 5
  {
    var prefix := first;
    ScanOne(prefix, Label("main"));
    prefix := prefix + [Label("main")];
    assert LabelTable(prefix) == map["add" := 0, "main" := 5] && EntryPc(prefix) == 5;
    ScanOne(prefix, Const(Number(2.0)));
    prefix := prefix + [Const(Number(2.0))];
    assert LabelTable(prefix) == map["add" := 0, "main" := 5] && EntryPc(prefix) == 5;
    ScanOne(prefix, Const(Number(3.0)));
    prefix := prefix + [Const(Number(3.0))];
    assert LabelTable(prefix) == map["add" := 0, "main" := 5] && EntryPc(prefix) == 5;
    ScanOne(prefix, Call("add", 2));
    prefix := prefix + [Call("add", 2)];
    assert LabelTable(prefix) == map["add" := 0, "main" := 5] && EntryPc(prefix) == 5;
    ScanOne(prefix, Print);
    prefix := prefix + [Print];
    assert LabelTable(prefix) == map["add" := 0, "main" := 5] && EntryPc(prefix) == 5;
    ScanOne(prefix, End);
    prefix := prefix + [End];
    assert LabelTable(prefix) == map["add" := 0, "main" := 5] && EntryPc(prefix) == 5;
    assert prefix == first + AddFunctions()[1].ops;
  }

  /** Linking places `add` at 0 and `main` at 5, and starts at `main`. */
  lemma AddLinks()
    ensures Link(AddFunctions()) == AddProgram()
    ensures Initial(AddFunctions()) == State(5, [], [], [map[]], [])
  {
    var fs := AddFunctions();
    assert Flatten(fs) == AddProgram().ops by {
      assert DropLast(fs) == [fs[0]] && DropLast([fs[0]]) == [];
      assert Flatten([fs[0]]) == fs[0].ops;
    }
    AddScanFirst();
    AddScanSecond(fs[0].ops);
  }

  function AddProgram(): Program
  {
    Program(AddFunctions()[0].ops + AddFunctions()[1].ops, map["add" := 0, "main" := 5])
  }

  /** One iteration of the loop that continues, followed by the rest of the run. */
  lemma RunUnfolds(p: Program, s: State, s': State, fuel: nat)
    requires Step(p, s) == Next(s')
    ensures Run(p, s, fuel + 1) == Run(p, s', fuel)
  {
  }

  /** The instructions of the linked example, one by one. */
  lemma AddOps()
    ensures var ops := AddProgram().ops;
      |ops| == 11 &&
      ops[0] == Label("add") && ops[1] == LocalGet(0) && ops[2] == LocalGet(1) && ops[3] == Add &&
      ops[4] == Return && ops[5] == Label("main") && ops[6] == Const(Number(2.0)) &&
      ops[7] == Const(Number(3.0)) && ops[8] == Call("add", 2) && ops[9] == Print && ops[10] == End
  {
  }

  /** `main` pushes 2 and 3 and calls `add`: both are bound in a fresh frame and the
      stack holds only the sentinel. */
  lemma AddCallerSetup()
    ensures Run(AddProgram(), State(5, [], [], [map[]], []), 11) ==
            Run(AddProgram(), State(0, [9], [ReturnMark], [map[], map[0 := Number(2.0), 1 := Number(3.0)]], []), 7)
  {
    var p := AddProgram();
    AddOps();
    var two, three := Number(2.0), Number(3.0);
    var s5 := State(5, [], [], [map[]], []);
    var s6 := s5.(pc := 6);
    var s7 := s6.(pc := 7, valueStack := [two]);
    var s8 := s7.(pc := 8, valueStack := [two, three]);
    var s0 := State(0, [9], [ReturnMark], [map[], map[0 := two, 1 := three]], []);
    assert Step(p, s5) == Next(s6) by { assert p.ops[5] == Label("main"); }
    assert Step(p, s6) == Next(s7) by { assert p.ops[6] == Const(two); }
    assert Step(p, s7) == Next(s8) by { assert p.ops[7] == Const(three); }
    assert Step(p, s8) == Next(s0) by {
      assert p.ops[8] == Call("add", 2) && p.labels["add"] == 0;
      assert ArgFrame([two, three]) == map[0 := two, 1 := three];
      assert [two, three][0..] == [two, three] && [two, three][..0] == [];
    }
    RunUnfolds(p, s5, s6, 10);
    RunUnfolds(p, s6, s7, 9);
    RunUnfolds(p, s7, s8, 8);
    RunUnfolds(p, s8, s0, 7);
  }

  /** `add` reads both slots, adds them and returns to pc 9 with only the sum left. */
  lemma AddCallee()
    ensures Run(AddProgram(), State(0, [9], [ReturnMark], [map[], map[0 := Number(2.0), 1 := Number(3.0)]], []), 7) ==
            Run(AddProgram(), State(9, [], [Number(5.0)], [map[]], []), 2)
  {
    var p := AddProgram();
    AddOps();
    var two, three := Number(2.0), Number(3.0);
    var s0 := State(0, [9], [ReturnMark], [map[], map[0 := two, 1 := three]], []);
    var s1 := s0.(pc := 1);
    var s2 := s1.(pc := 2, valueStack := [ReturnMark, two]);
    var s3 := s2.(pc := 3, valueStack := [ReturnMark, two, three]);
    var s4 := s3.(pc := 4, valueStack := [ReturnMark, Number(5.0)]);
    var s9 := State(9, [], [Number(5.0)], [map[]], []);
    assert Step(p, s0) == Next(s1) by { assert p.ops[0] == Label("add"); }
    assert Step(p, s1) == Next(s2) by { assert p.ops[1] == LocalGet(0); }
    assert Step(p, s2) == Next(s3) by { assert p.ops[2] == LocalGet(1); }
    assert Step(p, s3) == Next(s4) by {
      assert p.ops[3] == Add;
      assert Last([ReturnMark, two, three]) == three && DropLast([ReturnMark, two, three]) == [ReturnMark, two];
      assert Last([ReturnMark, two]) == two && DropLast([ReturnMark, two]) == [ReturnMark];
    }
    assert Step(p, s4) == Next(s9) by {
      assert p.ops[4] == Return;
      assert DropLast([ReturnMark, Number(5.0)]) == [ReturnMark];
      assert Drain([ReturnMark]) == Some([]);
    }
    RunUnfolds(p, s0, s1, 6);
    RunUnfolds(p, s1, s2, 5);
    RunUnfolds(p, s2, s3, 4);
    RunUnfolds(p, s3, s4, 3);
    RunUnfolds(p, s4, s9, 2);
  }

  /** Back in `main`: `Print` writes the sum and the run stops at `End`. */
  lemma AddPrints()
    ensures Run(AddProgram(), State(9, [], [Number(5.0)], [map[]], []), 2) ==
            Exited(0, State(10, [], [], [map[]], [Number(5.0)]))
  {
    var p := AddProgram();
    AddOps();
    var s9 := State(9, [], [Number(5.0)], [map[]], []);
    var s10 := State(10, [], [], [map[]], [Number(5.0)]);
    assert Step(p, s9) == Next(s10) by { assert p.ops[9] == Print; }
    assert Step(p, s10) == Halt by { assert p.ops[10] == End; }
    RunUnfolds(p, s9, s10, 1);
  }

  /** The whole program: the sum is printed, the call leaves the value stack as it
      found it, and the run ends at `End`. */
  lemma AddRuns()
    ensures
      var r := Run(Link(AddFunctions()), Initial(AddFunctions()), 11);
      r.Exited? && r.final.output == [Number(5.0)] && r.final.valueStack == [] && r.final.pc == 10
  {
    AddLinks();
    assert Link(AddFunctions()) == AddProgram();
    AddCallerSetup();
    AddCallee();
    AddPrints();
  }
}
