# Gruenspan: the bytecode generator and the stack virtual machine, in Dafny

Gruenspan compiles a small expression language to bytecode and runs the bytecode
on a stack machine. This project models the two parts that do the work.

- **The runtime** (`src/runtime.rs`). The machine holds:
  - one program counter;
  - a value stack;
  - a call stack of return addresses;
  - a stack of per-call local frames (`ftxc_stack`);
  - a label table built while the functions' code is flattened into one program.

  `Call` pops its arguments into a fresh frame and pushes a `Return` sentinel
  (`ReturnMark` here). `Return` pops the result, unwinds the value stack down
  through that sentinel, and pushes the result back.

  The runtime is modelled twice:
  - Module `Bytecode` has pure functions `Step` (one iteration of the interpreter
    loop) and `Run` (at most `fuel` iterations).
  - Class `Runtime.Machine` has the same fields, updated in place. The methods
    that carry out an instruction (`Arithmetic`, `Compare`, `CallFunction`,
    `ReturnFromCall`, `Branch`, `Dispatch`) are proved equal to the matching step
    function, and `ExecuteProgram` to `Run`. The helper `PushNext` states its
    update directly; `PopArguments` and `DrainToSentinel` are proved against
    `ArgFrame` and `Drain`, not against a step.

  Module `CallConvention` proves the stack-balance theorem: from a `Call` to its
  matching `Return`, the caller's stack goes from `below + args` to
  `below + [result]`, with any nesting of calls in between. The theorem has a
  hypothesis (`SafeExecution`, built from `SentinelSafe`). At every step between
  the call and the return, no instruction other than `Call` and `Return` may
  push, read or pop a `ReturnMark`. Also, every `Return`, nested or not, must
  find a value above its own sentinel. Without it the machine does not stay
  balanced. For example, a `Return` that finds no value above the callee's
  sentinel pops that sentinel as the result and unwinds into the caller's part
  of the stack (`UnsafeReturnUnwindsCaller`).

  Module `Instructions` states what each instruction does, and follows
  `add(a, b) { return a + b; }` called from `main` through to `End`.
- **The code generator** (`src/codegen.rs`). `Lowered` is the recursive lowering
  from the syntax tree (module `Ast`) to the generator's own instruction set. The
  imperative `GenerateFunctionBytecode`, `FunctionOps` and `GenerateBytecode` are
  proved against it. The code generator's instruction set (`Local`, `Store`,
  `Load`, `Call(name)`) is not the one the runtime executes (`LocalGet`,
  `LocalSet`, `Label`, `Call(name, argc)`), so the two halves are not linked.
  Module `CodegenProperties` proves the following:
  - constant conversion is a bijection onto the literals that can be converted;
  - each construct lowers to the expected instructions;
  - in a function's code, every `Load` reads a slot that an earlier `Local` or
    `Store` wrote;
  - no `Store` overwrites a parameter's slot.

In these places the model follows the code as written, which a reader may not
expect:
- `JumpTrue`/`JumpFalse` on a non-boolean or an empty stack advance; they do not fail.
- Jump and call targets are resolved when the jump or call executes, not at link time.
- `Then` and `Call` expressions lower to no instructions at all.
- Sibling `let`s reuse the same slot.

One place does not follow the code: `Div`. src/runtime.rs:119 divides the right
operand by the left one. The machine (`Step`, `Runtime.Machine`) divides the left
operand by the right one, as the other ops' operand order implies. The code as
written is modelled by `ArithAsWritten`; see "Findings" and "Left out".

Numbers (`f64`) are modelled as `real`.

## Model

| member | source | states |
|---|---|---|
| Bytecode.LabelTableExact | src/runtime.rs:39-44 | a name is in the label table iff some `Label` instruction carries it, and it maps to the last such instruction |
| Bytecode.EntryPcIsMainLabel | src/runtime.rs:39-42 | the start pc is the table's offset of `main`, or 0 when there is no `main` label |
| Bytecode.FlattenAppend | src/runtime.rs:34-37 | flattening keeps each function's code contiguous and in order |
| Runtime.Machine.constructor | src/runtime.rs:31-56 | the nested scanning loops build exactly `Link(functions)` and start in `Initial(functions)` |
| Runtime.Machine.PushNext | src/runtime.rs:58-61 | pc incremented and the value appended, in place |
| Runtime.Machine.PopArguments | src/runtime.rs:168-174 | the reverse pop loop succeeds iff argc values are present, leaves the rest of the stack, and builds `ArgFrame` of the top argc values |
| Runtime.Machine.DrainToSentinel | src/runtime.rs:75 | the inner pop loop finds a sentinel iff `Drain` does, and leaves exactly what lies below it |
| Runtime.Machine.Arithmetic | src/runtime.rs:94-148 | the in-place arithmetic and ordering ops equal `ArithStep` |
| Runtime.Machine.Compare | src/runtime.rs:149-166 | `Equal`/`NotEq` in place equal `CompareStep` |
| Runtime.Machine.CallFunction | src/runtime.rs:167-179 | `Call` in place equals `CallStep` |
| Runtime.Machine.ReturnFromCall | src/runtime.rs:71-77 | `Return` in place equals `ReturnStep`, including the endless inner loop as `Diverge` |
| Runtime.Machine.Branch | src/runtime.rs:187-200 | `JumpTrue`/`JumpFalse` in place equal `BranchStep` |
| Runtime.Machine.Dispatch | src/runtime.rs:70-210 | one loop iteration on the object equals `Step` on its snapshot, and never halts |
| Runtime.Machine.ExecuteProgram | src/runtime.rs:63-213 | the interpreter loop, bounded by fuel, returns `Run` of the starting state and leaves the machine in its final state |
| CallConvention.DrainThroughSentinel | src/runtime.rs:75 | with no sentinel above it, unwinding stops exactly below the sentinel |
| CallConvention.DrainToInnerSentinel | src/runtime.rs:75 | unwinding stops at the topmost sentinel and removes exactly one |
| CallConvention.StackEditStaysInside | src/runtime.rs:84-166 | a step that edits only sentinel-free values above the callee's sentinel keeps the callee's invariant |
| CallConvention.NestedCallStaysInside | src/runtime.rs:167-179 | a call made inside the callee keeps its invariant, with one more sentinel and frame above |
| CallConvention.NestedReturnStaysInside | src/runtime.rs:71-77 | a nested return unwinds to its own sentinel, above the callee's, and keeps the invariant |
| CallConvention.OwnReturnLeavesCallee | src/runtime.rs:71-77 | the callee's own `Return` restores the caller's stack below the arguments plus the one result, and its call stack, frames and return pc |
| CallConvention.PushStaysInside | src/runtime.rs:78-93 | `Const`/`LocalGet` keep the callee's invariant |
| CallConvention.PopStaysInside | src/runtime.rs:84-90 | `LocalSet`, `Print`, `Pop` and the conditional jumps keep the callee's invariant |
| CallConvention.BinaryStaysInside | src/runtime.rs:94-166 | binary ops keep the callee's invariant |
| CallConvention.StepInCallee | src/runtime.rs:70-210 | every step of a callee either keeps its invariant or is its own return |
| CallConvention.CallEntersCallee | src/runtime.rs:167-179 | right after a call, the machine is inside the callee with the sentinel right above the caller's remaining stack |
| CallConvention.CallReturnBalanced | src/runtime.rs:167-179 | from a call to its matching return, the value stack goes from `below + args` to `below + [result]`, and the call stack, frames and pc (call + 1) are the caller's |
| CallConvention.UnsafeReturnUnwindsCaller | src/runtime.rs:71-77 | without the hypothesis the balance fails: a `Return` with only its sentinel above the caller's takes the sentinel as its result and unwinds the caller's own values down to the caller's sentinel |
| Instructions.ConstPushesOne | src/runtime.rs:91-93 | `Const(v)` pushes `v`, advances, and changes nothing else |
| Instructions.LocalGetReadsTopFrame | src/runtime.rs:78-83 | `LocalGet(i)` pushes slot i of the top frame; fails exactly when there is no frame or no slot i |
| Instructions.LocalSetWritesTopFrame | src/runtime.rs:84-90 | `LocalSet(i)` pops into slot i of the top frame only; every other frame and slot is unchanged; an empty stack fails |
| Instructions.ArithPopsTwoPushesOne | src/runtime.rs:94-148 | arithmetic pops right, then left, and pushes `left op right` (for `Div`, the corrected order); it fails iff either of the top two values is missing or not a number |
| Instructions.EqualityIsTotal | src/runtime.rs:149-166 | `Equal`/`NotEq` compare any two values and fail iff fewer than two are present |
| Instructions.CallEntersFunction | src/runtime.rs:167-179 | `Call(f, argc)`: arguments into slots 0..argc-1 of a new frame, sentinel in their place, return address pc+1, jump to `f`; too few values or an unknown `f` fail |
| Instructions.BranchOnlyOnMatchingBoolean | src/runtime.rs:187-200 | conditional jumps pop one value if any, jump only on the matching boolean, otherwise advance |
| Instructions.ControlOps | src/runtime.rs:180-209 | `Jump` moves only the pc (an unknown label fails), `Label` only advances, `Pop` drops the top value if any, `Print` moves the top value to the output; `ListAt` (line 130) fails |
| Instructions.HaltsExactlyAtEnd | src/runtime.rs:64 | the loop stops exactly at `End` |
| Instructions.ExitsOnlyAtEnd | src/runtime.rs:63-64 | a run that exits returns 0 from a state about to execute `End` |
| Instructions.MoreFuelSameOutcome | src/runtime.rs:63-213 | the fuel bound never changes how a finished run ends |
| Instructions.OperandOrder | src/runtime.rs:94-148 | the corrected arithmetic equals infix evaluation with the left operand pushed first |
| Instructions.AsWrittenOperandOrder | src/runtime.rs:94-148 | for every input, the arithmetic as written equals infix evaluation on every op but `Div`, and for `Div` it computes `right / left`; for nonzero operands that equals `left / right` only when `right` is `left` or `-left` |
| Instructions.DivAsWrittenSwapsOperands | src/runtime.rs:119 | `Div` as written computes 2/10 for `10 / 2`, unlike infix evaluation |
| Instructions.AddScanFirst | src/runtime.rs:39-44 | in the example, `add`'s label lands at 0 |
| Instructions.AddScanSecond | src/runtime.rs:39-44 | in the example, `main`'s label lands at 5 and becomes the start pc |
| Instructions.AddLinks | src/runtime.rs:31-56 | the example program links to the expected instructions and label table, starting at `main` |
| Instructions.AddCallerSetup | src/runtime.rs:91-93 | `main` pushes 2 and 3; the call (lines 167-179) binds them in a new frame with only the sentinel on the stack |
| Instructions.AddCallee | src/runtime.rs:71-83 | `add` loads both slots, adds, and returns the sum alone to pc 9 |
| Instructions.AddPrints | src/runtime.rs:180-186 | back in `main`, `Print` writes the sum and the run stops at `End` |
| Instructions.AddRuns | src/runtime.rs:63-213 | the whole example prints 5, exits with 0, and leaves the value stack empty |
| Codegen.GenerateFunctionBytecode | src/codegen.rs:77-141 | the recursive lowering appends exactly `Lowered`'s code to `operations`, leaves the table as `Lowered` says, and fails exactly when `Lowered` fails, with the same error |
| Codegen.FunctionOps | src/codegen.rs:143-166 | the parameter loop plus lowering produce exactly `FunctionCode(f)` |
| Codegen.GenerateBytecode | src/codegen.rs:178-194 | no `main` gives `NoMain`; otherwise it succeeds iff every function lowers, with one `BFunc` per entry, distinct names covering the map, each with its lowered code and argument count |
| CodegenProperties.ToBopValOfFromBopVal | src/codegen.rs:29-40 | converting the literal a constant stands for gives the constant back |
| CodegenProperties.FromBopValOfToBopVal | src/codegen.rs:29-40 | a successful conversion loses nothing |
| CodegenProperties.ConvertibleExactly | src/codegen.rs:29-40 | a literal converts iff it is the image of some constant, so exactly those holding a `Null` or `Func` fail |
| CodegenProperties.LiteralLowering | src/codegen.rs:85-100 | a Bool/Num/Str/convertible-list literal lowers to one `Const` standing for it; `Null` and `Func` fail with their errors |
| CodegenProperties.VariableLowering | src/codegen.rs:102-104 | a variable lowers to one `Load` of its slot; an unregistered name fails |
| CodegenProperties.LetLowering | src/codegen.rs:105-111 | `let` emits init's code, `Store(n)`, then body's code lowered at slot n+1 with the name bound to n |
| CodegenProperties.BinaryLowering | src/codegen.rs:113-127 | left code, right code (with the table left code produced), then exactly one opcode |
| CodegenProperties.OpCodeInjective | src/codegen.rs:116-126 | distinct operators get distinct opcodes |
| CodegenProperties.PrintReturnLowering | src/codegen.rs:132-139 | `print e`/`return e` emit e's code and one `Print`/`Return` |
| CodegenProperties.UnhandledConstructs | src/codegen.rs:84-131 | `Error`, list expressions and `if` fail; `Then` and `Call` emit nothing and bind nothing |
| CodegenProperties.SiblingLetsShareSlot | src/codegen.rs:105-115 | two sibling `let`s both store into slot 0 |
| CodegenProperties.LetBindingOutlivesBody | src/codegen.rs:105-115 | a name bound by a `let` still resolves after the let's body |
| CodegenProperties.LoweringKeepsNames | src/codegen.rs:105-111 | lowering never removes a name from the table |
| CodegenProperties.LetKeeps | src/codegen.rs:105-111 | a `let` keeps the lowering invariant when its initialiser and body do: the `Store` writes the slot the name is bound to before the body can load it |
| CodegenProperties.BinaryKeeps | src/codegen.rs:113-127 | a binary operation keeps the lowering invariant when both operands do, the right one lowered with the table the left one left |
| CodegenProperties.LoweringInvariant | src/codegen.rs:77-141 | (`Keeps`) lowering keeps every name; every slot in the new table was in the old one or is written by the new code; the new code writes only slots ≥ storeCt, never with `Local`; each of its `Load`s reads a slot of the table or one written before it |
| CodegenProperties.ParamSlotsExact | src/codegen.rs:150-154 | a name is bound iff it is a parameter, to the position of its last occurrence |
| CodegenProperties.LocalsWrite | src/codegen.rs:150-151 | the prologue writes exactly slots 0..n-1 and loads nothing |
| CodegenProperties.FunctionCodeShape | src/codegen.rs:143-166 | a function's code is `Local(0..n-1)`, then body code with no `Local` and no `Store` into a parameter slot, and every `Load` reads a slot written before it |

## Left out

- Printing: `Print`'s `println!` is modelled as appending to the `output` field. The `Display` impl of `Runtime` and the debug `println!`s of the code generator are not modelled.
- Floating point: `f64` is modelled as `real`. NaN, infinities and rounding are not modelled. Division by zero yields 0 (`Quotient`).
- Panics: every panic, `unwrap` of `None` and `todo!` is a `Fault`/`Err` value. Where a panic happens after some state was already popped, that state is not modelled.
- Runtime.Machine.Arithmetic: `Div` pushes the corrected `left / right` (`Arith`), not the `right / left` of src/runtime.rs:119. The code as written is `ArithAsWritten`, and the difference is stated in "Findings".
- Runtime.Machine.Dispatch: runs `Div` in the corrected order through `Arithmetic`, so one iteration does not match src/runtime.rs:119 for `Div`.
- Runtime.Machine.ExecuteProgram: runs `Div` in the corrected order, so a program that divides does not compute what src/runtime.rs:119 computes.
- Instructions.ArithPopsTwoPushesOne: states the corrected `Div`, `left / right`. src/runtime.rs:119 pushes `right / left`, as `Instructions.AsWrittenOperandOrder` states for all inputs.
- Runtime.Machine.ExecuteProgram: bounded by a `fuel` parameter. The source loops without a bound; `OutOfFuel` stands for "still running", and `Instructions.MoreFuelSameOutcome` shows the bound never changes a finished outcome.
- Runtime.Machine.ReturnFromCall: when no sentinel is left, the source's inner loop spins forever. This is reported as `Diverge`/`Hangs`, not as a loop.
- `codegen::ByteCodeFunction`, `ByteCodeValue` and the runtime's instruction wrapper (`op.bytecode_op`) are not part of this model's sources. Their shapes are inferred from their uses in src/runtime.rs.
- `RelativeOperation.line_nr` is dropped. It is always 0.
- `Generator::new` only stores its argument, so it is not modelled separately.
- Codegen.GenerateBytecode: the `HashMap` iteration order is modelled as an arbitrary choice (`:|`). The contract fixes the set of functions, not their order.
- Source spans (`Spanned`) are dropped from the syntax tree. `Expr::Value` is named `Literal`.
- The lexer (src/frontend/lexer.rs), the parser and main.rs are not part of this model.

## Findings

| source | as written | input that shows it | evidently intended | confidence | as-written member | corrected member |
|---|---|---|---|---|---|---|
| src/runtime.rs:119 | `Div` pushes `a / b`, where `a` is the right operand (popped first), unlike `Sub`, `LowerT` and `GreaterT`, which compute `b OP a` | `Const 10, Const 2, Div` leaves 0.2 | `b / a`, i.e. `10 / 2 = 5` | not executed | Bytecode.ArithAsWritten (Instructions.DivAsWrittenSwapsOperands, Instructions.AsWrittenOperandOrder) | Bytecode.Arith (Instructions.OperandOrder, Instructions.ArithPopsTwoPushesOne) |
