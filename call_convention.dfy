/**
  The call/return convention of src/runtime.rs: `Call` leaves a `ReturnMark`
  sentinel below the callee's operands and `Return` unwinds to it, so that a
  completed call replaces its arguments by exactly one value, whatever calls
  the callee made in between, provided that only `Call` and `Return` touch
  sentinels and every `Return` finds a value above its own.
*/
module CallConvention {
  import opened Results
  import opened Bytecode

  /** None of the top `k` values of `vs` is the sentinel. */
  predicate NoSentinelOnTop(vs: seq<Value>, k: nat)
  {
    forall j :: 0 <= j < |vs| && |vs| - k <= j ==> vs[j] != ReturnMark
  }

  /** The instruction at `pc` neither consumes nor produces a sentinel, except
      `Call`, which pushes one, and a `Return` that finds a value above it. Code
      meets it only if no instruction other than `Call` and `Return` pops,
      reads or pushes a `ReturnMark`: in particular a callee must never consume
      values below its own operands, since a `Pop`, `Print`, `LocalSet`, jump or
      comparison that underflows would take its own sentinel. */
  predicate SentinelSafe(p: Program, s: State)
  {
    s.pc < |p.ops| ==>
      match p.ops[s.pc]
      case Const(v) => v != ReturnMark
      case LocalGet(i) => |s.frames| > 0 && i in Last(s.frames) ==> Last(s.frames)[i] != ReturnMark
      case Equal => NoSentinelOnTop(s.valueStack, 2)
      case NotEq => NoSentinelOnTop(s.valueStack, 2)
      case Call(_, argc) => NoSentinelOnTop(s.valueStack, argc)
      case LocalSet(_) => NoSentinelOnTop(s.valueStack, 1)
      case Print => NoSentinelOnTop(s.valueStack, 1)
      case Pop => NoSentinelOnTop(s.valueStack, 1)
      case JumpTrue(_) => NoSentinelOnTop(s.valueStack, 1)
      case JumpFalse(_) => NoSentinelOnTop(s.valueStack, 1)
      case Return => NoSentinelOnTop(s.valueStack, 1)
      case _ => true
  }

  /** A sentinel at index `i` lies below the top `k` values when none of those is one. */
  lemma SentinelBelowTop(vs: seq<Value>, k: nat, i: nat)
    requires NoSentinelOnTop(vs, k) && i < |vs| && vs[i] == ReturnMark
    ensures i < |vs| - k
  {
  }

  /** `s` is a state of a callee entered from a caller whose stack below the
      arguments was `base`, whose call stack was `cs0` and whose frames were
      `fs0`, with return address `ra`: all of that is still in place, the
      callee's sentinel sits right above `base`, and above it there is one
      sentinel per call still active inside the callee. */
  ghost predicate Inside(s: State, base: seq<Value>, cs0: seq<nat>, ra: nat, fs0: seq<Frame>)
  {
    && |cs0| < |s.callStack| && s.callStack[..|cs0| + 1] == cs0 + [ra]
    && |s.frames| == |fs0| + (|s.callStack| - |cs0|) && s.frames[..|fs0|] == fs0
    && |base| < |s.valueStack| && s.valueStack[..|base|] == base && s.valueStack[|base|] == ReturnMark
    && multiset(s.valueStack[|base| + 1..])[ReturnMark] == |s.callStack| - |cs0| - 1
  }

  /** `s'` is the caller's state right after the matching `Return` from `s`. */
  ghost predicate Returned(s: State, s': State, base: seq<Value>, cs0: seq<nat>, ra: nat, fs0: seq<Frame>)
  {
    && |s.valueStack| > 0 && Last(s.valueStack) != ReturnMark
    && s'.valueStack == base + [Last(s.valueStack)]
    && s'.callStack == cs0 && s'.frames == fs0 && s'.pc == ra
  }

  /** Popping through the sentinel when nothing above it is a sentinel. */
  lemma {:induction false} DrainThroughSentinel(below: seq<Value>, above: seq<Value>)
    requires ReturnMark !in above
    ensures Drain(below + [ReturnMark] + above) == Some(below)
  {
    var vs := below + [ReturnMark] + above;
    if above == [] {
      assert Last(vs) == ReturnMark && DropLast(vs) == below;
    } else {
      assert Last(vs) == Last(above) != ReturnMark;
      assert DropLast(vs) == below + [ReturnMark] + DropLast(above);
      DrainThroughSentinel(below, DropLast(above));
    }
  }

  /** Popping stops at the topmost sentinel of `w` and leaves the rest of `w`
      below it, holding one sentinel fewer. */
  lemma {:induction false} DrainToInnerSentinel(prefix: seq<Value>, w: seq<Value>)
    requires multiset(w)[ReturnMark] > 0
    ensures Drain(prefix + w).Some?
    ensures var r := Drain(prefix + w).value;
      |prefix| <= |r| < |prefix| + |w| && r == prefix + w[..|r| - |prefix|]
      && multiset(w[..|r| - |prefix|])[ReturnMark] == multiset(w)[ReturnMark] - 1
  {
    assert w == DropLast(w) + [Last(w)];
    assert DropLast(prefix + w) == prefix + DropLast(w);
    if Last(w) != ReturnMark {
      DrainToInnerSentinel(prefix, DropLast(w));
      var r := Drain(prefix + DropLast(w)).value;
      assert DropLast(w)[..|r| - |prefix|] == w[..|r| - |prefix|];
    }
  }

  /** A step that removes the values above index `keep` and pushes `pushed`,
      none of them a sentinel, with the call stack unchanged and the caller's
      frames untouched, stays inside the callee. */
  lemma StackEditStaysInside(
    s: State, s': State, base: seq<Value>, cs0: seq<nat>, ra: nat, fs0: seq<Frame>,
    keep: nat, pushed: seq<Value>)
    requires Inside(s, base, cs0, ra, fs0)
    requires |base| < keep <= |s.valueStack|
    requires s'.valueStack == s.valueStack[..keep] + pushed
    requires ReturnMark !in s.valueStack[keep..] && ReturnMark !in pushed
    requires s'.callStack == s.callStack
    requires |s'.frames| == |s.frames| && s'.frames[..|fs0|] == fs0
    ensures Inside(s', base, cs0, ra, fs0)
  {
    var vs := s.valueStack;
    assert s'.valueStack[..keep] == vs[..keep];
    assert s'.valueStack[|base| + 1..] == vs[|base| + 1..keep] + pushed;
    assert vs[|base| + 1..] == vs[|base| + 1..keep] + vs[keep..];
  }

  /** A `Call` inside the callee opens one more nested call above the sentinel. */
  lemma NestedCallStaysInside(
    p: Program, s: State, s': State, base: seq<Value>, cs0: seq<nat>, ra: nat, fs0: seq<Frame>)
    requires Inside(s, base, cs0, ra, fs0) && SentinelSafe(p, s) && Step(p, s) == Next(s')
    requires s.pc < |p.ops| && p.ops[s.pc].Call?
    ensures Inside(s', base, cs0, ra, fs0)
  {
    var vs, argc := s.valueStack, p.ops[s.pc].argc;
    var keep := |vs| - argc;
    SentinelBelowTop(vs, argc, |base|);
    assert s'.valueStack[..keep] == vs[..keep];
    assert s'.valueStack[|base| + 1..] == vs[|base| + 1..keep] + [ReturnMark];
    assert vs[|base| + 1..] == vs[|base| + 1..keep] + vs[keep..];
    assert ReturnMark !in vs[keep..];
    assert s'.callStack[..|cs0| + 1] == s.callStack[..|cs0| + 1];
    assert s'.frames[..|fs0|] == s.frames[..|fs0|];
  }

  /** Unwinding to an inner sentinel keeps the callee's sentinel above `base`
      and removes exactly one sentinel above it. */
  lemma InnerUnwind(vs: seq<Value>, vs': seq<Value>, base: seq<Value>)
    requires |base| < |vs| && vs[..|base|] == base && vs[|base|] == ReturnMark
    requires NoSentinelOnTop(vs, 1) && multiset(vs[|base| + 1..])[ReturnMark] > 0
    requires Drain(DropLast(vs)).Some? && vs' == Drain(DropLast(vs)).value + [Last(vs)]
    ensures |base| < |vs'| && vs'[..|base|] == base && vs'[|base|] == ReturnMark
    ensures multiset(vs'[|base| + 1..])[ReturnMark] == multiset(vs[|base| + 1..])[ReturnMark] - 1
  {
    var prefix := base + [ReturnMark];
    SentinelBelowTop(vs, 1, |base|);
    var w := vs[|base| + 1..|vs| - 1];
    assert vs[|base| + 1..] == w + [Last(vs)];
    assert DropLast(vs) == prefix + w;
    assert multiset(vs[|base| + 1..])[ReturnMark] == multiset(w)[ReturnMark];
    DrainToInnerSentinel(prefix, w);
    var m := |Drain(prefix + w).value| - |prefix|;
    assert vs' == prefix + w[..m] + [Last(vs)];
    assert vs'[|base| + 1..] == w[..m] + [Last(vs)];
    assert multiset(vs'[|base| + 1..])[ReturnMark] == multiset(w[..m])[ReturnMark];
  }

  /** A `Return` from a call nested inside the callee unwinds to that call's
      sentinel, which lies above the callee's own. */
  lemma NestedReturnStaysInside(
    s: State, s': State, base: seq<Value>, cs0: seq<nat>, ra: nat, fs0: seq<Frame>)
    requires Inside(s, base, cs0, ra, fs0) && NoSentinelOnTop(s.valueStack, 1)
    requires |s.callStack| > |cs0| + 1 && |s.frames| > 0
    requires Drain(DropLast(s.valueStack)).Some?
    requires s'.valueStack == Drain(DropLast(s.valueStack)).value + [Last(s.valueStack)]
    requires s'.callStack == DropLast(s.callStack) && s'.frames == DropLast(s.frames)
    ensures Inside(s', base, cs0, ra, fs0)
  {
    InnerUnwind(s.valueStack, s'.valueStack, base);
    assert s'.callStack[..|cs0| + 1] == s.callStack[..|cs0| + 1];
    assert s'.frames[..|fs0|] == s.frames[..|fs0|];
  }

  /** The callee's own `Return` hands exactly its top value back to the caller. */
  lemma OwnReturnLeavesCallee(
    p: Program, s: State, s': State, base: seq<Value>, cs0: seq<nat>, ra: nat, fs0: seq<Frame>)
    requires Inside(s, base, cs0, ra, fs0) && SentinelSafe(p, s) && Step(p, s) == Next(s')
    requires s.pc < |p.ops| && p.ops[s.pc].Return? && |s.callStack| == |cs0| + 1
    ensures Returned(s, s', base, cs0, ra, fs0)
  {
    var vs := s.valueStack;
    var w := vs[|base| + 1..|vs| - 1];
    assert vs[|vs| - 1] != ReturnMark;
    assert vs[|base| + 1..] == w + [Last(vs)];
    assert DropLast(vs) == base + [ReturnMark] + w;
    DrainThroughSentinel(base, w);
    assert s.callStack == cs0 + [ra];
  }

  /** `Const` and `LocalGet` push one value that is not a sentinel. */
  lemma PushStaysInside(
    p: Program, s: State, s': State, base: seq<Value>, cs0: seq<nat>, ra: nat, fs0: seq<Frame>)
    requires Inside(s, base, cs0, ra, fs0) && SentinelSafe(p, s) && Step(p, s) == Next(s')
    requires s.pc < |p.ops| && (p.ops[s.pc].Const? || p.ops[s.pc].LocalGet?)
    ensures Inside(s', base, cs0, ra, fs0)
  {
    StackEditStaysInside(s, s', base, cs0, ra, fs0, |s.valueStack|, [Last(s'.valueStack)]);
  }

  /** `LocalSet`, `Print`, `Pop`, `JumpTrue` and `JumpFalse` pop one value that is not a sentinel. */
  lemma PopStaysInside(
    p: Program, s: State, s': State, base: seq<Value>, cs0: seq<nat>, ra: nat, fs0: seq<Frame>)
    requires Inside(s, base, cs0, ra, fs0) && SentinelSafe(p, s) && Step(p, s) == Next(s')
    requires s.pc < |p.ops|
    requires var op := p.ops[s.pc]; op.LocalSet? || op.Print? || op.Pop? || op.JumpTrue? || op.JumpFalse?
    ensures Inside(s', base, cs0, ra, fs0)
  {
    var vs := s.valueStack;
    assert vs[|vs| - 1] != ReturnMark;
    assert s'.frames[..|fs0|] == s.frames[..|fs0|];
    StackEditStaysInside(s, s', base, cs0, ra, fs0, |vs| - 1, []);
  }

  /** Arithmetic, ordering and equality ops pop two values that are not sentinels and push one. */
  lemma BinaryStaysInside(
    p: Program, s: State, s': State, base: seq<Value>, cs0: seq<nat>, ra: nat, fs0: seq<Frame>)
    requires Inside(s, base, cs0, ra, fs0) && SentinelSafe(p, s) && Step(p, s) == Next(s')
    requires s.pc < |p.ops| && (IsArith(p.ops[s.pc]) || p.ops[s.pc].Equal? || p.ops[s.pc].NotEq?)
    ensures Inside(s', base, cs0, ra, fs0)
  {
    var vs := s.valueStack;
    if IsArith(p.ops[s.pc]) {
      assert vs[|vs| - 1].Number? && vs[|vs| - 2].Number?;
    } else {
      assert vs[|vs| - 1] != ReturnMark && vs[|vs| - 2] != ReturnMark;
    }
    StackEditStaysInside(s, s', base, cs0, ra, fs0, |vs| - 2, [Last(s'.valueStack)]);
  }

  /** One step of the callee either keeps it running or is its own `Return`. */
  lemma StepInCallee(
    p: Program, s: State, s': State, base: seq<Value>, cs0: seq<nat>, ra: nat, fs0: seq<Frame>)
    requires Inside(s, base, cs0, ra, fs0) && SentinelSafe(p, s) && Step(p, s) == Next(s')
    ensures Inside(s', base, cs0, ra, fs0) || Returned(s, s', base, cs0, ra, fs0)
  {
    var op := p.ops[s.pc];
    if op.Return? {
      if |s.callStack| == |cs0| + 1 {
        OwnReturnLeavesCallee(p, s, s', base, cs0, ra, fs0);
      } else {
        NestedReturnStaysInside(s, s', base, cs0, ra, fs0);
      }
    } else if op.Call? {
      NestedCallStaysInside(p, s, s', base, cs0, ra, fs0);
    } else if op.Const? || op.LocalGet? {
      PushStaysInside(p, s, s', base, cs0, ra, fs0);
    } else if op.Label? || op.Jump? {
      StackEditStaysInside(s, s', base, cs0, ra, fs0, |s.valueStack|, []);
    } else if op.LocalSet? || op.Print? || op.Pop? || op.JumpTrue? || op.JumpFalse? {
      PopStaysInside(p, s, s', base, cs0, ra, fs0);
    } else {
      BinaryStaysInside(p, s, s', base, cs0, ra, fs0);
    }
  }

  /** Right after a `Call`, the machine is inside the callee. */
  lemma CallEntersCallee(p: Program, s: State, s': State)
    requires s.pc < |p.ops| && p.ops[s.pc].Call? && Step(p, s) == Next(s')
    ensures p.ops[s.pc].argc <= |s.valueStack|
    ensures Inside(s', s.valueStack[..|s.valueStack| - p.ops[s.pc].argc], s.callStack, s.pc + 1, s.frames)
  {
    var argc := p.ops[s.pc].argc;
    assert s'.valueStack[|s.valueStack| - argc + 1..] == [];
  }

  /** A run of the machine, one state per step, in which no step meddles with
      sentinels other than by `Call` and `Return`. */
  ghost predicate SafeExecution(p: Program, t: seq<State>)
  {
    forall i :: 0 <= i < |t| - 1 ==> Step(p, t[i]) == Next(t[i + 1]) && SentinelSafe(p, t[i])
  }

  /** Stack balance: from a `Call` to its matching `Return`, with any number of
      nested calls in between, the value stack goes from `below + args` to
      `below + [result]`, and the call stack, the frames and the pc (now right
      after the `Call`) are the caller's again. */
  lemma CallReturnBalanced(p: Program, t: seq<State>)
    requires |t| >= 3 && SafeExecution(p, t)
    requires t[0].pc < |p.ops| && p.ops[t[0].pc].Call?
    requires forall i :: 0 < i < |t| - 1 ==> |t[i].callStack| > |t[0].callStack|
    requires |t[|t| - 1].callStack| <= |t[0].callStack|
    ensures p.ops[t[0].pc].argc <= |t[0].valueStack|
    ensures
      var argc, before, after := p.ops[t[0].pc].argc, t[0].valueStack, t[|t| - 1].valueStack;
      |after| > 0 && Last(after) != ReturnMark && after == before[..|before| - argc] + [Last(after)]
    ensures t[|t| - 1].callStack == t[0].callStack
    ensures t[|t| - 1].frames == t[0].frames
    ensures t[|t| - 1].pc == t[0].pc + 1
  {
    var argc := p.ops[t[0].pc].argc;
    CallEntersCallee(p, t[0], t[1]);
    var base := t[0].valueStack[..|t[0].valueStack| - argc];
    var cs0, ra, fs0 := t[0].callStack, t[0].pc + 1, t[0].frames;
    var k := 1;
    while k < |t| - 2
      invariant 1 <= k <= |t| - 2
      invariant Inside(t[k], base, cs0, ra, fs0)
    {
      StepInCallee(p, t[k], t[k + 1], base, cs0, ra, fs0);
      k := k + 1;
    }
    StepInCallee(p, t[k], t[k + 1], base, cs0, ra, fs0);
  }

  /** The hypothesis is needed: a `Return` whose callee left nothing above its
      sentinel breaks `SentinelSafe`, takes that sentinel as its result and
      unwinds the values of the frame below it down to the next sentinel. */
  lemma UnsafeReturnUnwindsCaller()
    ensures
      var p := Program([Return], map[]);
      var s := State(0, [7, 9], [Number(1.0), ReturnMark, Number(4.0), ReturnMark], [map[], map[]], []);
      !SentinelSafe(p, s) &&
      Step(p, s) == Next(State(9, [7], [Number(1.0), ReturnMark], [map[]], []))
  {
    var vs := [Number(1.0), ReturnMark, Number(4.0), ReturnMark];
    assert DropLast(vs) == [Number(1.0), ReturnMark, Number(4.0)];
    assert DropLast(DropLast(vs)) == [Number(1.0), ReturnMark];
    assert DropLast([Number(1.0), ReturnMark]) == [Number(1.0)];
    assert Drain([Number(1.0), ReturnMark]) == Some([Number(1.0)]);
    assert Drain(DropLast(vs)) == Drain([Number(1.0), ReturnMark]);
    var p := Program([Return], map[]);
    var s := State(0, [7, 9], vs, [map[], map[]], []);
    assert !NoSentinelOnTop(vs, 1) by { assert vs[|vs| - 1] == ReturnMark; }
    assert Last(s.callStack) == 9 && DropLast(s.callStack) == [7];
    assert DropLast(s.frames) == [map[]];
    assert [Number(1.0)] + [Last(vs)] == [Number(1.0), ReturnMark];
    assert ReturnStep(s) == Next(State(9, [7], [Number(1.0), ReturnMark], [map[]], []));
    assert Step(p, s) == ReturnStep(s);
  }
}
