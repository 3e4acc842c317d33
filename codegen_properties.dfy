/**
  What the lowering of src/codegen.rs guarantees: constant conversion is a
  bijection onto the convertible literals, each construct lowers to the
  instructions it should, and in the code of a whole function every `Load` reads
  a slot that an earlier `Local` or `Store` wrote, while no `Store` touches a
  parameter's slot.
*/
module CodegenProperties {
  import opened Results
  import Ast
  import opened Codegen

  // ---------------------------------------------------------------- constants

  /** Converting the literal a constant stands for gives the constant back. */
  lemma {:induction false} ToBopValOfFromBopVal(b: BopVal)
    ensures ToBopVal(FromBopVal(b)) == Ok(b)
  {
    match b {
      case List(items) =>
        var l := seq(|items|, i requires 0 <= i < |items| => FromBopVal(items[i]));
        forall i | 0 <= i < |l|
          ensures ToBopVal(l[i]) == Ok(items[i])
        {
          ToBopValOfFromBopVal(items[i]);
        }
        assert seq(|l|, i requires 0 <= i < |l| => ToBopVal(l[i]).value) == items;
      case _ =>
    }
  }

  /** A successful conversion loses nothing: the constant stands for the literal. */
  lemma {:induction false} FromBopValOfToBopVal(v: Ast.Value)
    ensures ToBopVal(v).Ok? ==> FromBopVal(ToBopVal(v).value) == v
  {
    match v {
      case List(l) =>
        if ToBopVal(v).Ok? {
          var items := ToBopVal(v).value.items;
          forall i | 0 <= i < |l|
            ensures FromBopVal(items[i]) == l[i]
          {
            FromBopValOfToBopVal(l[i]);
          }
          assert seq(|items|, i requires 0 <= i < |items| => FromBopVal(items[i])) == l;
        }
      case _ =>
    }
  }

  /** A literal converts exactly when it is the image of some constant, so the
      failures are exactly the literals holding a `Null` or a `Func` somewhere. */
  lemma ConvertibleExactly(v: Ast.Value)
    ensures ToBopVal(v).Ok? <==> exists b :: FromBopVal(b) == v
  {
    if ToBopVal(v).Ok? {
      FromBopValOfToBopVal(v);
    }
    if b :| FromBopVal(b) == v {
      ToBopValOfFromBopVal(b);
    }
  }

  // ---------------------------------------------------------- per construct

  /** A `Bool`, `Num`, `Str` or convertible list literal lowers to one `Const`
      holding that literal; `Null` and `Func` literals fail. */
  lemma LiteralLowering(v: Ast.Value, n: nat, m: map<string, nat>)
    ensures var r := Lowered(Ast.Literal(v), n, m);
      (r.Ok? <==> !v.Null? && !v.Func? && ToBopVal(v).Ok?) &&
      (v.Null? ==> r == Err(NotImplemented)) &&
      (v.Func? ==> r == Err(FunctionValue)) &&
      (r.Ok? ==> |r.value.code| == 1 && r.value.code[0].Const? &&
                 FromBopVal(r.value.code[0].value) == v && r.value.memStore == m)
  {
    FromBopValOfToBopVal(v);
  }

  /** A variable lowers to one `Load` of its registered slot, and fails when the
      name was never registered. */
  lemma VariableLowering(x: string, n: nat, m: map<string, nat>)
    ensures var r := Lowered(Ast.LocalVar(x), n, m);
      (r.Ok? <==> x in m) &&
      (r.Ok? ==> r.value == Emitted([Load(m[x])], m)) &&
      (r.Err? ==> r.error == UnboundVariable(x))
  {
  }

  /** `let x = init; body`: the code of `init`, `Store(n)`, then the code of `body`
      lowered with `x` bound to slot `n` and the next free slot `n + 1`. */
  lemma LetLowering(x: string, init: Ast.Expr, body: Ast.Expr, n: nat, m: map<string, nat>)
    ensures var r := Lowered(Ast.Let(x, init, body), n, m);
      var i := Lowered(init, n, m);
      r.Ok? <==> i.Ok? && Lowered(body, n + 1, i.value.memStore[x := n]).Ok?
    ensures var r := Lowered(Ast.Let(x, init, body), n, m);
      var i := Lowered(init, n, m);
      r.Ok? ==>
        var b := Lowered(body, n + 1, i.value.memStore[x := n]);
        r.value.code == i.value.code + [Store(n)] + b.value.code &&
        r.value.memStore == b.value.memStore && x in r.value.memStore
  {
    var r := Lowered(Ast.Let(x, init, body), n, m);
    if r.Ok? {
      var i := Lowered(init, n, m).value;
      LoweringKeepsNames(body, n + 1, i.memStore[x := n]);
    }
  }

  /** The operands' code in order, then exactly one opcode, determined by the
      operator alone. */
  lemma BinaryLowering(lhs: Ast.Expr, op: Ast.BinaryOp, rhs: Ast.Expr, n: nat, m: map<string, nat>)
    ensures var r := Lowered(Ast.Binary(lhs, op, rhs), n, m);
      var l := Lowered(lhs, n, m);
      r.Ok? <==> l.Ok? && Lowered(rhs, n, l.value.memStore).Ok?
    ensures var r := Lowered(Ast.Binary(lhs, op, rhs), n, m);
      var l := Lowered(lhs, n, m);
      r.Ok? ==>
        r.value.code == l.value.code + Lowered(rhs, n, l.value.memStore).value.code + [OpCode(op)]
  {
  }

  /** Different operators get different opcodes. */
  lemma OpCodeInjective(a: Ast.BinaryOp, b: Ast.BinaryOp)
    ensures OpCode(a) == OpCode(b) <==> a == b
  {
  }

  /** `print e` and `return e`: the code of `e`, then one `Print` or `Return`. */
  lemma PrintReturnLowering(x: Ast.Expr, n: nat, m: map<string, nat>)
    ensures var a := Lowered(x, n, m);
      var p := Lowered(Ast.Print(x), n, m);
      (p.Ok? <==> a.Ok?) && (p.Ok? ==> p.value == Emitted(a.value.code + [Print], a.value.memStore))
    ensures var a := Lowered(x, n, m);
      var r := Lowered(Ast.Return(x), n, m);
      (r.Ok? <==> a.Ok?) && (r.Ok? ==> r.value == Emitted(a.value.code + [Return], a.value.memStore))
  {
  }

  /** The constructs the generator does not handle: `Error`, list expressions and
      `if` stop it; `Then` and `Call` emit nothing and bind nothing. */
  lemma UnhandledConstructs(e: Ast.Expr, n: nat, m: map<string, nat>)
    ensures e.Error? ==> Lowered(e, n, m) == Err(Unreachable)
    ensures e.List? || e.If? ==> Lowered(e, n, m) == Err(NotImplemented)
    ensures e.Then? || e.Call? ==> Lowered(e, n, m) == Ok(Emitted([], m))
  {
  }

  /** Two sibling `let`s get the same slot: the counter is passed by value, so the
      second `let` starts from the same `storeCt` as the first. */
  lemma SiblingLetsShareSlot()
    ensures
      var one, two := Ast.Literal(Ast.Num(1.0)), Ast.Literal(Ast.Num(2.0));
      var e := Ast.Binary(Ast.Let("a", one, Ast.LocalVar("a")), Ast.Add, Ast.Let("b", two, Ast.LocalVar("b")));
      Lowered(e, 0, map[]) ==
        Ok(Emitted([Const(Number(1.0)), Store(0), Load(0), Const(Number(2.0)), Store(0), Load(0), Add],
                   map["a" := 0, "b" := 0]))
  {
    var one, two := Ast.Literal(Ast.Num(1.0)), Ast.Literal(Ast.Num(2.0));
    assert Lowered(one, 0, map[]) == Ok(Emitted([Const(Number(1.0))], map[]));
    assert Lowered(Ast.LocalVar("a"), 1, map["a" := 0]) == Ok(Emitted([Load(0)], map["a" := 0]));
    assert Lowered(two, 0, map["a" := 0]) == Ok(Emitted([Const(Number(2.0))], map["a" := 0]));
    assert map["a" := 0]["b" := 0] == map["a" := 0, "b" := 0];
    assert Lowered(Ast.LocalVar("b"), 1, map["a" := 0, "b" := 0]) == Ok(Emitted([Load(0)], map["a" := 0, "b" := 0]));
    assert map[]["a" := 0] == map["a" := 0];
    assert [Const(Number(1.0))] + [Store(0)] + [Load(0)] == [Const(Number(1.0)), Store(0), Load(0)];
    assert [Const(Number(2.0))] + [Store(0)] + [Load(0)] == [Const(Number(2.0)), Store(0), Load(0)];
    assert Lowered(Ast.Let("a", one, Ast.LocalVar("a")), 0, map[]) ==
      Ok(Emitted([Const(Number(1.0)), Store(0), Load(0)], map["a" := 0]));
    assert Lowered(Ast.Let("b", two, Ast.LocalVar("b")), 0, map["a" := 0]) ==
      Ok(Emitted([Const(Number(2.0)), Store(0), Load(0)], map["a" := 0, "b" := 0]));
    assert [Const(Number(1.0)), Store(0), Load(0)] + [Const(Number(2.0)), Store(0), Load(0)] + [Add] ==
      [Const(Number(1.0)), Store(0), Load(0), Const(Number(2.0)), Store(0), Load(0), Add];
  }

  /** A `let` binding stays registered after its body: a later sibling that names it
      lowers without error, to a `Load` of the let's slot. */
  lemma LetBindingOutlivesBody()
    ensures
      var e := Ast.Binary(Ast.Let("a", Ast.Literal(Ast.Num(1.0)), Ast.LocalVar("a")), Ast.Add, Ast.LocalVar("a"));
      Lowered(e, 0, map[]) ==
        Ok(Emitted([Const(Number(1.0)), Store(0), Load(0), Load(0), Add], map["a" := 0]))
  {
    assert Lowered(Ast.Literal(Ast.Num(1.0)), 0, map[]) == Ok(Emitted([Const(Number(1.0))], map[]));
    assert Lowered(Ast.LocalVar("a"), 1, map["a" := 0]) == Ok(Emitted([Load(0)], map["a" := 0]));
    assert Lowered(Ast.LocalVar("a"), 0, map["a" := 0]) == Ok(Emitted([Load(0)], map["a" := 0]));
    assert map[]["a" := 0] == map["a" := 0];
    assert [Const(Number(1.0))] + [Store(0)] + [Load(0)] == [Const(Number(1.0)), Store(0), Load(0)];
    assert Lowered(Ast.Let("a", Ast.Literal(Ast.Num(1.0)), Ast.LocalVar("a")), 0, map[]) ==
      Ok(Emitted([Const(Number(1.0)), Store(0), Load(0)], map["a" := 0]));
    assert [Const(Number(1.0)), Store(0), Load(0)] + [Load(0)] + [Add] ==
      [Const(Number(1.0)), Store(0), Load(0), Load(0), Add];
  }

  // ------------------------------------------------------ slot discipline

  /** The slots an instruction initialises. */
  function Writes(op: ByteCodeOp): set<nat>
  {
    if op.Local? || op.Store? then {op.slot} else {}
  }

  /** Every slot some instruction of `code` initialises. */
  function Written(code: seq<ByteCodeOp>): set<nat>
  {
    if code == [] then {} else Writes(code[0]) + Written(code[1..])
  }

  /** Scanning `code` from the front with the slots in `ready` already
      initialised, each `Load` reads an initialised slot. */
  predicate LoadsAfterWrites(code: seq<ByteCodeOp>, ready: set<nat>)
  {
    code == [] ||
    ((code[0].Load? ==> code[0].slot in ready) && LoadsAfterWrites(code[1..], ready + Writes(code[0])))
  }

  lemma {:induction false} WrittenMembers(code: seq<ByteCodeOp>, k: nat)
    ensures k in Written(code) <==> exists j | 0 <= j < |code| :: (code[j].Local? || code[j].Store?) && code[j].slot == k
  {
    if code != [] {
      WrittenMembers(code[1..], k);
      if exists j | 0 <= j < |code[1..]| :: (code[1..][j].Local? || code[1..][j].Store?) && code[1..][j].slot == k {
        var j :| 0 <= j < |code[1..]| && (code[1..][j].Local? || code[1..][j].Store?) && code[1..][j].slot == k;
        assert code[j + 1] == code[1..][j];
      }
      if j :| 0 <= j < |code| && (code[j].Local? || code[j].Store?) && code[j].slot == k {
        if j > 0 {
          assert code[1..][j - 1] == code[j];
        }
      }
    }
  }

  lemma {:induction false} WrittenConcat(a: seq<ByteCodeOp>, b: seq<ByteCodeOp>)
    ensures Written(a + b) == Written(a) + Written(b)
  {
    if a != [] {
      assert (a + b)[1..] == a[1..] + b;
      WrittenConcat(a[1..], b);
    } else {
      assert a + b == b;
    }
  }

  lemma {:induction false} LoadsConcat(a: seq<ByteCodeOp>, b: seq<ByteCodeOp>, ready: set<nat>)
    ensures LoadsAfterWrites(a + b, ready) <==>
            LoadsAfterWrites(a, ready) && LoadsAfterWrites(b, ready + Written(a))
  {
    if a != [] {
      assert (a + b)[1..] == a[1..] + b;
      assert (a + b)[0] == a[0];
      LoadsConcat(a[1..], b, ready + Writes(a[0]));
      assert ready + Writes(a[0]) + Written(a[1..]) == ready + Written(a);
    } else {
      assert a + b == b;
      assert ready + Written(a) == ready;
    }
  }

  lemma {:induction false} LoadsMonotone(code: seq<ByteCodeOp>, small: set<nat>, large: set<nat>)
    requires small <= large && LoadsAfterWrites(code, small)
    ensures LoadsAfterWrites(code, large)
  {
    if code != [] {
      LoadsMonotone(code[1..], small + Writes(code[0]), large + Writes(code[0]));
    }
  }

  lemma {:induction false} NoLoads(code: seq<ByteCodeOp>, ready: set<nat>)
    requires forall op | op in code :: !op.Load?
    ensures LoadsAfterWrites(code, ready)
  {
    if code != [] {
      assert code[0] in code;
      forall op | op in code[1..] ensures !op.Load? {
        assert op in code;
      }
      NoLoads(code[1..], ready + Writes(code[0]));
    }
  }

  lemma UpdateValues(m: map<string, nat>, x: string, v: nat)
    ensures m[x := v].Values <= m.Values + {v}
  {
    forall y | y in m[x := v].Values ensures y in m.Values + {v} {
      var k :| k in m[x := v] && m[x := v][k] == y;
      if k != x {
        assert m[k] == y;
      }
    }
  }

  lemma LoweringKeepsNames(e: Ast.Expr, n: nat, m: map<string, nat>)
    ensures Lowered(e, n, m).Ok? ==> m.Keys <= Lowered(e, n, m).value.memStore.Keys
  {
    LoweringInvariant(e, n, m);
  }

  /** What lowering with next free slot `n` and table `m` guarantees of what it
      emitted: no name is forgotten; every slot in the new table was in `m` or is
      written by the emitted code; the code writes only slots `n` and above, never
      with `Local`; and each of its `Load`s reads a slot of `m` or one written
      before it. */
  predicate Keeps(m: map<string, nat>, n: nat, r: Emitted)
  {
    && m.Keys <= r.memStore.Keys
    && r.memStore.Values <= m.Values + Written(r.code)
    && (forall k | k in Written(r.code) :: k >= n)
    && (forall op | op in r.code :: !op.Local?)
    && LoadsAfterWrites(r.code, m.Values)
  }

  /** A `let` keeps the invariant when its initialiser and its body do. */
  lemma LetKeeps(x: string, n: nat, m: map<string, nat>, i: Emitted, b: Emitted)
    requires Keeps(m, n, i) && Keeps(i.memStore[x := n], n + 1, b)
    ensures Keeps(m, n, Emitted(i.code + [Store(n)] + b.code, b.memStore))
  {
    var m1 := i.memStore[x := n];
    UpdateValues(i.memStore, x, n);
    var head := i.code + [Store(n)];
    var code := head + b.code;
    assert Written([Store(n)]) == {n} by {
      assert [Store(n)][1..] == [];
    }
    WrittenConcat(i.code, [Store(n)]);
    WrittenConcat(head, b.code);
    assert LoadsAfterWrites([Store(n)], m.Values + Written(i.code)) by {
      assert [Store(n)][1..] == [];
    }
    LoadsConcat(i.code, [Store(n)], m.Values);
    LoadsMonotone(b.code, m1.Values, m.Values + Written(head));
    LoadsConcat(head, b.code, m.Values);
    forall op | op in code ensures !op.Local? {
      assert op in i.code || op == Store(n) || op in b.code;
    }
  }

  /** A binary operation keeps the invariant when both operands do. */
  lemma BinaryKeeps(n: nat, m: map<string, nat>, l: Emitted, r: Emitted, last: ByteCodeOp)
    requires Keeps(m, n, l) && Keeps(l.memStore, n, r)
    requires !last.Load? && !last.Local? && !last.Store?
    ensures Keeps(m, n, Emitted(l.code + r.code + [last], r.memStore))
  {
    var both := l.code + r.code;
    WrittenConcat(l.code, r.code);
    LoadsMonotone(r.code, l.memStore.Values, m.Values + Written(l.code));
    LoadsConcat(l.code, r.code, m.Values);
    WrapperInvariant(both, last, m.Values);
    forall o | o in both + [last] ensures !o.Local? {
      assert o in l.code || o in r.code || o == last;
    }
  }

  /** Lowering any expression keeps the invariant. */
  lemma {:induction false} LoweringInvariant(e: Ast.Expr, n: nat, m: map<string, nat>)
    ensures Lowered(e, n, m).Ok? ==> Keeps(m, n, Lowered(e, n, m).value)
  {
    var r := Lowered(e, n, m);
    if r.Ok? {
      match e {
        case Literal(v) =>
          assert Written(r.value.code) == {} && LoadsAfterWrites(r.value.code, m.Values) by {
            assert r.value.code[1..] == [];
          }
        case LocalVar(x) =>
          assert m[x] in m.Values;
          assert Written(r.value.code) == {} && LoadsAfterWrites(r.value.code, m.Values) by {
            assert r.value.code[1..] == [];
          }
        case Let(x, init, body) =>
          var i := Lowered(init, n, m).value;
          LoweringInvariant(init, n, m);
          LoweringInvariant(body, n + 1, i.memStore[x := n]);
          LetKeeps(x, n, m, i, Lowered(body, n + 1, i.memStore[x := n]).value);
        case Binary(lhs, op, rhs) =>
          var l := Lowered(lhs, n, m).value;
          LoweringInvariant(lhs, n, m);
          LoweringInvariant(rhs, n, l.memStore);
          BinaryKeeps(n, m, l, Lowered(rhs, n, l.memStore).value, OpCode(op));
        case Print(x) =>
          LoweringInvariant(x, n, m);
          WrapperInvariant(Lowered(x, n, m).value.code, Print, m.Values);
        case Return(x) =>
          LoweringInvariant(x, n, m);
          WrapperInvariant(Lowered(x, n, m).value.code, Return, m.Values);
        case _ =>
      }
    }
  }

  /** Appending one instruction that neither reads nor writes a slot. */
  lemma WrapperInvariant(code: seq<ByteCodeOp>, last: ByteCodeOp, ready: set<nat>)
    requires !last.Load? && !last.Local? && !last.Store?
    requires LoadsAfterWrites(code, ready)
    ensures Written(code + [last]) == Written(code)
    ensures LoadsAfterWrites(code + [last], ready)
    ensures forall op | op in code + [last] :: op in code || op == last
  {
    assert Written([last]) == {} && LoadsAfterWrites([last], ready + Written(code)) by {
      assert [last][1..] == [];
    }
    WrittenConcat(code, [last]);
    LoadsConcat(code, [last], ready);
  }

  // ------------------------------------------------------------- functions

  /** Binding the parameters: a name is bound exactly when it is a parameter, to the
      position of its last occurrence. */
  lemma {:induction false} ParamSlotsExact(args: seq<string>, x: string)
    ensures x in ParamSlots(args) <==> x in args
    ensures x in ParamSlots(args) ==>
      var i := ParamSlots(args)[x];
      i < |args| && args[i] == x && forall j | i < j < |args| :: args[j] != x
  {
    if args != [] {
      ParamSlotsExact(DropLast(args), x);
      assert args == DropLast(args) + [Last(args)];
      if x in DropLast(args) {
        assert x in args;
      }
    }
  }

  lemma LocalsWrite(n: nat)
    ensures forall k: nat :: k in Written(Locals(n)) <==> k < n
    ensures forall op | op in Locals(n) :: !op.Load?
  {
    forall k: nat ensures k in Written(Locals(n)) <==> k < n {
      WrittenMembers(Locals(n), k);
      if k < n {
        assert Locals(n)[k] == Local(k);
      }
    }
  }

  /** The code of a function: the prologue `Local(0) … Local(n-1)` for its `n`
      parameters, then body code that never uses `Local`, never stores into a
      parameter's slot, and only loads slots initialised earlier in the function. */
  lemma FunctionCodeShape(f: Ast.Func)
    ensures FunctionCode(f).Ok? <==> Lowered(f.body, |f.args|, ParamSlots(f.args)).Ok?
    ensures FunctionCode(f).Ok? ==>
      var c, n := FunctionCode(f).value, |f.args|;
      n <= |c| && c[..n] == Locals(n) &&
      (forall j | n <= j < |c| :: !c[j].Local? && (c[j].Store? ==> c[j].slot >= n)) &&
      LoadsAfterWrites(c, {})
  {
    if FunctionCode(f).Ok? {
      var n := |f.args|;
      var m := ParamSlots(f.args);
      var body := Lowered(f.body, n, m).value.code;
      var c := FunctionCode(f).value;
      assert c == Locals(n) + body;
      assert c[..n] == Locals(n);
      LoweringInvariant(f.body, n, m);
      LocalsWrite(n);
      forall j | n <= j < |c| ensures !c[j].Local? && (c[j].Store? ==> c[j].slot >= n) {
        assert c[j] == body[j - n];
        assert body[j - n] in body;
        if c[j].Store? {
          WrittenMembers(body, c[j].slot);
        }
      }
      forall v | v in m.Values ensures v in Written(Locals(n)) {
        var x :| x in m && m[x] == v;
        ParamSlotsExact(f.args, x);
      }
      NoLoads(Locals(n), {});
      LoadsMonotone(body, m.Values, Written(Locals(n)));
      assert {} + Written(Locals(n)) == Written(Locals(n));
      LoadsConcat(Locals(n), body, {});
    }
  }
}
