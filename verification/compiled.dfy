/** What a compiled program does when the machine runs it, and how that
    relates to the interpreter's answer for the same tree. */
module Compiled {
  import opened Float
  import opened Common
  import opened Syntax
  import opened Interpreter
  import opened Bytecode
  import opened Machine

  // ---------------------------------------------------------------------------
  // Running a compiled tree
  // ---------------------------------------------------------------------------

  /** A number's code pushes the number and hands over to what follows. */
  lemma NumberRuns(prims: Primitives, vars: Table, v: F64, rest: seq<Byte>, s: seq<F64>)
    ensures Execute(prims, Compile(Number(v)).value + rest, vars, s) == Execute(prims, rest, vars, Push(s, v))
  {
    var code := Compile(Number(v)).value + rest;
    assert code[0] == Code(PushNum);
    assert code[1..9] == EncodeBytes(v);
    assert code[9..] == rest;
    DecodeEncode(v);
    assert Effect(prims, code, vars, s, PushNum) == Go(rest, Push(s, v));
    ExecuteOp(prims, code, vars, s, PushNum);
  }

  /** A symbol's code pushes the variable's current value. */
  lemma SymbolRuns(prims: Primitives, vars: Table, c: Letter, rest: seq<Byte>, s: seq<F64>)
    ensures Execute(prims, Compile(Symbol(c)).value + rest, vars, s) == Execute(prims, rest, vars, Push(s, vars[Slot(c)]))
  {
    var code := Compile(Symbol(c)).value + rest;
    assert code[0] == Code(PushVar) && code[1] == Slot(c) as Byte;
    assert code[2..] == rest;
    SlotByte(c);
    assert Effect(prims, code, vars, s, PushVar) == Go(rest, Push(s, vars[Slot(c)]));
    ExecuteOp(prims, code, vars, s, PushVar);
  }

  /** A slot number survives the trip through a byte. */
  lemma SlotByte(c: Letter)
    ensures Slot(c) as Byte < 26 && (Slot(c) as Byte) as int == Slot(c)
  {
  }

  /** A binary instruction combines the two topmost values with its
      operator, the right operand being the one on top. */
  lemma BinaryRuns(prims: Primitives, vars: Table, op: BinOp, rest: seq<Byte>, s: seq<F64>, a: F64, b: F64)
    ensures Execute(prims, [BinaryCode(op)] + rest, vars, Push(Push(s, a), b))
         == Execute(prims, rest, vars, Push(s, Combine(prims, op, a, b)))
  {
    var code := [BinaryCode(op)] + rest;
    PopPush(s, a);
    PopPush(Push(s, a), b);
    assert code[1..] == rest;
    OpcodeOfCode(BinaryOpcode(op));
    BinaryEffect(prims, code, vars, Push(Push(s, a), b), op);
    ExecuteOp(prims, code, vars, Push(Push(s, a), b), BinaryOpcode(op));
  }

  /** A negation replaces the topmost value by its negation. */
  lemma NegRuns(prims: Primitives, vars: Table, rest: seq<Byte>, s: seq<F64>, v: F64)
    ensures Execute(prims, [Code(NegOp)] + rest, vars, Push(s, v)) == Execute(prims, rest, vars, Push(s, Negate(v)))
  {
    var code := [Code(NegOp)] + rest;
    PopPush(s, v);
    assert code[1..] == rest;
    assert Effect(prims, code, vars, Push(s, v), NegOp) == Go(rest, Push(s, Negate(v)));
    ExecuteOp(prims, code, vars, Push(s, v), NegOp);
  }

  /** The code of a tree, followed by any code at all, runs through to that
      code and leaves the stack it found with the tree's post-order value
      pushed on top. */
  lemma {:induction false} RunsCode(prims: Primitives, vars: Table, n: Node, rest: seq<Byte>, s: seq<F64>)
    requires CompileFree(n)
    ensures Execute(prims, Compile(n).value + rest, vars, s)
         == Execute(prims, rest, vars, Push(s, StackValue(prims, vars, n)))
  {
    match n
    case Number(v) =>
      NumberRuns(prims, vars, v, rest, s);
    case Symbol(c) =>
      SymbolRuns(prims, vars, c, rest, s);
    case Binary(op, l, r) =>
      var cl, cr := Compile(l).value, Compile(r).value;
      var a, b := StackValue(prims, vars, l), StackValue(prims, vars, r);
      assert Compile(n).value + rest == cl + (cr + ([BinaryCode(op)] + rest));
      RunsCode(prims, vars, l, cr + ([BinaryCode(op)] + rest), s);
      RunsCode(prims, vars, r, [BinaryCode(op)] + rest, Push(s, a));
      BinaryRuns(prims, vars, op, rest, s, a, b);
    case Unary(Positive, c) =>
      RunsCode(prims, vars, c, rest, s);
    case Unary(Negative, c) =>
      var cc := Compile(c).value;
      assert Compile(n).value + rest == cc + ([Code(NegOp)] + rest);
      RunsCode(prims, vars, c, [Code(NegOp)] + rest, s);
      NegRuns(prims, vars, rest, s, StackValue(prims, vars, c));
  }

  /** A compiled program, run on any stack, succeeds and pushes exactly one
      value, the tree's post-order value, on top of that stack. */
  lemma RunCompiled(prims: Primitives, vars: Table, n: Node, s: seq<F64>)
    requires CompileFree(n)
    ensures Execute(prims, Compile(n).value, vars, s) == Halt(true, 0, Push(s, StackValue(prims, vars, n)))
  {
    RunsCode(prims, vars, n, [], s);
    assert Compile(n).value + [] == Compile(n).value;
  }

  /** A machine loaded with a compiled tree: a run succeeds, keeps the old
      stack beneath the new value, and the result is that value. */
  lemma RunMachine(prims: Primitives, vm: Vm, n: Node)
    requires CompileFree(n) && vm.program == Compile(n).value
    ensures var r := Run(prims, vm);
      && r.ok
      && r.vm == vm.(stack := Push(vm.stack, StackValue(prims, vm.vars, n)), ip := |vm.program|)
      && Result(r.vm) == StackValue(prims, vm.vars, n)
  {
    RunCompiled(prims, vm.vars, n, vm.stack);
  }

  // ---------------------------------------------------------------------------
  // Agreement with the interpreter
  // ---------------------------------------------------------------------------

  /** No quotient in the tree has a divisor whose value is zero. */
  predicate NoZeroDivisor(prims: Primitives, vars: Table, n: Node) {
    match n
    case Invalid => true
    case Number(_) => true
    case Symbol(_) => true
    case Function(_, a) => NoZeroDivisor(prims, vars, a)
    case Binary(op, l, r) =>
      && (op == Divide ==> !IsZero(StackValue(prims, vars, r)))
      && NoZeroDivisor(prims, vars, l)
      && NoZeroDivisor(prims, vars, r)
    case Unary(_, c) => NoZeroDivisor(prims, vars, c)
  }

  /** On a tree the compiler accepts and that divides by no zero, the
      interpreter succeeds with the value the compiled program pushes. */
  lemma {:induction false} InterpreterAgrees(prims: Primitives, vars: Table, n: Node)
    requires CompileFree(n) && NoZeroDivisor(prims, vars, n)
    ensures Interpret(prims, vars, n) == Ok(StackValue(prims, vars, n))
  {
    match n
    case Number(_) =>
    case Symbol(_) =>
    case Binary(_, l, r) =>
      InterpreterAgrees(prims, vars, l);
      InterpreterAgrees(prims, vars, r);
    case Unary(_, c) =>
      InterpreterAgrees(prims, vars, c);
  }

  /** On a tree the compiler accepts, the only error the interpreter can
      report is ZERO_DIVISION, and only when some divisor is zero. */
  lemma {:induction false} InterpreterErrorsOnlyOnZero(prims: Primitives, vars: Table, n: Node)
    requires CompileFree(n)
    ensures Interpret(prims, vars, n).Ok? || Interpret(prims, vars, n) == Err(ZeroDivision)
    ensures Interpret(prims, vars, n).Err? ==> !NoZeroDivisor(prims, vars, n)
  {
    match n
    case Number(_) =>
    case Symbol(_) =>
    case Binary(_, l, r) =>
      InterpreterErrorsOnlyOnZero(prims, vars, l);
      InterpreterErrorsOnlyOnZero(prims, vars, r);
      if Interpret(prims, vars, n).Err? && NoZeroDivisor(prims, vars, n) {
        InterpreterAgrees(prims, vars, n);
      }
    case Unary(_, c) =>
      InterpreterErrorsOnlyOnZero(prims, vars, c);
  }

  /** Where the two back ends part: a minus sign in front of a quotient by
      zero makes the interpreter answer negative zero without error, while
      the compiled program negates whatever the division primitive gives. */
  lemma MinusHidesZeroDivision(prims: Primitives, vars: Table, l: Node, d: F64)
    requires CompileFree(l) && IsZero(d)
    ensures var n := Unary(Negative, Binary(Divide, l, Number(d)));
      && Interpret(prims, vars, Binary(Divide, l, Number(d))) == Err(ZeroDivision)
      && Interpret(prims, vars, n) == Ok(Negate(Zero))
      && Compile(n).Some?
      && StackValue(prims, vars, n) == Negate(prims.div(StackValue(prims, vars, l), d))
  {
    assert StackValue(prims, vars, Binary(Divide, l, Number(d)))
        == Combine(prims, Divide, StackValue(prims, vars, l), d);
  }
}
