/** The tree-walking interpreter (`mp_interpret_node`): evaluates a tree
    against a variable table, in a fixed order, stopping at the first error. */
module Interpreter {
  import opened Float
  import opened Common
  import opened Syntax

  /** An interpreter result record: a value, or an error kind.  A failed
      record's value field is the zero it was initialised with. */
  datatype Outcome = Ok(value: F64) | Err(kind: ErrorKind)

  /** The value field of a result record, whether or not it reports an error. */
  function ValueField(o: Outcome): F64 {
    if o.Ok? then o.value else Zero
  }

  /** One of the six named functions applied to an argument, or
      INVALID_FUNCTION for an unknown name. */
  function Apply(prims: Primitives, f: FunctionName, x: F64): (r: Outcome)
    ensures r.Err? <==> f == UnknownFunction
    ensures r.Err? ==> r.kind == InvalidFunction
  {
    match f
    case UnknownFunction => Err(InvalidFunction)
    case Ln => Ok(prims.ln(x))
    case Log => Ok(prims.log10(x))
    case Sin => Ok(prims.sin(x))
    case Cos => Ok(prims.cos(x))
    case Tan => Ok(prims.tan(x))
    case Sqrt => Ok(prims.sqrt(x))
  }

  /** `mp_interpret_node`.  Sums, differences and products evaluate the left
      operand first; quotients and powers the right operand first, and a zero
      divisor fails before the dividend is looked at.  Unary minus negates
      its operand's value field and reports no error even when the operand
      failed.  Only three error kinds are ever reported. */
  function Interpret(prims: Primitives, vars: Table, n: Node): (r: Outcome)
    ensures r.Err? ==> r.kind == InvalidNode || r.kind == InvalidFunction || r.kind == ZeroDivision
  {
    match n
    case Invalid => Err(InvalidNode)
    case Number(v) => Ok(v)
    case Symbol(c) => Ok(vars[Slot(c)])
    case Function(f, a) =>
      var x := Interpret(prims, vars, a);
      if x.Err? then x else Apply(prims, f, x.value)
    case Binary(op, l, r) =>
      if op == Divide || op == Power then
        var b := Interpret(prims, vars, r);
        if b.Err? then b
        else if op == Divide && IsZero(b.value) then Err(ZeroDivision)
        else
          var a := Interpret(prims, vars, l);
          if a.Err? then a
          else if op == Divide then Ok(prims.div(a.value, b.value))
          else Ok(prims.pow(a.value, b.value))
      else
        var a := Interpret(prims, vars, l);
        if a.Err? then a
        else
          var b := Interpret(prims, vars, r);
          if b.Err? then b
          else if op == Add then Ok(prims.add(a.value, b.value))
          else if op == Subtract then Ok(prims.sub(a.value, b.value))
          else Ok(prims.mul(a.value, b.value))
    case Unary(Positive, c) => Interpret(prims, vars, c)
    case Unary(Negative, c) => Ok(Negate(ValueField(Interpret(prims, vars, c))))
  }

  // ---------------------------------------------------------------------------
  // Evaluation order and error precedence
  // ---------------------------------------------------------------------------

  /** For `+`, `-` and `*` the left operand's error wins, whatever the right
      operand would have done. */
  lemma LeftErrorWins(prims: Primitives, vars: Table, op: BinOp, l: Node, r: Node)
    requires op == Add || op == Subtract || op == Multiply
    requires Interpret(prims, vars, l).Err?
    ensures Interpret(prims, vars, Binary(op, l, r)) == Interpret(prims, vars, l)
  {
  }

  /** For `/` and `^` the right operand's error wins, whatever the left
      operand would have done. */
  lemma RightErrorWins(prims: Primitives, vars: Table, op: BinOp, l: Node, r: Node)
    requires op == Divide || op == Power
    requires Interpret(prims, vars, r).Err?
    ensures Interpret(prims, vars, Binary(op, l, r)) == Interpret(prims, vars, r)
  {
  }

  /** A zero divisor is reported as ZERO_DIVISION even when the dividend
      itself would fail: the dividend is never evaluated. */
  lemma ZeroDivisorMasksDividend(prims: Primitives, vars: Table, l: Node, r: Node)
    requires Interpret(prims, vars, r).Ok? && IsZero(Interpret(prims, vars, r).value)
    ensures Interpret(prims, vars, Binary(Divide, l, r)) == Err(ZeroDivision)
  {
  }

  /** An unknown function name fails only after its argument evaluates
      without error; an argument error takes precedence. */
  lemma UnknownFunctionDeferred(prims: Primitives, vars: Table, a: Node)
    ensures Interpret(prims, vars, a).Ok? ==>
      Interpret(prims, vars, Function(UnknownFunction, a)) == Err(InvalidFunction)
    ensures Interpret(prims, vars, a).Err? ==>
      Interpret(prims, vars, Function(UnknownFunction, a)) == Interpret(prims, vars, a)
  {
  }

  /** Unary plus returns its operand's record unchanged, errors included. */
  lemma PlusIsTransparent(prims: Primitives, vars: Table, c: Node)
    ensures Interpret(prims, vars, Unary(Positive, c)) == Interpret(prims, vars, c)
  {
  }

  /** Unary minus never reports an error: a failed operand becomes the
      negation of its zero value field. */
  lemma MinusDropsError(prims: Primitives, vars: Table, c: Node)
    requires Interpret(prims, vars, c).Err?
    ensures Interpret(prims, vars, Unary(Negative, c)) == Ok(Negate(Zero))
  {
  }

  /** The interpreter reads the variable table only at the tree's symbols:
      tables that agree there give the same result. */
  lemma {:induction false} OnlySymbolsRead(prims: Primitives, v1: Table, v2: Table, n: Node)
    requires forall c: Letter :: Mentions(n, c) ==> v1[Slot(c)] == v2[Slot(c)]
    ensures Interpret(prims, v1, n) == Interpret(prims, v2, n)
  {
    match n
    case Invalid =>
    case Number(_) =>
    case Symbol(c) =>
      assert Mentions(n, c);
    case Function(_, a) =>
      OnlySymbolsRead(prims, v1, v2, a);
    case Binary(_, l, r) =>
      OnlySymbolsRead(prims, v1, v2, l);
      OnlySymbolsRead(prims, v1, v2, r);
    case Unary(_, c) =>
      OnlySymbolsRead(prims, v1, v2, c);
  }

  /** The letter `c` occurs as a symbol somewhere in the tree. */
  predicate Mentions(n: Node, c: Letter) {
    match n
    case Invalid => false
    case Number(_) => false
    case Symbol(d) => c == d
    case Function(_, a) => Mentions(a, c)
    case Binary(_, l, r) => Mentions(l, c) || Mentions(r, c)
    case Unary(_, x) => Mentions(x, c)
  }

  /** No call in the tree names an unknown function. */
  predicate KnownCalls(n: Node) {
    match n
    case Invalid => true
    case Number(_) => true
    case Symbol(_) => true
    case Function(f, a) => f != UnknownFunction && KnownCalls(a)
    case Binary(_, l, r) => KnownCalls(l) && KnownCalls(r)
    case Unary(_, c) => KnownCalls(c)
  }

  /** Each error kind has a cause in the tree: INVALID_NODE needs an
      `Invalid` node, INVALID_FUNCTION an unknown call. */
  lemma {:induction false} ErrorCauses(prims: Primitives, vars: Table, n: Node)
    ensures var o := Interpret(prims, vars, n);
      && (o == Err(InvalidNode) ==> !Complete(n))
      && (o == Err(InvalidFunction) ==> !KnownCalls(n))
  {
    match n
    case Invalid =>
    case Number(_) =>
    case Symbol(_) =>
    case Function(_, a) =>
      ErrorCauses(prims, vars, a);
    case Binary(_, l, r) =>
      ErrorCauses(prims, vars, l);
      ErrorCauses(prims, vars, r);
    case Unary(_, c) =>
      ErrorCauses(prims, vars, c);
  }
}
