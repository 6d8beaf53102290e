/** The compiler (`mp_program_compile_node` and the three push helpers):
    lowers a tree to a post-order byte program for the stack machine. */
module Bytecode {
  import opened Float
  import opened Common
  import opened Syntax

  /** The instructions of the stack machine (MP_OP_INVALID, code 0, is never
      emitted and is not an instruction). */
  datatype Opcode = PushNum | PushVar | AddOp | SubOp | MulOp | DivOp | PowOp | NegOp

  /** The byte an instruction is stored as: its position in the opcode
      enumeration. */
  function Code(op: Opcode): (b: Byte)
    ensures 1 <= b <= 8
  {
    match op
    case PushNum => 1
    case PushVar => 2
    case AddOp => 3
    case SubOp => 4
    case MulOp => 5
    case DivOp => 6
    case PowOp => 7
    case NegOp => 8
  }

  /** The instruction a byte holds, if any: bytes 0 and 9 to 255 are not
      instructions and stop the machine. */
  function OpcodeOf(b: Byte): (r: Option<Opcode>)
    ensures r.Some? <==> 1 <= b <= 8
  {
    if b == 1 then Some(PushNum)
    else if b == 2 then Some(PushVar)
    else if b == 3 then Some(AddOp)
    else if b == 4 then Some(SubOp)
    else if b == 5 then Some(MulOp)
    else if b == 6 then Some(DivOp)
    else if b == 7 then Some(PowOp)
    else if b == 8 then Some(NegOp)
    else None
  }

  /** Decoding a stored instruction gives it back. */
  lemma OpcodeOfCode(op: Opcode)
    ensures OpcodeOf(Code(op)) == Some(op)
  {
  }

  /** A byte that decodes to an instruction is that instruction's code. */
  lemma CodeOfOpcode(b: Byte)
    requires OpcodeOf(b).Some?
    ensures Code(OpcodeOf(b).value) == b
  {
  }

  /** The instruction that combines the two operands of a binary node. */
  function BinaryOpcode(op: BinOp): (o: Opcode)
    ensures o != PushNum && o != PushVar && o != NegOp
  {
    match op
    case Add => AddOp
    case Subtract => SubOp
    case Multiply => MulOp
    case Divide => DivOp
    case Power => PowOp
  }

  /** The byte of that instruction. */
  function BinaryCode(op: BinOp): (b: Byte)
    ensures 3 <= b <= 7
  {
    Code(BinaryOpcode(op))
  }

  /** `mp_program_compile_node`: operands before operator, a number as its
      opcode and eight value bytes, a symbol as its opcode and slot byte,
      unary plus as nothing at all.  Function calls and `Invalid` nodes
      cannot be lowered, and a failure anywhere fails the whole tree. */
  function Compile(n: Node): (r: Option<seq<Byte>>)
    ensures r.Some? <==> CompileFree(n)
  {
    match n
    case Invalid => None
    case Function(_, _) => None
    case Number(v) => Some([Code(PushNum)] + EncodeBytes(v))
    case Symbol(c) => Some([Code(PushVar), Slot(c) as Byte])
    case Binary(op, l, r) =>
      var cl := Compile(l);
      if cl.None? then None
      else
        var cr := Compile(r);
        if cr.None? then None
        else Some(cl.value + cr.value + [BinaryCode(op)])
    case Unary(Positive, c) => Compile(c)
    case Unary(Negative, c) =>
      var cc := Compile(c);
      if cc.None? then None else Some(cc.value + [Code(NegOp)])
  }

  /** The value the machine computes for a tree, operator by operator in
      post order, with no zero-divisor check: the reference the compiled
      program is proved against.  Trees the compiler rejects get zero. */
  function StackValue(prims: Primitives, vars: Table, n: Node): F64 {
    match n
    case Invalid => Zero
    case Function(_, _) => Zero
    case Number(v) => v
    case Symbol(c) => vars[Slot(c)]
    case Binary(op, l, r) =>
      var a := StackValue(prims, vars, l);
      var b := StackValue(prims, vars, r);
      Combine(prims, op, a, b)
    case Unary(Positive, c) => StackValue(prims, vars, c)
    case Unary(Negative, c) => Negate(StackValue(prims, vars, c))
  }

  /** The primitive a binary operator applies to its two operands. */
  function Combine(prims: Primitives, op: BinOp, a: F64, b: F64): F64 {
    match op
    case Add => prims.add(a, b)
    case Subtract => prims.sub(a, b)
    case Multiply => prims.mul(a, b)
    case Divide => prims.div(a, b)
    case Power => prims.pow(a, b)
  }

  /** The number of bytes of a lowered tree: nine per number, two per symbol,
      one per binary operator or minus sign. */
  function CodeSize(n: Node): nat {
    match n
    case Invalid => 0
    case Function(_, _) => 0
    case Number(_) => 9
    case Symbol(_) => 2
    case Binary(_, l, r) => CodeSize(l) + CodeSize(r) + 1
    case Unary(Positive, c) => CodeSize(c)
    case Unary(Negative, c) => CodeSize(c) + 1
  }

  /** A lowered tree is exactly as long as its instructions and operands. */
  lemma {:induction false} CompiledSize(n: Node)
    requires CompileFree(n)
    ensures |Compile(n).value| == CodeSize(n)
  {
    match n
    case Number(_) =>
    case Symbol(_) =>
    case Binary(_, l, r) =>
      CompiledSize(l);
      CompiledSize(r);
    case Unary(_, c) =>
      CompiledSize(c);
  }
}
