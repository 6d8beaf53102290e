/** The abstract syntax tree the parser builds and both back ends consume. */
module Syntax {
  import opened Float
  import opened Common

  /** The functions a call may name; `UnknownFunction` is MP_FUNCTION_INVALID. */
  datatype FunctionName = UnknownFunction | Ln | Log | Sin | Cos | Tan | Sqrt

  datatype BinOp = Add | Subtract | Multiply | Divide | Power

  datatype UnOp = Positive | Negative

  /** A tree node.  `Invalid` is MP_NODE_INVALID; it also stands for the NULL
      child the parser leaves behind after an error, which the interpreter
      treats the same way. */
  datatype Node =
    | Invalid
    | Number(value: F64)
    | Symbol(letter: Letter)
    | Function(name: FunctionName, arg: Node)
    | Binary(op: BinOp, lhs: Node, rhs: Node)
    | Unary(sign: UnOp, operand: Node)

  /** The name of a function as written in an expression. */
  function Spelling(f: FunctionName): string {
    match f
    case UnknownFunction => ""
    case Ln => "ln"
    case Log => "log"
    case Sin => "sin"
    case Cos => "cos"
    case Tan => "tan"
    case Sqrt => "sqrt"
  }

  /** The function a NAME token calls, by exact string match; every other
      name resolves to `UnknownFunction` rather than being rejected. */
  function Lookup(name: string): (f: FunctionName)
    ensures f != UnknownFunction ==> Spelling(f) == name
  {
    if name == "ln" then Ln
    else if name == "log" then Log
    else if name == "sin" then Sin
    else if name == "cos" then Cos
    else if name == "tan" then Tan
    else if name == "sqrt" then Sqrt
    else UnknownFunction
  }

  /** Looking up the spelling of a known function gives that function back. */
  lemma LookupSpelling(f: FunctionName)
    requires f != UnknownFunction
    ensures Lookup(Spelling(f)) == f
  {
  }

  /** No node of the tree is `Invalid`: the shape of every tree a successful
      parse returns. */
  predicate Complete(n: Node) {
    match n
    case Invalid => false
    case Number(_) => true
    case Symbol(_) => true
    case Function(_, a) => Complete(a)
    case Binary(_, l, r) => Complete(l) && Complete(r)
    case Unary(_, c) => Complete(c)
  }

  /** No node of the tree is a function call or `Invalid`: the trees the
      compiler can lower. */
  predicate CompileFree(n: Node) {
    match n
    case Invalid => false
    case Number(_) => true
    case Symbol(_) => true
    case Function(_, _) => false
    case Binary(_, l, r) => CompileFree(l) && CompileFree(r)
    case Unary(_, c) => CompileFree(c)
  }

  /** A tree the compiler can lower holds no `Invalid` node. */
  lemma {:induction false} CompileFreeIsComplete(n: Node)
    requires CompileFree(n)
    ensures Complete(n)
  {
    match n
    case Number(_) =>
    case Symbol(_) =>
    case Binary(_, l, r) =>
      CompileFreeIsComplete(l);
      CompileFreeIsComplete(r);
    case Unary(_, c) =>
      CompileFreeIsComplete(c);
  }
}
