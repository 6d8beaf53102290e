/** The operand stack and the stack machine (`mp_stack_*`, `mp_vm_run`,
    `mp_vm_result`).  The stack is a sequence whose last element is the top.

    The loop of `mp_vm_run` only ever moves its instruction pointer forward,
    so a run is described here by the part of the program it has not read
    yet: `Execute` takes that unread code, and the instruction pointer is the
    program length minus the length of the unread code.  `RunLoop` is the
    index-driven loop, over an instruction pointer, and is proved to agree. */
module Machine {
  import opened Float
  import opened Common
  import opened Syntax
  import opened Bytecode

  // ---------------------------------------------------------------------------
  // The operand stack
  // ---------------------------------------------------------------------------

  /** What a pop returns: the element, if there was one, and the stack left
      behind. */
  datatype Popped = Popped(top: Option<F64>, rest: seq<F64>)

  /** `mp_stack_push`. */
  function Push(s: seq<F64>, v: F64): (r: seq<F64>)
    ensures |r| == |s| + 1 && r[|s|] == v && r[..|s|] == s
  {
    s + [v]
  }

  /** `mp_stack_peek`: the top element, or nothing for an empty stack. */
  function Peek(s: seq<F64>): (r: Option<F64>)
    ensures r.Some? <==> |s| > 0
    ensures r.Some? ==> r.value == s[|s| - 1]
  {
    if |s| == 0 then None else Some(s[|s| - 1])
  }

  /** `mp_stack_pop`: the peeked element, removed from the stack when there
      was one; an empty stack is left as it is. */
  function Pop(s: seq<F64>): (r: Popped)
    ensures r.top == Peek(s)
    ensures r.top.None? ==> r.rest == s
    ensures r.top.Some? ==> Push(r.rest, r.top.value) == s
  {
    if |s| == 0 then Popped(None, s) else Popped(Some(s[|s| - 1]), s[..|s| - 1])
  }

  /** Popping undoes a push. */
  lemma PopPush(s: seq<F64>, v: F64)
    ensures Pop(Push(s, v)) == Popped(Some(v), s)
  {
  }

  // ---------------------------------------------------------------------------
  // The machine
  // ---------------------------------------------------------------------------

  /** `MP_Vm`: the program, the operand stack, the variable table and the
      instruction pointer. */
  datatype Vm = Vm(program: seq<Byte>, stack: seq<F64>, vars: Table, ip: nat)

  /** One instruction's effect: carry on with the code that follows it and
      a new stack, or stop the run, reporting failure, after reading `read`
      bytes past the opcode, with the stack as the instruction left it. */
  datatype Transition = Go(code: seq<Byte>, stack: seq<F64>) | Fail(read: nat, stack: seq<F64>)

  /** How a run ends: success or failure, the number of program bytes left
      unread, and the final stack. */
  datatype Halt = Halt(ok: bool, left: nat, stack: seq<F64>)

  /** A binary instruction: pop the right operand, then the left one, and
      push the two combined by `op`.  A missing right operand fails with the
      stack unchanged; a missing left operand fails after the right one has
      been popped. */
  function BinaryStep(prims: Primitives, op: BinOp, code: seq<Byte>, s: seq<F64>): (t: Transition)
    requires |code| > 0
    ensures t.Go? ==> |s| >= 2 && t == Go(code[1..], Push(s[..|s| - 2], Combine(prims, op, s[|s| - 2], s[|s| - 1])))
    ensures |s| == 0 ==> t == Fail(0, s)
    ensures |s| == 1 ==> t == Fail(0, [])
  {
    var b := Pop(s);
    if b.top.None? then Fail(0, b.rest)
    else
      var a := Pop(b.rest);
      if a.top.None? then Fail(0, a.rest)
      else Go(code[1..], Push(a.rest, Combine(prims, op, a.top.value, b.top.value)))
  }

  /** What instruction `op`, the first byte of `code`, does (the `switch` in
      `mp_vm_run`).  An operand that runs past the end of the program, or a
      variable byte outside the table, stops the run as a failure. */
  function Effect(prims: Primitives, code: seq<Byte>, vars: Table, s: seq<F64>, op: Opcode): (t: Transition)
    requires |code| > 0
    ensures t.Go? ==> |t.code| < |code| && t.code == code[|code| - |t.code|..]
    ensures t.Fail? ==> t.read <= 1
  {
    match op
    case PushNum =>
      if 9 <= |code| then Go(code[9..], Push(s, DecodeBytes(code[1..9]))) else Fail(1, s)
    case PushVar =>
      if 2 <= |code| && code[1] < 26 then Go(code[2..], Push(s, vars[code[1] as int])) else Fail(1, s)
    case AddOp => BinaryStep(prims, Add, code, s)
    case SubOp => BinaryStep(prims, Subtract, code, s)
    case MulOp => BinaryStep(prims, Multiply, code, s)
    case DivOp => BinaryStep(prims, Divide, code, s)
    case PowOp => BinaryStep(prims, Power, code, s)
    case NegOp =>
      var n := Pop(s);
      if n.top.None? then Fail(0, n.rest) else Go(code[1..], Push(n.rest, Negate(n.top.value)))
  }

  /** Every binary instruction is a `BinaryStep` with its own operator. */
  lemma BinaryEffect(prims: Primitives, code: seq<Byte>, vars: Table, s: seq<F64>, op: BinOp)
    requires |code| > 0
    ensures Effect(prims, code, vars, s, BinaryOpcode(op)) == BinaryStep(prims, op, code, s)
  {
  }

  /** One turn of the loop in `mp_vm_run`: read the opcode and perform it;
      a byte that is no instruction stops the run. */
  function Step(prims: Primitives, code: seq<Byte>, vars: Table, s: seq<F64>): (t: Transition)
    requires |code| > 0
    ensures t.Go? ==> |t.code| < |code| && t.code == code[|code| - |t.code|..] && OpcodeOf(code[0]).Some?
    ensures t.Fail? ==> t.read <= 1
  {
    match OpcodeOf(code[0])
    case None => Fail(0, s)
    case Some(op) => Effect(prims, code, vars, s, op)
  }

  /** The loop of `mp_vm_run` over the unread code: runs until no code is
      left or an instruction fails. */
  function Execute(prims: Primitives, code: seq<Byte>, vars: Table, s: seq<F64>): (h: Halt)
    ensures h.left <= |code|
    ensures h.ok ==> h.left == 0
    decreases |code|, 2
  {
    if |code| == 0 then Halt(true, 0, s)
    else Fetch(prims, code, vars, s)
  }

  /** The head of one turn of the loop: the first byte is either no
      instruction, which ends the run as a failure, or one to perform. */
  function Fetch(prims: Primitives, code: seq<Byte>, vars: Table, s: seq<F64>): (h: Halt)
    requires |code| > 0
    ensures h.left <= |code|
    ensures h.ok ==> h.left == 0
    decreases |code|, 1
  {
    match OpcodeOf(code[0])
    case None => Halt(false, |code|, s)
    case Some(op) => Perform(prims, code, vars, s, op)
  }

  /** The rest of one turn of the loop: instruction `op` either fails,
      ending the run, or the loop carries on with the code after it. */
  function Perform(prims: Primitives, code: seq<Byte>, vars: Table, s: seq<F64>, op: Opcode): (h: Halt)
    requires |code| > 0
    ensures h.left <= |code|
    ensures h.ok ==> h.left == 0
    decreases |code|, 0
  {
    match Effect(prims, code, vars, s, op)
    case Go(next, s') => Execute(prims, next, vars, s')
    case Fail(read, s') => Halt(false, |code| - read, s')
  }

  /** An instruction that carries on: the run continues from where it
      leaves the machine. */
  lemma ExecuteStep(prims: Primitives, code: seq<Byte>, vars: Table, s: seq<F64>)
    requires |code| > 0 && Step(prims, code, vars, s).Go?
    ensures var t := Step(prims, code, vars, s);
      Execute(prims, code, vars, s) == Execute(prims, t.code, vars, t.stack)
  {
    var op := OpcodeOf(code[0]).value;
    assert Execute(prims, code, vars, s) == Fetch(prims, code, vars, s);
    assert Fetch(prims, code, vars, s) == Perform(prims, code, vars, s, op);
  }

  /** The same, for a known instruction `op`. */
  lemma ExecuteOp(prims: Primitives, code: seq<Byte>, vars: Table, s: seq<F64>, op: Opcode)
    requires |code| > 0 && OpcodeOf(code[0]) == Some(op) && Effect(prims, code, vars, s, op).Go?
    ensures var t := Effect(prims, code, vars, s, op);
      Execute(prims, code, vars, s) == Execute(prims, t.code, vars, t.stack)
  {
    assert Execute(prims, code, vars, s) == Fetch(prims, code, vars, s);
    assert Fetch(prims, code, vars, s) == Perform(prims, code, vars, s, op);
  }

  /** An instruction that fails ends the run where it stopped. */
  lemma ExecuteFail(prims: Primitives, code: seq<Byte>, vars: Table, s: seq<F64>)
    requires |code| > 0 && Step(prims, code, vars, s).Fail?
    ensures var t := Step(prims, code, vars, s);
      Execute(prims, code, vars, s) == Halt(false, |code| - t.read, t.stack)
  {
    assert Execute(prims, code, vars, s) == Fetch(prims, code, vars, s);
    if op :| OpcodeOf(code[0]) == Some(op) {
      assert Fetch(prims, code, vars, s) == Perform(prims, code, vars, s, op);
    }
  }

  /** What `mp_vm_run` reports and the machine it leaves behind. */
  datatype RunResult = RunResult(ok: bool, vm: Vm)

  /** `mp_vm_run`: restarts the instruction pointer at zero but keeps the
      operand stack from earlier runs.  The program and the variables are
      never changed. */
  function Run(prims: Primitives, vm: Vm): (r: RunResult)
    ensures r.vm.program == vm.program && r.vm.vars == vm.vars
    ensures r.vm.ip <= |vm.program|
    ensures r.ok ==> r.vm.ip == |vm.program|
  {
    var h := Execute(prims, vm.program, vm.vars, vm.stack);
    RunResult(h.ok, vm.(stack := h.stack, ip := |vm.program| - h.left))
  }

  /** `mp_vm_result`: the top of the stack, or zero for an empty stack. */
  function Result(vm: Vm): (v: F64)
    ensures Peek(vm.stack).Some? ==> v == Peek(vm.stack).value
    ensures Peek(vm.stack).None? ==> v == Zero
  {
    var top := Peek(vm.stack);
    if top.Some? then top.value else Zero
  }

  /** `mp_vm_run` as an index-driven loop: it reads the opcode at the
      instruction pointer and updates the instruction pointer and the stack. */
  method RunLoop(prims: Primitives, vm: Vm) returns (ok: bool, after: Vm)
    ensures after.program == vm.program && after.vars == vm.vars
    ensures ok == Run(prims, vm).ok && after == Run(prims, vm).vm
  {
    var ip: nat := 0;
    var stack := vm.stack;
    assert vm.program[0..] == vm.program;
    while ip < |vm.program|
      invariant ip <= |vm.program|
      invariant Execute(prims, vm.program[ip..], vm.vars, stack) == Execute(prims, vm.program, vm.vars, vm.stack)
      decreases |vm.program| - ip
    {
      var t := Step(prims, vm.program[ip..], vm.vars, stack);
      if t.Fail? {
        ExecuteFail(prims, vm.program[ip..], vm.vars, stack);
        return false, vm.(stack := t.stack, ip := ip + t.read);
      }
      ExecuteStep(prims, vm.program[ip..], vm.vars, stack);
      var next := |vm.program| - |t.code|;
      DropDrop(vm.program, ip, next - ip);
      assert vm.program[next..] == t.code;
      ip, stack := next, t.stack;
    }
    return true, vm.(stack := stack, ip := ip);
  }

  /** Skipping `i` bytes and then `k` more skips `i + k`. */
  lemma DropDrop(p: seq<Byte>, i: nat, k: nat)
    requires i + k <= |p|
    ensures p[i..][k..] == p[i + k..]
  {
  }
}
