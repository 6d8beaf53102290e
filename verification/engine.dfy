/** The simplified API (`mp_init_mode`, `mp_variable`, `mp_evaluate`): an
    environment built from an expression text in one of two modes, whose
    variables can be set and which can be evaluated any number of times. */
module Engine {
  import opened Float
  import opened Common
  import opened Tokenizer
  import opened Syntax
  import opened Parser
  import opened Interpreter
  import opened Bytecode
  import opened Machine
  import opened Compiled

  /** `MP_Mode`. */
  datatype Mode = InterpretMode | CompileMode

  /** `MP_Env`: in interpret mode the tree and the interpreter's variable
      table, in compile mode the stack machine holding the compiled program. */
  datatype Env = InterpretEnv(root: Node, vars: Table) | CompileEnv(vm: Vm)

  /** The mode an environment was built in. */
  function ModeOf(env: Env): Mode {
    if env.InterpretEnv? then InterpretMode else CompileMode
  }

  /** The variable table of whichever back end the environment holds. */
  function Variables(env: Env): Table {
    if env.InterpretEnv? then env.vars else env.vm.vars
  }

  /** `mp_variable`: binds one letter in the back end's table.  The tree, the
      program, the stack and the instruction pointer are left alone. */
  function SetVariable(env: Env, c: Letter, v: F64): (r: Env)
    ensures ModeOf(r) == ModeOf(env)
    ensures Variables(r)[Slot(c)] == v
    ensures forall d: Letter :: d != c ==> Variables(r)[Slot(d)] == Variables(env)[Slot(d)]
    ensures r.InterpretEnv? ==> r.root == env.root
    ensures r.CompileEnv? ==> r.vm == env.vm.(vars := Variables(r))
  {
    match env
    case InterpretEnv(root, vars) => InterpretEnv(root, Store(vars, c, v))
    case CompileEnv(vm) => CompileEnv(vm.(vars := Store(vm.vars, c, v)))
  }

  /** The tree an expression text parses to, if it tokenizes and parses. */
  function ParsedTree(prims: Primitives, src: string): (r: Option<Node>)
    ensures r.Some? ==> Complete(r.value)
  {
    var tz := Tokenize(prims, src);
    if tz.error.Some? then None
    else
      var pr := Parse(tz.tokens);
      if pr.ParseFailure? then None else Some(pr.root)
  }

  /** `mp_init_mode`: tokenize, parse and, in compile mode, compile; any
      failure gives no environment.  A fresh environment starts from a zeroed
      table, then binds `p` to π and `e` to e, in that order. */
  function Init(prims: Primitives, src: string, mode: Mode): (r: Option<Env>)
    ensures r.Some? ==> ModeOf(r.value) == mode && ParsedTree(prims, src).Some?
    ensures r.Some? ==> Variables(r.value)[Slot('p')] == Pi && Variables(r.value)[Slot('e')] == EulerE
    ensures r.Some? ==> forall c: Letter :: c != 'p' && c != 'e' ==> Variables(r.value)[Slot(c)] == Zero
    ensures r.Some? && mode == InterpretMode ==> r.value.root == ParsedTree(prims, src).value
    ensures r.Some? && mode == CompileMode ==>
      && r.value.vm.stack == [] && r.value.vm.ip == 0
      && Compile(ParsedTree(prims, src).value) == Some(r.value.vm.program)
  {
    match ParsedTree(prims, src)
    case None => None
    case Some(root) => Build(root, mode)
  }

  /** The environment for a parsed tree: the tree itself in interpret mode, a
      fresh machine (empty stack, zeroed table, pointer at zero) loaded with
      the compiled tree in compile mode. */
  function Build(root: Node, mode: Mode): (r: Option<Env>)
    ensures r.Some? <==> mode == InterpretMode || CompileFree(root)
    ensures r.Some? ==> ModeOf(r.value) == mode
    ensures r.Some? && mode == InterpretMode ==> r.value.root == root
    ensures r.Some? && mode == CompileMode ==>
      r.value.vm.stack == [] && r.value.vm.ip == 0 && Compile(root) == Some(r.value.vm.program)
  {
    if mode == InterpretMode then Some(BindConstants(InterpretEnv(root, ZeroTable)))
    else
      match Compile(root)
      case None => None
      case Some(code) => Some(BindConstants(CompileEnv(Vm(code, [], ZeroTable, 0))))
  }

  /** The two `mp_variable` calls at the end of `mp_init_mode`. */
  function BindConstants(env: Env): (r: Env)
    ensures ModeOf(r) == ModeOf(env)
    ensures Variables(r)[Slot('p')] == Pi && Variables(r)[Slot('e')] == EulerE
    ensures forall c: Letter :: c != 'p' && c != 'e' ==> Variables(r)[Slot(c)] == Variables(env)[Slot(c)]
    ensures r.InterpretEnv? ==> r.root == env.root
    ensures r.CompileEnv? ==> r.vm == env.vm.(vars := Variables(r))
  {
    SetVariable(SetVariable(env, 'p', Pi), 'e', EulerE)
  }

  /** `mp_init`: interpret mode.  It builds an environment exactly when the
      text tokenizes and parses; the environment holds the parsed tree and
      the table with only `p` and `e` bound. */
  function InitDefault(prims: Primitives, src: string): (r: Option<Env>)
    ensures r.Some? <==> ParsedTree(prims, src).Some?
    ensures r.Some? ==> r.value.InterpretEnv? && r.value.root == ParsedTree(prims, src).value
    ensures r.Some? ==> r.value.vars[Slot('p')] == Pi && r.value.vars[Slot('e')] == EulerE
    ensures r.Some? ==> forall c: Letter :: c != 'p' && c != 'e' ==> r.value.vars[Slot(c)] == Zero
  {
    Init(prims, src, InterpretMode)
  }

  /** The fields of `MP_Result` that evaluation sets: the error flag, the
      error kind and the value. */
  datatype Answer = Answer(error: bool, kind: ErrorKind, value: F64)

  /** What `mp_evaluate` returns and the environment it leaves behind. */
  datatype Evaluation = Evaluation(answer: Answer, env: Env)

  /** `mp_evaluate`.  Interpret mode walks the tree and hands back the
      interpreter's record; it changes nothing.  Compile mode runs the
      machine, which keeps its stack between runs; a failed run answers an
      error with no kind and a zero value. */
  function Evaluate(prims: Primitives, env: Env): (e: Evaluation)
    ensures ModeOf(e.env) == ModeOf(env) && Variables(e.env) == Variables(env)
    ensures env.InterpretEnv? ==> e.env == env
    ensures env.CompileEnv? ==> e.env.vm.program == env.vm.program && e.answer.kind == NoError
    ensures e.answer.error ==> e.answer.value == Zero
    ensures !e.answer.error ==> e.answer.kind == NoError
    ensures e.answer.error <==>
      if env.InterpretEnv? then Interpret(prims, env.vars, env.root).Err? else !Run(prims, env.vm).ok
  {
    match env
    case InterpretEnv(root, vars) =>
      var o := Interpret(prims, vars, root);
      Evaluation(Answer(o.Err?, if o.Err? then o.kind else NoError, ValueField(o)), env)
    case CompileEnv(vm) =>
      var run := Run(prims, vm);
      if !run.ok then Evaluation(Answer(true, NoError, Zero), CompileEnv(run.vm))
      else Evaluation(Answer(false, NoError, Result(run.vm)), CompileEnv(run.vm))
  }

  // ---------------------------------------------------------------------------
  // Construction
  // ---------------------------------------------------------------------------

  /** Construction fails exactly when the text does not tokenize, when its
      tokens do not parse, or, in compile mode, when the tree holds a
      function call. */
  lemma InitFailsExactly(prims: Primitives, src: string, mode: Mode)
    ensures var tz := Tokenize(prims, src);
      Init(prims, src, mode).None? <==>
        || tz.error.Some?
        || Parse(tz.tokens).ParseFailure?
        || (mode == CompileMode && !CompileFree(Parse(tz.tokens).root))
  {
  }

  /** Construction from a text that parses to `n`: interpret mode always
      succeeds and answers what the interpreter makes of `n` under the
      initial table; compile mode succeeds exactly when `n` has no call. */
  lemma InitFromTree(prims: Primitives, src: string, n: Node)
    requires ParsedTree(prims, src) == Some(n)
    ensures Init(prims, src, InterpretMode).Some?
    ensures var env := Init(prims, src, InterpretMode).value;
      var o := Interpret(prims, Variables(env), n);
      Evaluate(prims, env).answer == Answer(o.Err?, if o.Err? then o.kind else NoError, ValueField(o))
    ensures Init(prims, src, CompileMode).Some? <==> CompileFree(n)
  {
  }

  /** The two modes accept the same texts, except that compile mode also
      rejects every function call; both start from the same table. */
  lemma InitModesCorrespond(prims: Primitives, src: string)
    ensures var i, c := Init(prims, src, InterpretMode), Init(prims, src, CompileMode);
      && (c.Some? <==> i.Some? && CompileFree(i.value.root))
      && (c.Some? ==> Variables(c.value) == Variables(i.value))
  {
    var i, c := Init(prims, src, InterpretMode), Init(prims, src, CompileMode);
    if c.Some? {
      assert Variables(c.value) == Variables(i.value);
    }
  }

  /** Binding a variable twice keeps only the second value, and binding two
      different letters can be done in either order. */
  lemma SetVariableOverwrites(env: Env, c: Letter, d: Letter, v: F64, w: F64)
    ensures SetVariable(SetVariable(env, c, v), c, w) == SetVariable(env, c, w)
    ensures c != d ==> SetVariable(SetVariable(env, c, v), d, w) == SetVariable(SetVariable(env, d, w), c, v)
  {
    var t := Variables(env);
    assert Store(Store(t, c, v), c, w) == Store(t, c, w);
    if c != d {
      SlotInjective(c, d);
      assert Store(Store(t, c, v), d, w) == Store(Store(t, d, w), c, v);
    }
  }

  // ---------------------------------------------------------------------------
  // Evaluation
  // ---------------------------------------------------------------------------

  /** A machine holding the compiled form of `n`: each evaluation succeeds,
      answers the tree's post-order value and pushes that value on top of
      the stack left by earlier evaluations. */
  lemma CompiledEvaluation(prims: Primitives, vm: Vm, n: Node)
    requires CompileFree(n) && vm.program == Compile(n).value
    ensures var v := StackValue(prims, vm.vars, n);
      Evaluate(prims, CompileEnv(vm))
        == Evaluation(Answer(false, NoError, v), CompileEnv(vm.(stack := Push(vm.stack, v), ip := |vm.program|)))
  {
    RunMachine(prims, vm, n);
  }

  /** `k` evaluations in a row, each on the environment the previous one
      left behind. */
  function EvaluateTimes(prims: Primitives, env: Env, k: nat): (r: Env)
    ensures ModeOf(r) == ModeOf(env) && Variables(r) == Variables(env)
    decreases k
  {
    if k == 0 then env else EvaluateTimes(prims, Evaluate(prims, env).env, k - 1)
  }

  /** The compile-mode stack is never cleared: after `k` evaluations it
      holds the stack it started with and `k` copies of the value on top. */
  lemma {:induction false} StackGrowsByOne(prims: Primitives, vm: Vm, n: Node, k: nat)
    requires CompileFree(n) && vm.program == Compile(n).value
    ensures var v := StackValue(prims, vm.vars, n);
      var r := EvaluateTimes(prims, CompileEnv(vm), k);
      && r.CompileEnv?
      && r.vm.stack == vm.stack + seq(k, _ => v)
      && r.vm.program == vm.program
    decreases k
  {
    var v := StackValue(prims, vm.vars, n);
    if k > 0 {
      CompiledEvaluation(prims, vm, n);
      var vm' := vm.(stack := Push(vm.stack, v), ip := |vm.program|);
      StackGrowsByOne(prims, vm', n, k - 1);
      assert Push(vm.stack, v) + seq(k - 1, _ => v) == vm.stack + seq(k, _ => v);
    }
  }

  /** An environment built in compile mode never reports an error, and its
      answer is the value of the parsed tree. */
  lemma CompiledInitNeverFails(prims: Primitives, src: string)
    requires Init(prims, src, CompileMode).Some?
    ensures var env := Init(prims, src, CompileMode).value;
      var e := Evaluate(prims, env);
      && !e.answer.error
      && e.answer.value == StackValue(prims, Variables(env), ParsedTree(prims, src).value)
      && e.env.vm.stack == [e.answer.value]
  {
    var env := Init(prims, src, CompileMode).value;
    CompiledEvaluation(prims, env.vm, ParsedTree(prims, src).value);
  }

  /** After a successful construction the interpreter never reports
      INVALID_NODE: the parser leaves no hole in the tree. */
  lemma InterpretedInitErrors(prims: Primitives, src: string)
    requires Init(prims, src, InterpretMode).Some?
    ensures var e := Evaluate(prims, Init(prims, src, InterpretMode).value);
      e.answer.error ==> e.answer.kind == InvalidFunction || e.answer.kind == ZeroDivision
  {
    var env := Init(prims, src, InterpretMode).value;
    ErrorCauses(prims, env.vars, env.root);
  }

  /** Where both modes accept a text and no divisor in it is zero, they
      give the same first answer. */
  lemma ModesAgree(prims: Primitives, src: string)
    requires Init(prims, src, InterpretMode).Some? && Init(prims, src, CompileMode).Some?
    requires NoZeroDivisor(prims, Variables(Init(prims, src, InterpretMode).value), ParsedTree(prims, src).value)
    ensures Evaluate(prims, Init(prims, src, InterpretMode).value).answer
         == Evaluate(prims, Init(prims, src, CompileMode).value).answer
  {
    var i, c := Init(prims, src, InterpretMode).value, Init(prims, src, CompileMode).value;
    var n := ParsedTree(prims, src).value;
    InitModesCorrespond(prims, src);
    InterpreterAgrees(prims, i.vars, n);
    CompiledInitNeverFails(prims, src);
  }

  /** A failed machine run answers an error with no kind and a zero value,
      and keeps the stack as the failing instruction left it. */
  lemma FailedRunAnswer(prims: Primitives, vm: Vm)
    requires !Run(prims, vm).ok
    ensures Evaluate(prims, CompileEnv(vm)) == Evaluation(Answer(true, NoError, Zero), CompileEnv(Run(prims, vm).vm))
  {
  }

  /** The interpreter's answer depends only on the letters the tree uses:
      binding any other letter changes nothing. */
  lemma UnusedVariableIrrelevant(prims: Primitives, root: Node, vars: Table, c: Letter, v: F64)
    requires !Mentions(root, c)
    ensures Evaluate(prims, SetVariable(InterpretEnv(root, vars), c, v)).answer
         == Evaluate(prims, InterpretEnv(root, vars)).answer
  {
    var vars' := Store(vars, c, v);
    forall d: Letter | Mentions(root, d)
      ensures vars'[Slot(d)] == vars[Slot(d)]
    {
      SlotInjective(c, d);
    }
    OnlySymbolsRead(prims, vars', vars, root);
  }
}
