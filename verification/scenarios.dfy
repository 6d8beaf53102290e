/** Worked examples: whole expressions taken through the tokenizer, the
    parser and both back ends.  Number literals are read by the `strtod`
    primitive, so a value such as `prims.strtod("2")` stands for whatever the
    C library makes of the text "2". */
module Scenarios {
  import opened Float
  import opened Common
  import opened Tokenizer
  import opened Syntax
  import opened Parser
  import opened Interpreter
  import opened Bytecode
  import opened Machine
  import opened Compiled
  import opened Engine

  // ---------------------------------------------------------------------------
  // Single steps of the scan
  // ---------------------------------------------------------------------------

  /** A one-digit literal with nothing after it that could extend it. */
  lemma ScanDigit(prims: Primitives, src: string, i: nat, d: char)
    requires i < |src| && src[i] == d && IsDigit(d)
    requires i + 1 == |src| || (!IsDigit(src[i + 1]) && src[i + 1] != '.' && src[i + 1] != 'e' && src[i + 1] != 'E')
    ensures Scan(prims, src, i) == Emit(Token(Num(prims.strtod([d])), i), Scan(prims, src, i + 1))
  {
    assert LiteralLength(src, i) == 1;
    assert src[i..i + 1] == [d];
  }

  /** The scan at the end of the text. */
  lemma ScanEnd(prims: Primitives, src: string)
    ensures Scan(prims, src, |src|) == Tokenized([], None)
  {
  }

  /** An operator or a parenthesis. */
  lemma ScanPunctuation(prims: Primitives, src: string, i: nat)
    requires i < |src| && Punctuation(src[i]).Some?
    ensures Scan(prims, src, i) == Emit(Token(Punctuation(src[i]).value, i), Scan(prims, src, i + 1))
  {
  }

  /** A letter with no letter after it. */
  lemma ScanSymbol(prims: Primitives, src: string, i: nat)
    requires i < |src| && IsLower(src[i]) && !LowerAt(src, i + 1)
    ensures Scan(prims, src, i) == Emit(Token(Sym(src[i]), i), Scan(prims, src, i + 1))
  {
  }

  /** A name of two to four letters. */
  lemma ScanName(prims: Primitives, src: string, i: nat)
    requires i < |src| && IsLower(src[i]) && LowerAt(src, i + 1)
    requires LowerRun(src, i, NameCapacity + 1) <= NameCapacity
    ensures var n := LowerRun(src, i, NameCapacity + 1);
      Scan(prims, src, i) == Emit(Token(Ident(src[i..i + n]), i), Scan(prims, src, i + n))
  {
  }

  /** Tokens emitted one by one, from the last to the first. */
  lemma Nest4(a: Token, b: Token, c: Token, d: Token)
    ensures [a] + ([b] + ([c] + ([d] + []))) == [a, b, c, d]
  {
  }

  lemma Nest5(a: Token, b: Token, c: Token, d: Token, e: Token)
    ensures [a] + ([b] + ([c] + ([d] + ([e] + [])))) == [a, b, c, d, e]
  {
    Nest4(b, c, d, e);
  }

  // ---------------------------------------------------------------------------
  // `2^2^2`: a second `^` is rejected where it stands
  // ---------------------------------------------------------------------------

  lemma TokensOfPowerChain(prims: Primitives)
    ensures var two := prims.strtod("2");
      Tokenize(prims, "2^2^2")
        == Tokenized([Token(Num(two), 0), Token(Caret, 1), Token(Num(two), 2), Token(Caret, 3), Token(Num(two), 4)], None)
  {
    DigitCaretDigitCaretDigit(prims, "2^2^2");
  }

  /** The scan of any text of the shape `d^d^d` with single digits. */
  lemma DigitCaretDigitCaretDigit(prims: Primitives, src: string)
    requires |src| == 5 && IsDigit(src[0]) && IsDigit(src[2]) && IsDigit(src[4]) && src[1] == '^' && src[3] == '^'
    ensures Tokenize(prims, src)
         == Tokenized([Token(Num(prims.strtod([src[0]])), 0), Token(Caret, 1), Token(Num(prims.strtod([src[2]])), 2),
                       Token(Caret, 3), Token(Num(prims.strtod([src[4]])), 4)], None)
  {
    var a, b, c := prims.strtod([src[0]]), prims.strtod([src[2]]), prims.strtod([src[4]]);
    ScanEnd(prims, src);
    ScanDigit(prims, src, 4, src[4]);
    ScanPunctuation(prims, src, 3);
    ScanDigit(prims, src, 2, src[2]);
    ScanPunctuation(prims, src, 1);
    ScanDigit(prims, src, 0, src[0]);
    Nest5(Token(Num(a), 0), Token(Caret, 1), Token(Num(b), 2), Token(Caret, 3), Token(Num(c), 4));
  }

  lemma ParseOfPowerChain(a: F64, b: F64, c: F64)
    ensures Parse([Token(Num(a), 0), Token(Caret, 1), Token(Num(b), 2), Token(Caret, 3), Token(Num(c), 4)])
         == ParseFailure(InvalidExpression, 3)
  {
    var ts := [Token(Num(a), 0), Token(Caret, 1), Token(Num(b), 2), Token(Caret, 3), Token(Num(c), 4)];
    var p0 := Start(ts);
    assert p0 == Parser(ts[1..], ts[0], false, 0);
    var p1 := Advance(p0);
    assert ParsePrimary(p0) == Parsed(Number(a), p1);
    var p3 := Advance(Advance(p1));
    assert ParsePrimary(Advance(p1)) == Parsed(Number(b), p3);
    assert p3.cur == Token(Caret, 3);
    assert ParseFactor(p0) == Parsed(Binary(Power, Number(a), Number(b)), p3);
    assert ParseTerm(p0) == Parsed(Binary(Power, Number(a), Number(b)), p3);
    assert ParseExpr(p0) == Parsed(Binary(Power, Number(a), Number(b)), p3);
  }

  /** "2^2^2" builds no environment in either mode: the parser stops at the
      second `^`, offset 3. */
  lemma PowerChainRejected(prims: Primitives, mode: Mode)
    ensures Parse(Tokenize(prims, "2^2^2").tokens) == ParseFailure(InvalidExpression, 3)
    ensures Init(prims, "2^2^2", mode).None?
  {
    TokensOfPowerChain(prims);
    var two := prims.strtod("2");
    ParseOfPowerChain(two, two, two);
  }

  // ---------------------------------------------------------------------------
  // `-2^2`: the sign applies to the power
  // ---------------------------------------------------------------------------

  lemma TokensOfNegatedPower(prims: Primitives)
    ensures var two := prims.strtod("2");
      Tokenize(prims, "-2^2")
        == Tokenized([Token(Minus, 0), Token(Num(two), 1), Token(Caret, 2), Token(Num(two), 3)], None)
  {
    MinusDigitCaretDigit(prims, "-2^2");
  }

  /** The scan of any text of the shape `-d^d` with single digits. */
  lemma MinusDigitCaretDigit(prims: Primitives, src: string)
    requires |src| == 4 && src[0] == '-' && IsDigit(src[1]) && src[2] == '^' && IsDigit(src[3])
    ensures Tokenize(prims, src)
         == Tokenized([Token(Minus, 0), Token(Num(prims.strtod([src[1]])), 1), Token(Caret, 2),
                       Token(Num(prims.strtod([src[3]])), 3)], None)
  {
    var a, b := prims.strtod([src[1]]), prims.strtod([src[3]]);
    ScanEnd(prims, src);
    ScanDigit(prims, src, 3, src[3]);
    ScanPunctuation(prims, src, 2);
    ScanDigit(prims, src, 1, src[1]);
    ScanPunctuation(prims, src, 0);
    Nest4(Token(Minus, 0), Token(Num(a), 1), Token(Caret, 2), Token(Num(b), 3));
  }

  lemma ParseOfNegatedPower(a: F64, b: F64)
    ensures Parse([Token(Minus, 0), Token(Num(a), 1), Token(Caret, 2), Token(Num(b), 3)])
         == Tree(Unary(Negative, Binary(Power, Number(a), Number(b))))
  {
    var ts := [Token(Minus, 0), Token(Num(a), 1), Token(Caret, 2), Token(Num(b), 3)];
    var pow := Binary(Power, Number(a), Number(b));
    var p0 := Start(ts);
    assert p0 == Parser(ts[1..], ts[0], false, 0);
    var p1 := Advance(p0);
    var p2 := Advance(p1);
    assert ParsePrimary(p1) == Parsed(Number(a), p2);
    var p4 := Advance(Advance(p2));
    assert ParsePrimary(Advance(p2)) == Parsed(Number(b), p4);
    assert p4.cur.kind.Eof? && !p4.failed;
    assert ParseFactor(p1) == Parsed(pow, p4);
    assert ParsePrimary(p0) == Parsed(Unary(Negative, pow), p4);
    assert ParseFactor(p0) == Parsed(Unary(Negative, pow), p4);
    assert ParseTerm(p0) == Parsed(Unary(Negative, pow), p4);
    assert ParseExpr(p0) == Parsed(Unary(Negative, pow), p4);
  }

  lemma NegatedPowerTree(prims: Primitives)
    ensures var two := prims.strtod("2");
      ParsedTree(prims, "-2^2") == Some(Unary(Negative, Binary(Power, Number(two), Number(two))))
  {
    var two := prims.strtod("2");
    TokensOfNegatedPower(prims);
    ParseOfNegatedPower(two, two);
  }

  /** Both back ends give the negated power for `-(a^b)`, whatever the
      variables hold. */
  lemma NegatedPowerValue(prims: Primitives, vars: Table, a: F64, b: F64)
    ensures var n := Unary(Negative, Binary(Power, Number(a), Number(b)));
      && CompileFree(n)
      && Interpret(prims, vars, n) == Ok(Negate(prims.pow(a, b)))
      && StackValue(prims, vars, n) == Negate(prims.pow(a, b))
  {
    assert Interpret(prims, vars, Binary(Power, Number(a), Number(b))) == Ok(prims.pow(a, b));
    assert StackValue(prims, vars, Binary(Power, Number(a), Number(b))) == prims.pow(a, b);
  }

  /** Any text that parses to the negation of a power of two literals is
      answered without error in both modes. */
  lemma NegatedPowerAnswers(prims: Primitives, src: string, mode: Mode, a: F64, b: F64)
    requires ParsedTree(prims, src) == Some(Unary(Negative, Binary(Power, Number(a), Number(b))))
    ensures Init(prims, src, mode).Some?
    ensures Evaluate(prims, Init(prims, src, mode).value).answer == Answer(false, NoError, Negate(prims.pow(a, b)))
  {
    var n := Unary(Negative, Binary(Power, Number(a), Number(b)));
    InitFromTree(prims, src, n);
    NegatedPowerValue(prims, Variables(Init(prims, src, InterpretMode).value), a, b);
    if mode == CompileMode {
      CompiledInitNeverFails(prims, src);
      NegatedPowerValue(prims, Variables(Init(prims, src, CompileMode).value), a, b);
    }
  }

  /** "-2^2" is the negation of 2^2, and both modes answer it without error. */
  lemma NegatedPower(prims: Primitives, mode: Mode)
    ensures var two := prims.strtod("2");
      && ParsedTree(prims, "-2^2") == Some(Unary(Negative, Binary(Power, Number(two), Number(two))))
      && Init(prims, "-2^2", mode).Some?
      && Evaluate(prims, Init(prims, "-2^2", mode).value).answer
           == Answer(false, NoError, Negate(prims.pow(two, two)))
  {
    var two := prims.strtod("2");
    NegatedPowerTree(prims);
    NegatedPowerAnswers(prims, "-2^2", mode, two, two);
  }

  // ---------------------------------------------------------------------------
  // Tokenizer errors
  // ---------------------------------------------------------------------------

  /** A run of six letters: the name loop stops after copying a fifth, and
      the error is reported at the offset just past it. */
  lemma SixLetterName(prims: Primitives)
    ensures Tokenize(prims, "abcdef") == Tokenized([], Some(TokenError(5, Token(Bad, 0))))
  {
    assert LowerRun("abcdef", 0, NameCapacity + 1) == 5;
  }

  /** A character that starts no token stops the scan where it stands; the
      tokens before it are kept. */
  lemma StrayCharacter(prims: Primitives)
    ensures Tokenize(prims, "x+$") == Tokenized([Token(Sym('x'), 0), Token(Plus, 1)], Some(TokenError(2, Token(Bad, 2))))
  {
    assert Scan(prims, "x+$", 2) == Tokenized([], Some(TokenError(2, Token(Bad, 2))));
  }

  // ---------------------------------------------------------------------------
  // Names and calls
  // ---------------------------------------------------------------------------

  /** "xy" is one NAME token, not two symbols; a name with no `(` after it
      is INVALID_EXPRESSION at the offset where the list ran out. */
  lemma NameWithoutCall(prims: Primitives)
    ensures Tokenize(prims, "xy") == Tokenized([Token(Ident("xy"), 0)], None)
    ensures Parse([Token(Ident("xy"), 0)]) == ParseFailure(InvalidExpression, 0)
  {
    assert LowerRun("xy", 0, NameCapacity + 1) == 2;
    assert "xy"[0..2] == "xy";
    var p0 := Start([Token(Ident("xy"), 0)]);
    assert ParseFactor(p0).st.failed;
  }

  lemma TokensOfCall(prims: Primitives)
    ensures Tokenize(prims, "ln(x)").tokens == [Token(Ident("ln"), 0), Token(LParen, 2), Token(Sym('x'), 3), Token(RParen, 4)]
    ensures Tokenize(prims, "ln(x)").error.None?
  {
    var src := "ln(x)";
    ScanPunctuation(prims, src, 4);
    ScanSymbol(prims, src, 3);
    ScanPunctuation(prims, src, 2);
    assert LowerRun(src, 0, NameCapacity + 1) == 2 && src[0..2] == "ln";
    ScanName(prims, src, 0);
  }

  lemma CallTree(prims: Primitives)
    ensures ParsedTree(prims, "ln(x)") == Some(Function(Ln, Symbol('x')))
  {
    TokensOfCall(prims);
    ParseOfCall();
  }

  /** Any text that parses to the logarithm of a letter: the interpreter
      calls the logarithm on the letter's slot; the compiler has no
      instruction for calls, so compile mode builds no environment. */
  lemma CallAnswers(prims: Primitives, src: string, c: Letter)
    requires ParsedTree(prims, src) == Some(Function(Ln, Symbol(c)))
    ensures Init(prims, src, CompileMode).None?
    ensures Init(prims, src, InterpretMode).Some?
    ensures var env := Init(prims, src, InterpretMode).value;
      Evaluate(prims, env).answer == Answer(false, NoError, prims.ln(Variables(env)[Slot(c)]))
  {
    InitFromTree(prims, src, Function(Ln, Symbol(c)));
  }

  /** "ln(x)", with `x` still at its initial zero. */
  lemma CallInterpretedNotCompiled(prims: Primitives)
    ensures ParsedTree(prims, "ln(x)") == Some(Function(Ln, Symbol('x')))
    ensures Init(prims, "ln(x)", CompileMode).None?
    ensures Init(prims, "ln(x)", InterpretMode).Some?
    ensures Evaluate(prims, Init(prims, "ln(x)", InterpretMode).value).answer == Answer(false, NoError, prims.ln(Zero))
  {
    CallTree(prims);
    CallAnswers(prims, "ln(x)", 'x');
  }

  lemma ParseOfCall()
    ensures Parse([Token(Ident("ln"), 0), Token(LParen, 2), Token(Sym('x'), 3), Token(RParen, 4)])
         == Tree(Function(Ln, Symbol('x')))
  {
    var ts := [Token(Ident("ln"), 0), Token(LParen, 2), Token(Sym('x'), 3), Token(RParen, 4)];
    var p0 := Start(ts);
    assert p0 == Parser(ts[1..], ts[0], false, 0);
    var p2 := Advance(Advance(p0));
    var p3 := Advance(p2);
    assert ParsePrimary(p2) == Parsed(Symbol('x'), p3);
    assert ParseExpr(p2) == Parsed(Symbol('x'), p3);
    assert Lookup("ln") == Ln;
    var p4 := Advance(p3);
    assert ParseFactor(p0) == Parsed(Function(Ln, Symbol('x')), p4);
    assert ParseExpr(p0) == Parsed(Function(Ln, Symbol('x')), p4);
  }

  // ---------------------------------------------------------------------------
  // Division by zero: where the back ends part
  // ---------------------------------------------------------------------------

  lemma TokensOfQuotient(prims: Primitives)
    ensures Tokenize(prims, "1/0")
         == Tokenized([Token(Num(prims.strtod("1")), 0), Token(Over, 1), Token(Num(prims.strtod("0")), 2)], None)
  {
    var src := "1/0";
    ScanEnd(prims, src);
    ScanDigit(prims, src, 2, '0');
    ScanPunctuation(prims, src, 1);
    ScanDigit(prims, src, 0, '1');
  }

  lemma ParseOfQuotient(a: F64, b: F64)
    ensures Parse([Token(Num(a), 0), Token(Over, 1), Token(Num(b), 2)]) == Tree(Binary(Divide, Number(a), Number(b)))
  {
    var ts := [Token(Num(a), 0), Token(Over, 1), Token(Num(b), 2)];
    var p0 := Start(ts);
    assert p0 == Parser(ts[1..], ts[0], false, 0);
    var p1 := Advance(p0);
    assert ParseFactor(p0) == Parsed(Number(a), p1);
    var p3 := Advance(Advance(p1));
    assert ParseFactor(Advance(p1)) == Parsed(Number(b), p3);
    assert TermTail(Number(a), p1) == TermTail(Binary(Divide, Number(a), Number(b)), p3);
    assert TermTail(Binary(Divide, Number(a), Number(b)), p3) == Parsed(Binary(Divide, Number(a), Number(b)), p3);
    assert ParseTerm(p0) == Parsed(Binary(Divide, Number(a), Number(b)), p3);
    assert ParseExpr(p0) == Parsed(Binary(Divide, Number(a), Number(b)), p3);
  }

  lemma QuotientTree(prims: Primitives)
    ensures ParsedTree(prims, "1/0") == Some(Binary(Divide, Number(prims.strtod("1")), Number(prims.strtod("0"))))
  {
    TokensOfQuotient(prims);
    ParseOfQuotient(prims.strtod("1"), prims.strtod("0"));
  }

  /** Any text that parses to a quotient of two literals whose divisor is a
      zero: the interpreter reports ZERO_DIVISION, the compiled program just
      divides. */
  lemma ZeroQuotientAnswers(prims: Primitives, src: string, a: F64, d: F64)
    requires ParsedTree(prims, src) == Some(Binary(Divide, Number(a), Number(d))) && IsZero(d)
    ensures Init(prims, src, InterpretMode).Some? && Init(prims, src, CompileMode).Some?
    ensures Evaluate(prims, Init(prims, src, InterpretMode).value).answer == Answer(true, ZeroDivision, Zero)
    ensures Evaluate(prims, Init(prims, src, CompileMode).value).answer == Answer(false, NoError, prims.div(a, d))
  {
    InterpretedZeroQuotient(prims, src, a, d);
    CompiledZeroQuotient(prims, src, a, d);
  }

  /** The interpreter's half of `ZeroQuotientAnswers`. */
  lemma InterpretedZeroQuotient(prims: Primitives, src: string, a: F64, d: F64)
    requires ParsedTree(prims, src) == Some(Binary(Divide, Number(a), Number(d))) && IsZero(d)
    ensures Init(prims, src, InterpretMode).Some?
    ensures Evaluate(prims, Init(prims, src, InterpretMode).value).answer == Answer(true, ZeroDivision, Zero)
  {
    InitFromTree(prims, src, Binary(Divide, Number(a), Number(d)));
  }

  /** The compiled half of `ZeroQuotientAnswers`. */
  lemma CompiledZeroQuotient(prims: Primitives, src: string, a: F64, d: F64)
    requires ParsedTree(prims, src) == Some(Binary(Divide, Number(a), Number(d)))
    ensures Init(prims, src, CompileMode).Some?
    ensures Evaluate(prims, Init(prims, src, CompileMode).value).answer == Answer(false, NoError, prims.div(a, d))
  {
    var n := Binary(Divide, Number(a), Number(d));
    assert CompileFree(Number(a)) && CompileFree(Number(d));
    assert CompileFree(n);
    InitFromTree(prims, src, n);
    CompiledInitNeverFails(prims, src);
    var env := Init(prims, src, CompileMode).value;
    assert StackValue(prims, Variables(env), n) == prims.div(a, d);
  }

  /** "1/0", where the literal "0" reads as a zero. */
  lemma QuotientByZero(prims: Primitives)
    requires IsZero(prims.strtod("0"))
    ensures Init(prims, "1/0", InterpretMode).Some? && Init(prims, "1/0", CompileMode).Some?
    ensures Evaluate(prims, Init(prims, "1/0", InterpretMode).value).answer == Answer(true, ZeroDivision, Zero)
    ensures Evaluate(prims, Init(prims, "1/0", CompileMode).value).answer
         == Answer(false, NoError, prims.div(prims.strtod("1"), prims.strtod("0")))
  {
    QuotientTree(prims);
    ZeroQuotientAnswers(prims, "1/0", prims.strtod("1"), prims.strtod("0"));
  }

  // ---------------------------------------------------------------------------
  // The constants and the variables
  // ---------------------------------------------------------------------------

  lemma SymbolTree(prims: Primitives)
    ensures ParsedTree(prims, "p") == Some(Symbol('p'))
  {
    assert Tokenize(prims, "p").tokens == [Token(Sym('p'), 0)];
    var p0 := Start([Token(Sym('p'), 0)]);
    assert ParseExpr(p0) == Parsed(Symbol('p'), Advance(p0));
  }

  /** Any text that parses to a lone letter reads that letter's slot in both
      modes, and reads the new value once the letter is rebound. */
  lemma SymbolAnswers(prims: Primitives, src: string, mode: Mode, c: Letter, v: F64)
    requires ParsedTree(prims, src) == Some(Symbol(c))
    ensures Init(prims, src, mode).Some?
    ensures var env := Init(prims, src, mode).value;
      && Evaluate(prims, env).answer == Answer(false, NoError, Variables(env)[Slot(c)])
      && Evaluate(prims, SetVariable(env, c, v)).answer == Answer(false, NoError, v)
  {
    InitFromTree(prims, src, Symbol(c));
    if mode == CompileMode {
      var env := Init(prims, src, mode).value;
      CompiledInitNeverFails(prims, src);
      CompiledEvaluation(prims, SetVariable(env, c, v).vm, Symbol(c));
    }
  }

  /** "p" reads π in both modes; rebinding `p` afterwards changes the answer. */
  lemma PiIsBound(prims: Primitives, mode: Mode, v: F64)
    ensures Init(prims, "p", mode).Some?
    ensures var env := Init(prims, "p", mode).value;
      && Evaluate(prims, env).answer == Answer(false, NoError, Pi)
      && Evaluate(prims, SetVariable(env, 'p', v)).answer == Answer(false, NoError, v)
  {
    SymbolTree(prims);
    SymbolAnswers(prims, "p", mode, 'p', v);
  }

  // ---------------------------------------------------------------------------
  // The machine on a program the compiler never emits
  // ---------------------------------------------------------------------------

  /** An ADD with a single value on the stack pops that value, then fails:
      the run reports failure with an empty stack, the instruction pointer left at the
      instruction, and evaluation answers an error with no kind. */
  lemma AddOnShortStack(prims: Primitives, x: F64)
    ensures var vm := Vm([Code(AddOp)], [x], ZeroTable, 0);
      && Run(prims, vm) == RunResult(false, vm.(stack := [], ip := 0))
      && Evaluate(prims, CompileEnv(vm)).answer == Answer(true, NoError, Zero)
  {
    var code := [Code(AddOp)];
    BinaryEffect(prims, code, ZeroTable, [x], Add);
    assert Step(prims, code, ZeroTable, [x]) == Fail(0, []);
    ExecuteFail(prims, code, ZeroTable, [x]);
  }
}
