# mp — a verified model of a small expression engine

`mp.h` is a single-header C library that turns a formula such as
`x^2 + 3*sin(p)` into a value. The formula is written over the 26 one-letter
variables `a` to `z` and may call six functions. The text goes through a pipeline:

1. The **tokenizer** (`mp_tokenize`) scans the ASCII text into tokens: the
   seven operator and parenthesis characters, NUMBER literals read by `strtod`,
   one-letter SYMBOLs and NAMEs of two to four letters. The first character it
   cannot classify stops the scan with INVALID_TOKEN.
2. The **parser** (`mp_parse` and the four `mp_parse_*` tiers) is a
   recursive descent with one token of lookahead. `* /` bind tighter than `+ -`,
   and both levels fold to the left. A factor takes at most one `^`, and a function
   call is a whole factor that takes none, so `sin(x)^2` is rejected at the
   `^`. A unary sign applies to a whole factor.
3. Evaluation runs on one of two back ends, chosen once:
   - the **tree interpreter** (`mp_interpret_node`) walks the tree against a
     variable table, in a fixed order, and stops at the first error, except that unary
     minus discards its operand's error and answers the negated value field,
     negative zero;
   - the **bytecode compiler** (`mp_program_compile_node`) lowers the tree to
     a post-order byte program. The **stack machine** (`mp_vm_run`,
     `mp_vm_result`) then runs that program over an operand stack.
4. The **façade** (`mp_init_mode`, `mp_variable`, `mp_evaluate`) builds an
   environment in either mode and binds `p` to π and `e` to e. The variables
   can then be set and the expression evaluated any number of times.

The Dafny modules follow that structure:

| module | file | models |
|---|---|---|
| `Float` | float.dfy | binary64 values as `bv64` bit patterns; the floating-point primitives |
| `Common` | common.dfy | letters, the 26-slot variable table, error kinds, `Option` |
| `Tokenizer` | tokenizer.dfy | `mp_tokenize` |
| `Syntax` | syntax.dfy | the tree nodes and the function-name lookup of `mp_make_node_function` |
| `Parser` | parser.dfy | `mp_parse`, `mp_parser_advance`, `mp_parse_expr/term/factor/primary` |
| `ParserRoundTrip` | parser_roundtrip.dfy | a printer for trees and the proof that the parser reads its output back |
| `ParserPositions` | parser_positions.dfy | the proof that token positions never decide what the parser does |
| `ParserLaws` | parser_laws.dfy | precedence, left folding, the single `^` and the rejected shapes |
| `Interpreter` | interpreter.dfy | `mp_interpret_node` |
| `Bytecode` | bytecode.dfy | `mp_program_compile_node` and the `mp_program_push_*` helpers |
| `Machine` | vm.dfy | `mp_stack_*`, `mp_vm_run`, `mp_vm_result` |
| `Compiled` | compiled.dfy | what compiled code does on the machine, and how it relates to the interpreter |
| `Engine` | engine.dfy | `mp_init`, `mp_init_mode`, `mp_variable`, `mp_evaluate` |
| `Scenarios` | scenarios.dfy | whole expressions taken through every stage |

Modelling choices:

- **Values.** A `double` is its 64-bit pattern (`F64 = bv64`). The pipeline
  only computes two things about values itself: unary minus, which flips the
  sign bit, and the test `== 0.0`, which holds when every bit but the sign is
  clear. Both are written out exactly.
- **Primitives.** `+ - * /`, `pow`, `log`, `log10`, `sin`, `cos`, `tan`,
  `sqrt` and `strtod` are uninterpreted function fields of a `Primitives`
  record that every operation takes as a parameter. Every theorem therefore
  holds for any implementation of IEEE-754 arithmetic and of the C library.
  `Pi` and `EulerE` are the binary64 patterns nearest to the source's decimal
  `MP_PI` and `MP_E`.
- **Operand bytes.** A number operand is stored in the program as eight bytes,
  least significant first, as a little-endian machine stores a `double`.
  Storing and loading are proved to be inverses.
- **The machine's loop.** The loop of `mp_vm_run` only moves its instruction
  pointer forward. `Machine.Execute` therefore describes a run by the program
  bytes not yet read. `Machine.RunLoop` is the index-driven loop, over an instruction
  pointer, and is proved to agree with `Machine.Run`.
- **Positions.** The parser's branches look only at token kinds, and this
  is proved: two token lists with the same kinds parse alike. The parser
  laws therefore hold for token lists at any positions, and the errors they
  state are reported at the position of the list's own token.
- **NULL subtrees.** A tier of the parser that fails returns NULL. The
  interpreter treats NULL exactly as it treats an INVALID node, so both are
  `Syntax.Invalid`. A successful parse is proved to contain neither.

## Model

| member | source | states |
|---|---|---|
| Float.EncodeBytes | mp.h:1173-1183 | a double is stored as eight bytes, the first of them its least significant byte |
| Float.DecodeBytes | mp.h:1303-1307 | eight bytes are loaded as a double whose least significant byte is the first of them |
| Float.DecodeEncode | mp.h:1173-1183 | a constant stored into eight program bytes by the compiler is read back by the machine as the same double |
| Float.EncodeDecode | mp.h:1303-1307 | eight operand bytes loaded as a double and stored again are the same bytes, so decoding loses nothing |
| Float.NegateFlipsSign | mp.h:1352-1356 | the machine's negation keeps every magnitude bit and flips the sign bit |
| Float.NegateInvolution | mp.h:1048-1051 | negating twice gives the value back, and negation does not change whether a value compares equal to 0.0 |
| Tokenizer.Punctuation | mp.h:426-466 | each of `+ - * / ^ ( )` has its own token kind; none of them is white space, a digit or a letter |
| Tokenizer.LiteralLength | mp.h:470-476 | the literal `strtod` reads from a digit is non-empty and lies inside the text, so the cursor always advances |
| Tokenizer.LowerRun | mp.h:492-497 | the name loop copies at most its limit of letters, all lower case, and stops short of the limit only at a non-letter or at the end |
| Tokenizer.Scan | mp.h:414-514 | every token the scan from an offset emits lies between that offset and the end of the text, and so does the error position |
| Tokenizer.Tokenize | mp.h:408-517 | every token lies inside the text, and an error position is at most the text's length |
| Tokenizer.NumberStep | mp.h:470-476 | at a digit the scan emits the literal's NUMBER at the digit's offset and carries on after the literal |
| Tokenizer.CoversInOrder | mp.h:414-516 | lexemes laid out with only white space between them stand in strictly increasing positions, none before the offset they start from |
| Tokenizer.TokensInOrder | mp.h:408-517 | the tokens come in the order of the text: positions strictly increase along the list |
| Tokenizer.TokenizeSound | mp.h:408-517 | the tokens are exactly the lexemes of the text, in order, up to where the scan stopped, with only white space around them; an error is reported only at an unexpected character or after the fifth letter of a run |
| Tokenizer.ScanSound | mp.h:414-514 | the same for the scan from any offset, by induction on the text left |
| Tokenizer.SpaceSound | mp.h:420-424 | space, tab and newline are skipped and emit no token |
| Tokenizer.PunctuationSound | mp.h:426-466 | an operator or parenthesis emits one token at its own offset |
| Tokenizer.NumberSound | mp.h:470-476 | a digit starts a NUMBER whose value is `strtod` of the whole literal and whose position is the literal's first character |
| Tokenizer.SymbolSound | mp.h:480-488 | a letter with no letter after it is a SYMBOL holding that letter |
| Tokenizer.NameSound | mp.h:490-502 | a maximal run of two to four letters is one NAME holding the run |
| Tokenizer.StopSound | mp.h:505-511 | an unexpected character stops the scan at its offset; a run of five or more letters stops it just past the fifth letter; either way no token is emitted from there on and the INVALID token sits at the lexeme's start |
| Tokenizer.BlankTextHasNoTokens | mp.h:414-424 | a text of white space only yields no tokens and no error |
| Tokenizer.CleanTextScansToTheEnd | mp.h:414-516 | a text with no unexpected character and no run of five letters scans to the end without error, the converse of the error clause of TokenizeSound |
| Syntax.Lookup | mp.h:584-605 | a name that resolves to one of the six functions is that function's spelling; every other name resolves to the unknown function instead of being rejected |
| Syntax.LookupSpelling | mp.h:585-602 | each of `ln log sin cos tan sqrt` resolves to its own function |
| Parser.Advance | mp.h:663-671 | reading a token never touches the error record; past the end the current token turns into EOF and keeps its position |
| Parser.Flag | mp.h:801-805 | recording INVALID_EXPRESSION sets the error at the current token's position and consumes nothing |
| Parser.AdvanceReading | mp.h:663-671 | reading a token keeps the parser on the list: it moves to the next token, or stays at the end with the last token's position |
| Parser.Start | mp.h:637-642 | the parse starts on the first token of the list with no error recorded, and it starts on EOF exactly when the list is empty or begins with EOF |
| Parser.ParseExpr | mp.h:673-693 | the `+ -` tier only consumes tokens, never clears the error flag, and returns a tree without NULL children unless an error was recorded |
| Parser.ExprTail | mp.h:678-690 | the `+ -` loop only consumes tokens, keeps a set error flag, and turns a left operand without NULL children into a tree without NULL children unless an error was recorded |
| Parser.ParseTerm | mp.h:695-715 | the same for the `* /` tier |
| Parser.TermTail | mp.h:700-712 | the same for the `* /` loop, which folds its factors onto the left operand |
| Parser.ParseFactor | mp.h:717-757 | the same for calls and the single `^` |
| Parser.ParsePrimary | mp.h:759-809 | the same for parentheses, literals, symbols and signs |
| Parser.Parse | mp.h:635-661 | EMPTY_EXPRESSION at position 0 exactly when the list is empty or starts with EOF; every other failure is INVALID_EXPRESSION; a tree returned without error has no NULL child |
| Parser.TrailingTokenRejected | mp.h:653-658 | a token left over after the expression fails the parse at that token's own position |
| ParserPositions.AdvanceAlike | mp.h:663-671 | reading one token from two states that see the same kinds ahead leaves them seeing the same kinds ahead |
| ParserPositions.ExprAlike | mp.h:673-693 | the `+ -` tier run on two states that see the same kinds builds the same tree and ends in such states again |
| ParserPositions.ExprTailAlike | mp.h:678-690 | the same for the `+ -` loop from a given left operand |
| ParserPositions.TermAlike | mp.h:695-715 | the same for the `* /` tier |
| ParserPositions.TermTailAlike | mp.h:700-712 | the same for the `* /` loop from a given left operand |
| ParserPositions.FactorAlike | mp.h:717-757 | the same for the factor tier |
| ParserPositions.CallAlike | mp.h:722-731 | the same for the call branch of the factor tier, including a NAME with no `(` after it |
| ParserPositions.ArgumentAlike | mp.h:732-745 | the same for the call branch once `(` follows the name, whether or not the `)` comes |
| ParserPositions.PowerAlike | mp.h:748-756 | the same for a primary with its optional `^` |
| ParserPositions.PrimaryAlike | mp.h:759-809 | the same for the primary tier |
| ParserPositions.GroupAlike | mp.h:763-776 | the same for a parenthesised expression, closed or not |
| ParserPositions.SignAlike | mp.h:790-800 | the same for a sign and the factor after it |
| ParserPositions.StartAlike | mp.h:637-642 | two lists with the same kinds start in states that see the same kinds ahead |
| ParserPositions.ParseRelocated | mp.h:635-661 | two token lists with the same kinds in the same order both parse, to the same tree, or both fail with the same error kind |
| ParserRoundTrip.ParsePrint | mp.h:673-809 | any token list with the kinds of the fully parenthesised print of a tree without NULL children parses back to that tree, whatever its positions |
| ParserRoundTrip.ParseImage | mp.h:635-809 | the trees a successful parse can return are exactly the trees without NULL children |
| ParserRoundTrip.ExprRoundTrip | mp.h:673-693 | the `+ -` tier reads a printed tree and stops in front of whatever follows, when that is not an operator |
| ParserRoundTrip.TermRoundTrip | mp.h:695-715 | the same for the `* /` tier |
| ParserRoundTrip.FactorRoundTrip | mp.h:717-757 | the same for the factor tier |
| ParserRoundTrip.PrimaryRoundTrip | mp.h:759-800 | the same for the primary tier |
| ParserRoundTrip.GroupRoundTrip | mp.h:763-776 | a parenthesised tree is read back as that tree |
| ParserRoundTrip.CallRoundTrip | mp.h:722-745 | `name ( arg )` is read back as the call of that function on that argument |
| ParserRoundTrip.BinaryRoundTrip | mp.h:673-757 | `l op r` inside parentheses is read back as the binary node, whatever the operator |
| ParserRoundTrip.SumRoundTrip | mp.h:678-690 | `l + r` and `l - r` are read back as one sum or difference |
| ParserRoundTrip.ProductRoundTrip | mp.h:700-712 | `l * r` and `l / r` are read back as one product or quotient |
| ParserRoundTrip.PowerRoundTrip | mp.h:750-754 | `l ^ r` is read back as one power |
| ParserRoundTrip.UnaryRoundTrip | mp.h:790-800 | a sign in front of a tree is read back as the unary node |
| ParserLaws.SumsFoldLeft | mp.h:678-690 | `l o1 m o2 r` with `o1, o2` among `+ -` is `(l o1 m) o2 r` |
| ParserLaws.ProductsFoldLeft | mp.h:700-712 | `l o1 m o2 r` with `o1, o2` among `* /` is `(l o1 m) o2 r` |
| ParserLaws.ProductInsideSum | mp.h:673-715 | `l + m * r` is `l + (m * r)`, for either sum and either product operator |
| ParserLaws.ProductBeforeSum | mp.h:673-715 | `l * m + r` is `(l * m) + r`, for either product and either sum operator |
| ParserLaws.MinusAppliesToPower | mp.h:796-800 | `- l ^ r` is the negation of the power, not the power of the negation |
| ParserLaws.PowerChainStops | mp.h:750-754 | in `l ^ m ^ r` the descent reads `l ^ m` and stops in front of the second `^` |
| ParserLaws.ParseOfDescent | mp.h:644-660 | on any list with the kinds of the descended one, a descent that consumes the whole list gives the tree, and one that stops at a token fails at that token's own position in the list |
| ParserLaws.ParsedSums | mp.h:635-693 | any list with the kinds of `l o1 m o2 r`, sum operators, parses to the left-folded tree |
| ParserLaws.ParsedProducts | mp.h:635-715 | any list with the kinds of `l o1 m o2 r`, product operators, parses to the left-folded tree |
| ParserLaws.ParsedMixed | mp.h:635-715 | lists mixing one sum and one product operator parse with the product bound tighter, in either order, at any positions |
| ParserLaws.ParsedPowerChain | mp.h:653-658 | any list with the kinds of `l ^ m ^ r` fails with INVALID_EXPRESSION at the position of its second `^` token |
| ParserLaws.ParsedMinusPower | mp.h:796-800 | any list with the kinds of `- l ^ r` parses to `minus(pow(l, r))` |
| ParserLaws.NameWithoutParenthesis | mp.h:722-731 | a list starting with a NAME not followed by `(` fails with INVALID_EXPRESSION at the token after the name, or at the name itself when it is alone |
| ParserLaws.GroupNotClosed | mp.h:763-771 | when the expression inside a leading `(` stops on a token that is neither `)` nor `^`, the parse fails at that token's position |
| ParserLaws.CallNotClosed | mp.h:732-742 | when the argument of a leading call stops on a token that is not `)`, the parse fails at that token's position |
| ParserLaws.UnclosedGroup | mp.h:763-771 | `( n` followed by a token that neither continues the expression nor is `)` fails at that token's position; with nothing after `n` it fails at the last token's position |
| ParserLaws.UnclosedCall | mp.h:732-742 | the same for the argument of a call `name ( n` |
| Interpreter.Apply | mp.h:964-993 | a function application fails exactly for the unknown function, and then with INVALID_FUNCTION |
| Interpreter.Interpret | mp.h:933-1061 | the interpreter reports no error kinds other than INVALID_NODE, INVALID_FUNCTION and ZERO_DIVISION |
| Interpreter.LeftErrorWins | mp.h:998-1020 | for `+ - *` a failing left operand's record is returned whatever the right operand would give |
| Interpreter.RightErrorWins | mp.h:1022-1042 | for `/` and `^` a failing right operand's record is returned whatever the left operand would give |
| Interpreter.ZeroDivisorMasksDividend | mp.h:1022-1029 | a divisor equal to 0.0 gives ZERO_DIVISION before the dividend is looked at |
| Interpreter.UnknownFunctionDeferred | mp.h:960-995 | an unknown function fails with INVALID_FUNCTION only when its argument succeeds; an argument error is returned instead |
| Interpreter.PlusIsTransparent | mp.h:1044-1047 | unary plus returns its operand's record unchanged, errors included |
| Interpreter.MinusDropsError | mp.h:1048-1051 | unary minus of a failing operand succeeds with negative zero: the error is dropped |
| Interpreter.OnlySymbolsRead | mp.h:954-958 | the table is read only at the tree's symbols: tables that agree there give the same record |
| Interpreter.ErrorCauses | mp.h:933-1061 | INVALID_NODE needs an INVALID node and INVALID_FUNCTION needs an unknown call in the tree |
| Bytecode.Code | mp.h:269-280 | an instruction is stored as its position in the opcode enumeration, 1 to 8 |
| Bytecode.OpcodeOf | mp.h:1302-1360 | a byte names an instruction exactly when it is 1 to 8; any other byte is the `default` case |
| Bytecode.OpcodeOfCode | mp.h:269-280 | decoding a stored instruction gives it back |
| Bytecode.CodeOfOpcode | mp.h:269-280 | a byte that decodes to an instruction is that instruction's stored byte |
| Bytecode.Compile | mp.h:1100-1163 | compilation succeeds exactly when the tree has no function call and no INVALID node |
| Bytecode.CompiledSize | mp.h:1107-1158 | a compiled tree takes nine bytes per number, two per symbol and one per operator or minus sign |
| Machine.Push | mp.h:1242-1248 | pushing puts the value on top and leaves the stack beneath it |
| Machine.Peek | mp.h:1260-1270 | peeking finds a value exactly when the stack is non-empty, and that value is the top |
| Machine.Pop | mp.h:1250-1258 | popping returns what peeking finds, removes it when present, and leaves an empty stack as it was |
| Machine.PopPush | mp.h:1242-1258 | popping undoes a push |
| Machine.BinaryStep | mp.h:1317-1350 | a binary instruction pops the right operand, then the left one; with no operand it fails with the stack unchanged, with one it fails after popping it |
| Machine.Effect | mp.h:1302-1357 | an instruction that carries on leaves strictly less of the program unread |
| Machine.Step | mp.h:1299-1361 | an instruction that carries on was a valid opcode and moved the instruction pointer forward |
| Machine.Fetch | mp.h:1299-1302 | a turn of the loop ends the run within the program, and succeeds only once the whole program is read |
| Machine.Perform | mp.h:1302-1361 | the same once the opcode is known to be an instruction |
| Machine.Execute | mp.h:1299-1364 | a run ends after reading no more than the program, and succeeds only at the program's end |
| Machine.Run | mp.h:1288-1367 | a run restarts the instruction pointer at 0, keeps the program and the variables, and succeeds only with the instruction pointer at the end |
| Machine.Result | mp.h:1369-1375 | the result is the top of the stack, or 0.0 for an empty stack |
| Machine.RunLoop | mp.h:1288-1367 | the index loop of `mp_vm_run` computes the same outcome, stack and instruction pointer as `Run` |
| Compiled.NumberRuns | mp.h:1303-1308 | a number's code pushes that number and hands over to the code after it |
| Compiled.SymbolRuns | mp.h:1310-1315 | a symbol's code pushes the variable's current value |
| Compiled.BinaryRuns | mp.h:1317-1350 | a binary instruction replaces the two top values `a, b` by `a op b`, `b` being the top |
| Compiled.NegRuns | mp.h:1352-1356 | a negation replaces the top value by its negation |
| Compiled.RunsCode | mp.h:1100-1163 | a compiled tree followed by any code runs through to that code with the stack `s` turned into `s + [v]`, `v` the tree's post-order value |
| Compiled.RunCompiled | mp.h:1288-1367 | a compiled program on any stack `s` succeeds and leaves `s + [v]` |
| Compiled.RunMachine | mp.h:1288-1375 | a machine loaded with a compiled tree succeeds, keeps its old stack beneath the new value, and its result is that value |
| Compiled.InterpreterAgrees | mp.h:1022-1034 | on a compilable tree with no zero divisor the interpreter succeeds with the value the compiled program pushes |
| Compiled.InterpreterErrorsOnlyOnZero | mp.h:1022-1029 | on a compilable tree the interpreter's only possible error is ZERO_DIVISION, and only when some divisor is zero |
| Compiled.MinusHidesZeroDivision | mp.h:1048-1051 | `-(l / 0)` succeeds with negative zero in the interpreter while the compiled program negates the primitive quotient |
| Engine.SetVariable | mp.h:1465-1483 | binding a letter changes that slot of the mode's table and nothing else: not the mode, the other 25 slots, the tree, the program or the stack |
| Engine.ParsedTree | mp.h:1411-1431 | the tree handed to a back end has no NULL child |
| Engine.Init | mp.h:1397-1463 | a built environment has the requested mode, `p` = π, `e` = e and every other letter 0.0; interpret mode holds the parsed tree; compile mode holds its compiled program with an empty stack and the instruction pointer at 0 |
| Engine.Build | mp.h:1433-1456 | interpret mode always builds and holds the tree; compile mode builds exactly when the tree has no call and no INVALID node, and then holds its compiled program with an empty stack and the instruction pointer at 0 |
| Engine.BindConstants | mp.h:1458-1459 | binding the constants sets `p` to π and `e` to e and leaves the mode, the other letters and the tree or program alone |
| Engine.InitDefault | mp.h:1392-1395 | `mp_init` builds exactly when the text parses, in interpret mode, holding the parsed tree with `p` = π, `e` = e and every other letter 0.0 |
| Engine.Evaluate | mp.h:1485-1514 | evaluation keeps the mode and the variables; interpret mode changes nothing; compile mode keeps the program and never sets an error kind; an error answer has value 0.0; the answer is an error exactly when the interpreter fails or the machine's run fails |
| Engine.InitFailsExactly | mp.h:1413-1446 | building fails exactly when tokenizing fails, parsing fails, or compile mode meets a function call |
| Engine.InitFromTree | mp.h:1433-1451 | interpret mode always builds once the text parses, and answers with the interpreter's record; compile mode builds exactly when the tree is compilable |
| Engine.InitModesCorrespond | mp.h:1433-1459 | compile mode builds exactly when interpret mode builds a compilable tree, and both start from the same table |
| Engine.SetVariableOverwrites | mp.h:1465-1483 | a second binding of a letter replaces the first; bindings of different letters commute |
| Engine.CompiledEvaluation | mp.h:1499-1506 | evaluating a compiled tree answers its post-order value and pushes it onto the stack |
| Engine.StackGrowsByOne | mp.h:1295-1299 | the stack is never cleared: after `k` evaluations it holds the old stack and `k` copies of the value |
| Engine.CompiledInitNeverFails | mp.h:1438-1506 | the first evaluation of a freshly built compile-mode environment succeeds with the tree's value and leaves exactly that value on the stack |
| Engine.InterpretedInitErrors | mp.h:1494-1497 | after a successful build, interpret mode can only fail with INVALID_FUNCTION or ZERO_DIVISION |
| Engine.ModesAgree | mp.h:1494-1506 | when both modes build and no divisor is zero, both answer the same |
| Engine.FailedRunAnswer | mp.h:1500-1503 | a failed run answers an error with no kind and value 0.0 |
| Engine.UnusedVariableIrrelevant | mp.h:1465-1497 | binding a letter the tree does not mention does not change the interpreter's answer |
| Scenarios.PowerChainRejected | mp.h:750-754 | `2^2^2` fails to parse at offset 3 and builds no environment in either mode |
| Scenarios.NegatedPower | mp.h:796-800 | `-2^2` is `minus(pow(2, 2))` and both modes answer its negation without error |
| Scenarios.NegatedPowerAnswers | mp.h:1485-1514 | any text parsing to `-(a^b)` is answered `-(a^b)` without error in both modes |
| Scenarios.SixLetterName | mp.h:492-511 | `abcdef` yields no tokens and INVALID_TOKEN at offset 5 |
| Scenarios.StrayCharacter | mp.h:505-511 | `x+$` keeps `x` and `+` and stops at offset 2 |
| Scenarios.NameWithoutCall | mp.h:722-731 | `xy` is one NAME; without a `(` after it the parse fails at offset 0 |
| Scenarios.CallInterpretedNotCompiled | mp.h:1157-1159 | `ln(x)` is answered `ln(0)` in interpret mode and builds nothing in compile mode |
| Scenarios.CallAnswers | mp.h:960-968 | any text parsing to `ln` of a letter is answered with `ln` of that letter's slot in interpret mode and refused by compile mode |
| Scenarios.QuotientByZero | mp.h:1022-1029 | `1/0` answers ZERO_DIVISION in interpret mode and the primitive quotient without error in compile mode |
| Scenarios.InterpretedZeroQuotient | mp.h:1022-1029 | any text parsing to a quotient of literals by a zero answers ZERO_DIVISION in interpret mode |
| Scenarios.CompiledZeroQuotient | mp.h:1338-1343 | any text parsing to a quotient of literals answers the primitive quotient without error in compile mode |
| Scenarios.ZeroQuotientAnswers | mp.h:1338-1343 | any text parsing to a quotient of literals by a zero parts the two modes the same way |
| Scenarios.PiIsBound | mp.h:1458-1459 | `p` answers π in both modes, and the new value once `p` is rebound |
| Scenarios.SymbolAnswers | mp.h:1465-1483 | any text parsing to a lone letter answers that letter's slot, and the new value once the letter is rebound |
| Scenarios.AddOnShortStack | mp.h:1317-1319 | ADD on a one-value stack pops the value and fails with the instruction pointer at the instruction; evaluation answers an error with no kind |
| Scenarios.DigitCaretDigitCaretDigit | mp.h:450-476 | `d^d^d` with single digits scans to five tokens at offsets 0 to 4 |
| Scenarios.MinusDigitCaretDigit | mp.h:432-476 | `-d^d` with single digits scans to four tokens at offsets 0 to 3 |

## Left out

- The C library and the FPU: arithmetic, `pow`, `log`, `log10`, `sin`, `cos`, `tan`, `sqrt` and `strtod` are uninterpreted functions, so results about infinities, NaNs and rounding are out of reach.
- Tokenizer.LiteralLength: the text `strtod` consumes is modelled for decimal literals only (digits, an optional fraction, an optional exponent); hexadecimal literals such as `0x1p4`, which a C `strtod` also accepts after a leading `0`, are not modelled.
- Memory management: the growable arrays, the arena, `malloc` and `free`, `mp_free`, `mp_interpreter_free` and `mp_vm_free` do not change any value computed.
- The NULL guards: `mp_init_mode(NULL)` returning NULL, `mp_evaluate(NULL)` answering an error with no kind, and the no-op `mp_variable(NULL)` and `mp_stack_push(NULL)`. The model has no null environment.
- The check in `mp_interpret` for a NULL root (EMPTY_EXPRESSION) cannot fire after a successful build, because a successful parse has no NULL node.
- Printing and string tables (`mp_print_*`, `mp_token_to_string`, `mp_error_to_string`, `mp_function_name_to_string`) are output only.
- The `faulty_token` the parser records when a primary has no valid start (mp.h:805), and the payload fields of tokens other than NUMBER, SYMBOL and NAME, are diagnostics and are not modelled. The tokenizer's faulty token is modelled, as `TokenError.faulty`. `Engine.Answer` holds only the error flag, the kind and the value that evaluation sets.
- The `assert` calls on letters outside `a`–`z` and on an unknown mode become types: `Letter` and a two-valued `Mode`.
- The machine reading a number operand past the program's end, or a variable byte of 26 or more, is undefined behaviour in C. The model stops the run as a failure. The compiler never emits such code.
- The partial program a failed compilation leaves behind is freed at once by `mp_init_mode` and is not modelled.
- Machine.Execute: the run is described by the unread part of the program rather than by an index. `Machine.RunLoop` is the index loop and is proved equal.
- The text is taken to be NUL-free ASCII: `strlen` ends a C string at its first NUL, which a Dafny string may contain, and a character beyond ASCII is one `char` in the model but several bytes, each an unexpected character, to the C loop.
- The command-line driver `main.c` is not part of this model.
