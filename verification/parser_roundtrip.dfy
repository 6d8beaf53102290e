/** A printer from trees back to token lists, and the proof that the parser
    inverts it: every tree without `Invalid` nodes, printed with each compound
    node in parentheses, parses back to itself.  This is the partner of the
    parser: it shows the grammar reaches every tree shape (including nested
    powers and unknown function names) and that the descent builds the node
    kinds in the right places. */
module ParserRoundTrip {
  import opened Float
  import opened Common
  import opened Tokenizer
  import opened Syntax
  import opened Parser
  import opened ParserPositions

  /** A printed token; positions play no part in a successful parse. */
  function T(k: TokenKind): Token {
    Token(k, 0)
  }

  function OperatorToken(op: BinOp): TokenKind {
    match op
    case Add => Plus
    case Subtract => Minus
    case Multiply => Times
    case Divide => Over
    case Power => Caret
  }

  function SignToken(s: UnOp): TokenKind {
    match s
    case Positive => Plus
    case Negative => Minus
  }

  /** A name to print for a call: the function's spelling, or some name the
      lookup does not know. */
  function CallName(f: FunctionName): (s: string)
    ensures Lookup(s) == f
  {
    if f == UnknownFunction then "fn" else Spelling(f)
  }

  /** Every token of the list sits at position 0. */
  predicate AtZero(ts: seq<Token>) {
    forall k :: 0 <= k < |ts| ==> ts[k].pos == 0
  }

  /** The kind of the first token, or EOF for an empty list. */
  function Head(ts: seq<Token>): TokenKind {
    if ts == [] then Eof else ts[0].kind
  }

  /** The tokens of `n`, every compound node wrapped in parentheses. */
  function Print(n: Node): (ts: seq<Token>)
    requires Complete(n)
    ensures |ts| > 0 && AtZero(ts)
    ensures Head(ts).LParen? || Head(ts).Num? || Head(ts).Sym?
    decreases n, 1
  {
    match n
    case Number(v) => [T(Num(v))]
    case Symbol(c) => [T(Sym(c))]
    case Function(f, a) => [T(LParen)] + CallTokens(f, a) + [T(RParen)]
    case Binary(op, l, r) => [T(LParen)] + BinaryTokens(op, l, r) + [T(RParen)]
    case Unary(s, c) => [T(LParen)] + UnaryTokens(s, c) + [T(RParen)]
  }

  /** `name ( arg )` */
  function CallTokens(f: FunctionName, a: Node): (ts: seq<Token>)
    requires Complete(a)
    ensures |ts| > 0 && AtZero(ts)
    decreases Function(f, a), 0
  {
    [T(Ident(CallName(f))), T(LParen)] + Print(a) + [T(RParen)]
  }

  /** `lhs op rhs` */
  function BinaryTokens(op: BinOp, l: Node, r: Node): (ts: seq<Token>)
    requires Complete(l) && Complete(r)
    ensures |ts| > 0 && AtZero(ts)
    decreases Binary(op, l, r), 0
  {
    Print(l) + [T(OperatorToken(op))] + Print(r)
  }

  /** `sign operand` */
  function UnaryTokens(s: UnOp, c: Node): (ts: seq<Token>)
    requires Complete(c)
    ensures |ts| > 0 && AtZero(ts)
    decreases Unary(s, c), 0
  {
    [T(SignToken(s))] + Print(c)
  }

  /** The parser state whose current token is the first of `ts`, with no
      error recorded. */
  function At(ts: seq<Token>): (p: Parser)
    ensures p.cur.kind == Head(ts) && !p.failed
  {
    if ts == [] then Parser([], Token(Eof, 0), false, 0) else Parser(ts[1..], ts[0], false, 0)
  }

  lemma AdvanceAt(ts: seq<Token>)
    requires |ts| > 0 && ts[0].pos == 0
    ensures Advance(At(ts)) == At(ts[1..])
  {
  }

  /** A factor that is a primary not followed by `^` is that primary. */
  lemma FactorOfPrimary(ts: seq<Token>, n: Node, rest: seq<Token>)
    requires !Head(ts).Ident?
    requires ParsePrimary(At(ts)) == Parsed(n, At(rest))
    requires !Head(rest).Caret?
    ensures ParseFactor(At(ts)) == Parsed(n, At(rest))
  {
  }

  /** A term that is a factor not followed by `*` or `/` is that factor. */
  lemma TermOfFactor(ts: seq<Token>, n: Node, rest: seq<Token>)
    requires ParseFactor(At(ts)) == Parsed(n, At(rest))
    requires !Head(rest).Times? && !Head(rest).Over?
    ensures ParseTerm(At(ts)) == Parsed(n, At(rest))
  {
  }

  /** An expression that is a term not followed by `+` or `-` is that term. */
  lemma ExprOfTerm(ts: seq<Token>, n: Node, rest: seq<Token>)
    requires ParseTerm(At(ts)) == Parsed(n, At(rest))
    requires !Head(rest).Plus? && !Head(rest).Minus?
    ensures ParseExpr(At(ts)) == Parsed(n, At(rest))
  {
  }

  /** One turn of the `* /` loop: an operator, then a factor, then no
      further `*` or `/`. */
  lemma TermTailStep(op: BinOp, l: Node, r: Node, p: Parser, q: Parser)
    requires op == Multiply || op == Divide
    requires !p.failed && p.cur.kind == OperatorToken(op)
    requires ParseFactor(Advance(p)) == Parsed(r, q)
    requires !q.failed && !q.cur.kind.Times? && !q.cur.kind.Over?
    ensures TermTail(l, p) == Parsed(Binary(op, l, r), q)
  {
    assert TermTail(Binary(op, l, r), q) == Parsed(Binary(op, l, r), q);
  }

  /** One turn of the `+ -` loop: an operator, then a term, then no further
      `+` or `-`. */
  lemma ExprTailStep(op: BinOp, l: Node, r: Node, p: Parser, q: Parser)
    requires op == Add || op == Subtract
    requires !p.failed && p.cur.kind == OperatorToken(op)
    requires ParseTerm(Advance(p)) == Parsed(r, q)
    requires !q.failed && !q.cur.kind.Plus? && !q.cur.kind.Minus?
    ensures ExprTail(l, p) == Parsed(Binary(op, l, r), q)
  {
    assert ExprTail(Binary(op, l, r), q) == Parsed(Binary(op, l, r), q);
  }

  /** A factor made of a primary, `^` and a second primary. */
  lemma PowerStep(l: Node, r: Node, p: Parser, m: Parser, q: Parser)
    requires !p.cur.kind.Ident?
    requires ParsePrimary(p) == Parsed(l, m) && m.cur.kind.Caret?
    requires ParsePrimary(Advance(m)) == Parsed(r, q)
    ensures ParseFactor(p) == Parsed(Binary(Power, l, r), q)
  {
  }

  /** A printed tree read as a primary. */
  lemma {:induction false} PrimaryRoundTrip(n: Node, suffix: seq<Token>)
    requires Complete(n)
    ensures ParsePrimary(At(Print(n) + suffix)) == Parsed(n, At(suffix))
    decreases n, 3
  {
    var ts := Print(n) + suffix;
    match n
    case Number(_) =>
      AdvanceAt(ts);
      assert ts[1..] == suffix;
    case Symbol(_) =>
      AdvanceAt(ts);
      assert ts[1..] == suffix;
    case Function(f, a) =>
      GroupRoundTrip(n, CallTokens(f, a), suffix);
    case Binary(op, l, r) =>
      GroupRoundTrip(n, BinaryTokens(op, l, r), suffix);
    case Unary(sign, c) =>
      GroupRoundTrip(n, UnaryTokens(sign, c), suffix);
  }

  /** A parenthesised group whose inside reads as the expression `n`. */
  lemma {:induction false} GroupRoundTrip(n: Node, inner: seq<Token>, suffix: seq<Token>)
    requires Complete(n) && (n.Function? || n.Binary? || n.Unary?)
    requires inner == match n
      case Function(f, a) => CallTokens(f, a)
      case Binary(op, l, r) => BinaryTokens(op, l, r)
      case Unary(sign, c) => UnaryTokens(sign, c)
    requires Print(n) == [T(LParen)] + inner + [T(RParen)]
    ensures ParsePrimary(At(Print(n) + suffix)) == Parsed(n, At(suffix))
    decreases n, 2
  {
    var s := [T(RParen)] + suffix;
    var ts := Print(n) + suffix;
    assert ts == [T(LParen)] + (inner + s);
    AdvanceAt(ts);
    assert ts[1..] == inner + s;
    match n {
      case Function(f, a) => CallRoundTrip(f, a, s);
      case Binary(op, l, r) => BinaryRoundTrip(op, l, r, s);
      case Unary(sign, c) => UnaryRoundTrip(sign, c, s);
    }
    AdvanceAt(s);
    assert s[1..] == suffix;
  }

  /** The inside of a printed call, `name ( arg )`, read as an expression. */
  lemma {:induction false} CallRoundTrip(f: FunctionName, a: Node, s: seq<Token>)
    requires Complete(a) && s != [] && s[0] == T(RParen)
    ensures ParseExpr(At(CallTokens(f, a) + s)) == Parsed(Function(f, a), At(s))
    decreases Function(f, a), 1
  {
    var close := [T(RParen)] + s;
    var ts := CallTokens(f, a) + s;
    var afterName := [T(LParen)] + (Print(a) + close);
    assert ts == [T(Ident(CallName(f)))] + afterName;
    AdvanceAt(ts);
    assert ts[1..] == afterName;
    AdvanceAt(afterName);
    assert afterName[1..] == Print(a) + close;
    ExprRoundTrip(a, close);
    AdvanceAt(close);
    assert close[1..] == s;
    assert ParseFactor(At(ts)) == Parsed(Function(f, a), At(s));
    TermOfFactor(ts, Function(f, a), s);
    ExprOfTerm(ts, Function(f, a), s);
  }

  /** The tokens of `l op r` followed by `s` are the left operand's tokens
      followed by the operator token, `r`'s tokens and `s`. */
  lemma OperatorSplit(op: BinOp, l: Node, r: Node, s: seq<Token>)
    requires Complete(l) && Complete(r)
    ensures BinaryTokens(op, l, r) + s == Print(l) + ([T(OperatorToken(op))] + Print(r) + s)
  {
    Regroup(Print(l), T(OperatorToken(op)), Print(r), s);
  }

  lemma Regroup(a: seq<Token>, t: Token, b: seq<Token>, s: seq<Token>)
    ensures a + [t] + b + s == a + ([t] + b + s)
  {
  }

  /** The parser steps over a leading token onto what follows it. */
  lemma AdvanceOver(t: Token, b: seq<Token>, c: seq<Token>)
    requires t.pos == 0
    ensures Advance(At([t] + b + c)) == At(b + c)
  {
    assert ([t] + b + c)[1..] == b + c;
  }

  /** The inside of a printed binary node, `l op r`, read as an expression. */
  lemma {:induction false} BinaryRoundTrip(op: BinOp, l: Node, r: Node, s: seq<Token>)
    requires Complete(l) && Complete(r) && s != [] && s[0] == T(RParen)
    ensures ParseExpr(At(BinaryTokens(op, l, r) + s)) == Parsed(Binary(op, l, r), At(s))
    decreases Binary(op, l, r), 1
  {
    OperatorSplit(op, l, r, s);
    AdvanceOver(T(OperatorToken(op)), Print(r), s);
    if op == Add || op == Subtract {
      SumRoundTrip(op, l, r, s);
    } else if op == Multiply || op == Divide {
      ProductRoundTrip(op, l, r, s);
    } else {
      PowerRoundTrip(l, r, s);
    }
  }

  /** `l + r` and `l - r`: two terms joined by the expression loop. */
  lemma {:induction false} SumRoundTrip(op: BinOp, l: Node, r: Node, s: seq<Token>)
    requires op == Add || op == Subtract
    requires Complete(l) && Complete(r) && s != [] && s[0] == T(RParen)
    requires Advance(At([T(OperatorToken(op))] + Print(r) + s)) == At(Print(r) + s)
    ensures ParseExpr(At(Print(l) + ([T(OperatorToken(op))] + Print(r) + s))) == Parsed(Binary(op, l, r), At(s))
    decreases Binary(op, l, r), 0
  {
    var rest := [T(OperatorToken(op))] + Print(r) + s;
    TermRoundTrip(l, rest);
    TermRoundTrip(r, s);
    ExprTailStep(op, l, r, At(rest), At(s));
  }


  /** `l * r` and `l / r`: two factors joined by the term loop. */
  lemma {:induction false} ProductRoundTrip(op: BinOp, l: Node, r: Node, s: seq<Token>)
    requires op == Multiply || op == Divide
    requires Complete(l) && Complete(r) && s != [] && s[0] == T(RParen)
    requires Advance(At([T(OperatorToken(op))] + Print(r) + s)) == At(Print(r) + s)
    ensures ParseExpr(At(Print(l) + ([T(OperatorToken(op))] + Print(r) + s))) == Parsed(Binary(op, l, r), At(s))
    decreases Binary(op, l, r), 0
  {
    var rest := [T(OperatorToken(op))] + Print(r) + s;
    var ts := Print(l) + rest;
    FactorRoundTrip(l, rest);
    FactorRoundTrip(r, s);
    TermTailStep(op, l, r, At(rest), At(s));
    assert ParseTerm(At(ts)) == Parsed(Binary(op, l, r), At(s));
    ExprOfTerm(ts, Binary(op, l, r), s);
  }

  /** `l ^ r`: two primaries joined inside one factor. */
  lemma {:induction false} PowerRoundTrip(l: Node, r: Node, s: seq<Token>)
    requires Complete(l) && Complete(r) && s != [] && s[0] == T(RParen)
    requires Advance(At([T(Caret)] + Print(r) + s)) == At(Print(r) + s)
    ensures ParseExpr(At(Print(l) + ([T(Caret)] + Print(r) + s))) == Parsed(Binary(Power, l, r), At(s))
    decreases Binary(Power, l, r), 0
  {
    var rest := [T(Caret)] + Print(r) + s;
    var ts := Print(l) + rest;
    PrimaryRoundTrip(l, rest);
    PrimaryRoundTrip(r, s);
    PowerStep(l, r, At(ts), At(rest), At(s));
    TermOfFactor(ts, Binary(Power, l, r), s);
    ExprOfTerm(ts, Binary(Power, l, r), s);
  }

  /** The inside of a printed unary node, `sign c`, read as an expression. */
  lemma {:induction false} UnaryRoundTrip(sign: UnOp, c: Node, s: seq<Token>)
    requires Complete(c) && s != [] && s[0] == T(RParen)
    ensures ParseExpr(At(UnaryTokens(sign, c) + s)) == Parsed(Unary(sign, c), At(s))
    decreases Unary(sign, c), 1
  {
    var ts := UnaryTokens(sign, c) + s;
    assert ts == [T(SignToken(sign))] + (Print(c) + s);
    AdvanceAt(ts);
    assert ts[1..] == Print(c) + s;
    FactorRoundTrip(c, s);
    FactorOfPrimary(ts, Unary(sign, c), s);
    TermOfFactor(ts, Unary(sign, c), s);
    ExprOfTerm(ts, Unary(sign, c), s);
  }

  /** A printed tree read as a factor, when no `^` follows it. */
  lemma {:induction false} FactorRoundTrip(n: Node, suffix: seq<Token>)
    requires Complete(n) && !Head(suffix).Caret?
    ensures ParseFactor(At(Print(n) + suffix)) == Parsed(n, At(suffix))
    decreases n, 4
  {
    PrimaryRoundTrip(n, suffix);
    FactorOfPrimary(Print(n) + suffix, n, suffix);
  }

  /** A printed tree read as a term, when no `^`, `*` or `/` follows it. */
  lemma {:induction false} TermRoundTrip(n: Node, suffix: seq<Token>)
    requires Complete(n) && !Head(suffix).Caret? && !Head(suffix).Times? && !Head(suffix).Over?
    ensures ParseTerm(At(Print(n) + suffix)) == Parsed(n, At(suffix))
    decreases n, 5
  {
    FactorRoundTrip(n, suffix);
    TermOfFactor(Print(n) + suffix, n, suffix);
  }

  /** A printed tree read as an expression, when no operator follows it. */
  lemma {:induction false} ExprRoundTrip(n: Node, suffix: seq<Token>)
    requires Complete(n)
    requires !Head(suffix).Caret? && !Head(suffix).Times? && !Head(suffix).Over?
    requires !Head(suffix).Plus? && !Head(suffix).Minus?
    ensures ParseExpr(At(Print(n) + suffix)) == Parsed(n, At(suffix))
    decreases n, 6
  {
    TermRoundTrip(n, suffix);
    ExprOfTerm(Print(n) + suffix, n, suffix);
  }

  /** Parsing the printed form of a tree gives the tree back, and so does
      parsing any list with the same kinds, wherever its tokens sit. */
  lemma ParsePrint(n: Node, us: seq<Token>)
    requires Complete(n) && SameKinds(Print(n), us)
    ensures Parse(us) == Tree(n)
  {
    var ts := Print(n);
    assert Start(ts) == At(ts);
    ExprRoundTrip(n, []);
    assert ts + [] == ts;
    ParseRelocated(ts, us);
  }

  /** Consequently the trees a successful parse returns are exactly the
      trees without `Invalid` nodes. */
  lemma ParseImage(n: Node)
    ensures Complete(n) <==> exists ts :: Parse(ts) == Tree(n)
  {
    if Complete(n) {
      ParsePrint(n, Print(n));
    }
  }
}
