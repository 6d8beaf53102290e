/** Precedence and associativity of the grammar, stated for any operands:
    each operand is a printed tree (so a number, a symbol or a parenthesised
    group), and the laws say how the descent groups the operators between
    them.  Sums and products fold to the left, products bind tighter than
    sums, a power binds tighter than a leading minus sign, and a second `^`
    in a row is not part of the grammar at all. */
module ParserLaws {
  import opened Float
  import opened Common
  import opened Tokenizer
  import opened Syntax
  import opened Parser
  import opened ParserRoundTrip
  import opened ParserPositions

  /** A token list that starts with none of the five operators. */
  predicate NoOperatorNext(s: seq<Token>) {
    var k := Head(s);
    !k.Plus? && !k.Minus? && !k.Times? && !k.Over? && !k.Caret?
  }

  /** A `+` or `-` turn of the expression loop, whatever follows it. */
  lemma ExprTailTurn(op: BinOp, l: Node, r: Node, p: Parser, q: Parser)
    requires op == Add || op == Subtract
    requires !p.failed && p.cur.kind == OperatorToken(op)
    requires ParseTerm(Advance(p)) == Parsed(r, q)
    ensures ExprTail(l, p) == ExprTail(Binary(op, l, r), q)
  {
  }

  /** A `*` or `/` turn of the term loop, whatever follows it. */
  lemma TermTailTurn(op: BinOp, l: Node, r: Node, p: Parser, q: Parser)
    requires op == Multiply || op == Divide
    requires !p.failed && p.cur.kind == OperatorToken(op)
    requires ParseFactor(Advance(p)) == Parsed(r, q)
    ensures TermTail(l, p) == TermTail(Binary(op, l, r), q)
  {
  }

  /** `l o1 m o2 r` with two additive operators is `(l o1 m) o2 r`. */
  lemma SumsFoldLeft(o1: BinOp, o2: BinOp, l: Node, m: Node, r: Node, s: seq<Token>)
    requires (o1 == Add || o1 == Subtract) && (o2 == Add || o2 == Subtract)
    requires Complete(l) && Complete(m) && Complete(r) && NoOperatorNext(s)
    ensures var rest2 := [T(OperatorToken(o2))] + Print(r) + s;
      var rest1 := [T(OperatorToken(o1))] + Print(m) + rest2;
      ParseExpr(At(Print(l) + rest1)) == Parsed(Binary(o2, Binary(o1, l, m), r), At(s))
  {
    var rest2 := [T(OperatorToken(o2))] + Print(r) + s;
    var rest1 := [T(OperatorToken(o1))] + Print(m) + rest2;
    TermRoundTrip(l, rest1);
    AdvanceOver(T(OperatorToken(o1)), Print(m), rest2);
    TermRoundTrip(m, rest2);
    ExprTailTurn(o1, l, m, At(rest1), At(rest2));
    AdvanceOver(T(OperatorToken(o2)), Print(r), s);
    TermRoundTrip(r, s);
    ExprTailStep(o2, Binary(o1, l, m), r, At(rest2), At(s));
  }

  /** `l o1 m o2 r` with two multiplicative operators is `(l o1 m) o2 r`. */
  lemma ProductsFoldLeft(o1: BinOp, o2: BinOp, l: Node, m: Node, r: Node, s: seq<Token>)
    requires (o1 == Multiply || o1 == Divide) && (o2 == Multiply || o2 == Divide)
    requires Complete(l) && Complete(m) && Complete(r) && NoOperatorNext(s)
    ensures var rest2 := [T(OperatorToken(o2))] + Print(r) + s;
      var rest1 := [T(OperatorToken(o1))] + Print(m) + rest2;
      ParseExpr(At(Print(l) + rest1)) == Parsed(Binary(o2, Binary(o1, l, m), r), At(s))
  {
    var rest2 := [T(OperatorToken(o2))] + Print(r) + s;
    var rest1 := [T(OperatorToken(o1))] + Print(m) + rest2;
    var ts := Print(l) + rest1;
    var n := Binary(o2, Binary(o1, l, m), r);
    FactorRoundTrip(l, rest1);
    AdvanceOver(T(OperatorToken(o1)), Print(m), rest2);
    FactorRoundTrip(m, rest2);
    TermTailTurn(o1, l, m, At(rest1), At(rest2));
    AdvanceOver(T(OperatorToken(o2)), Print(r), s);
    FactorRoundTrip(r, s);
    TermTailStep(o2, Binary(o1, l, m), r, At(rest2), At(s));
    assert ParseTerm(At(ts)) == Parsed(n, At(s));
    ExprOfTerm(ts, n, s);
  }

  /** `l o1 m o2 r` with a sum then a product is `l o1 (m o2 r)`. */
  lemma ProductInsideSum(o1: BinOp, o2: BinOp, l: Node, m: Node, r: Node, s: seq<Token>)
    requires (o1 == Add || o1 == Subtract) && (o2 == Multiply || o2 == Divide)
    requires Complete(l) && Complete(m) && Complete(r) && NoOperatorNext(s)
    ensures var rest2 := [T(OperatorToken(o2))] + Print(r) + s;
      var rest1 := [T(OperatorToken(o1))] + Print(m) + rest2;
      ParseExpr(At(Print(l) + rest1)) == Parsed(Binary(o1, l, Binary(o2, m, r)), At(s))
  {
    var rest2 := [T(OperatorToken(o2))] + Print(r) + s;
    var rest1 := [T(OperatorToken(o1))] + Print(m) + rest2;
    TermRoundTrip(l, rest1);
    AdvanceOver(T(OperatorToken(o1)), Print(m), rest2);
    FactorRoundTrip(m, rest2);
    AdvanceOver(T(OperatorToken(o2)), Print(r), s);
    FactorRoundTrip(r, s);
    TermTailStep(o2, m, r, At(rest2), At(s));
    assert ParseTerm(At(Print(m) + rest2)) == Parsed(Binary(o2, m, r), At(s));
    ExprTailStep(o1, l, Binary(o2, m, r), At(rest1), At(s));
  }

  /** `l o1 m o2 r` with a product then a sum is `(l o1 m) o2 r`. */
  lemma ProductBeforeSum(o1: BinOp, o2: BinOp, l: Node, m: Node, r: Node, s: seq<Token>)
    requires (o1 == Multiply || o1 == Divide) && (o2 == Add || o2 == Subtract)
    requires Complete(l) && Complete(m) && Complete(r) && NoOperatorNext(s)
    ensures var rest2 := [T(OperatorToken(o2))] + Print(r) + s;
      var rest1 := [T(OperatorToken(o1))] + Print(m) + rest2;
      ParseExpr(At(Print(l) + rest1)) == Parsed(Binary(o2, Binary(o1, l, m), r), At(s))
  {
    var rest2 := [T(OperatorToken(o2))] + Print(r) + s;
    var rest1 := [T(OperatorToken(o1))] + Print(m) + rest2;
    var ts := Print(l) + rest1;
    FactorRoundTrip(l, rest1);
    AdvanceOver(T(OperatorToken(o1)), Print(m), rest2);
    FactorRoundTrip(m, rest2);
    TermTailStep(o1, l, m, At(rest1), At(rest2));
    assert ParseTerm(At(ts)) == Parsed(Binary(o1, l, m), At(rest2));
    AdvanceOver(T(OperatorToken(o2)), Print(r), s);
    TermRoundTrip(r, s);
    ExprTailStep(o2, Binary(o1, l, m), r, At(rest2), At(s));
  }

  /** `- l ^ r` is `-(l ^ r)`: the sign applies to a whole factor, and the
      power is part of that factor. */
  lemma MinusAppliesToPower(l: Node, r: Node, s: seq<Token>)
    requires Complete(l) && Complete(r) && NoOperatorNext(s)
    ensures var rest := [T(Caret)] + Print(r) + s;
      ParseExpr(At([T(Minus)] + Print(l) + rest)) == Parsed(Unary(Negative, Binary(Power, l, r)), At(s))
  {
    var rest := [T(Caret)] + Print(r) + s;
    var ts := [T(Minus)] + Print(l) + rest;
    var n := Unary(Negative, Binary(Power, l, r));
    AdvanceOver(T(Minus), Print(l), rest);
    PrimaryRoundTrip(l, rest);
    AdvanceOver(T(Caret), Print(r), s);
    PrimaryRoundTrip(r, s);
    PowerStep(l, r, At(Print(l) + rest), At(rest), At(s));
    assert ParsePrimary(At(ts)) == Parsed(n, At(s));
    FactorOfPrimary(ts, n, s);
    TermOfFactor(ts, n, s);
    ExprOfTerm(ts, n, s);
  }

  /** `l ^ m ^ r`: a factor takes at most one `^`, so the descent stops in
      front of the second one with `l ^ m` read. */
  lemma PowerChainStops(l: Node, m: Node, r: Node, s: seq<Token>)
    requires Complete(l) && Complete(m) && Complete(r)
    ensures var rest2 := [T(Caret)] + Print(r) + s;
      var rest1 := [T(Caret)] + Print(m) + rest2;
      ParseExpr(At(Print(l) + rest1)) == Parsed(Binary(Power, l, m), At(rest2))
  {
    var rest2 := [T(Caret)] + Print(r) + s;
    var rest1 := [T(Caret)] + Print(m) + rest2;
    var ts := Print(l) + rest1;
    var n := Binary(Power, l, m);
    PrimaryRoundTrip(l, rest1);
    AdvanceOver(T(Caret), Print(m), rest2);
    PrimaryRoundTrip(m, rest2);
    PowerStep(l, m, At(ts), At(rest1), At(rest2));
    TermOfFactor(ts, n, rest2);
    ExprOfTerm(ts, n, rest2);
  }

  /** A whole token list that the descent reads completely is a tree; one it
      stops short of is INVALID_EXPRESSION at the first token left over.
      Both hold for every list `us` with the same kinds, the failure sitting
      at the position `us` gives that token. */
  lemma ParseOfDescent(ts: seq<Token>, n: Node, rest: seq<Token>, us: seq<Token>)
    requires ts != [] && !ts[0].kind.Eof? && ParseExpr(At(ts)) == Parsed(n, At(rest))
    requires SameKinds(ts, us)
    ensures rest == [] ==> Parse(us) == Tree(n)
    ensures rest != [] && !rest[0].kind.Eof? ==>
      |rest| <= |us| && Parse(us) == ParseFailure(InvalidExpression, us[|us| - |rest|].pos)
  {
    assert Start(ts) == At(ts);
    StartAlike(ts, us);
    ExprAlike(At(ts), Start(us), us);
  }

  /** Five pieces of a token list, regrouped the way the laws above take
      them. */
  lemma Regroup5(a: seq<Token>, x: Token, b: seq<Token>, y: Token, c: seq<Token>)
    ensures a + [x] + b + [y] + c == a + ([x] + b + ([y] + c + []))
  {
  }

  /** The tokens of `l o1 m o2 r`, each operand printed. */
  function Chain(o1: BinOp, o2: BinOp, l: Node, m: Node, r: Node): (ts: seq<Token>)
    requires Complete(l) && Complete(m) && Complete(r)
    ensures ts != [] && !ts[0].kind.Eof?
    ensures ts == Print(l) + ([T(OperatorToken(o1))] + Print(m) + ([T(OperatorToken(o2))] + Print(r) + []))
  {
    Regroup5(Print(l), T(OperatorToken(o1)), Print(m), T(OperatorToken(o2)), Print(r));
    Print(l) + [T(OperatorToken(o1))] + Print(m) + [T(OperatorToken(o2))] + Print(r)
  }

  /** A whole list of two sums or differences folds to the left, wherever
      its tokens sit. */
  lemma ParsedSums(o1: BinOp, o2: BinOp, l: Node, m: Node, r: Node, us: seq<Token>)
    requires (o1 == Add || o1 == Subtract) && (o2 == Add || o2 == Subtract)
    requires Complete(l) && Complete(m) && Complete(r)
    requires SameKinds(Chain(o1, o2, l, m, r), us)
    ensures Parse(us) == Tree(Binary(o2, Binary(o1, l, m), r))
  {
    SumsFoldLeft(o1, o2, l, m, r, []);
    ParseOfDescent(Chain(o1, o2, l, m, r), Binary(o2, Binary(o1, l, m), r), [], us);
  }

  /** A whole list of two products or quotients folds to the left, wherever
      its tokens sit. */
  lemma ParsedProducts(o1: BinOp, o2: BinOp, l: Node, m: Node, r: Node, us: seq<Token>)
    requires (o1 == Multiply || o1 == Divide) && (o2 == Multiply || o2 == Divide)
    requires Complete(l) && Complete(m) && Complete(r)
    requires SameKinds(Chain(o1, o2, l, m, r), us)
    ensures Parse(us) == Tree(Binary(o2, Binary(o1, l, m), r))
  {
    ProductsFoldLeft(o1, o2, l, m, r, []);
    ParseOfDescent(Chain(o1, o2, l, m, r), Binary(o2, Binary(o1, l, m), r), [], us);
  }

  /** In a whole list mixing the two levels, the product is grouped first,
      on whichever side of the sum it stands. */
  lemma ParsedMixed(o1: BinOp, o2: BinOp, l: Node, m: Node, r: Node, us: seq<Token>)
    requires Complete(l) && Complete(m) && Complete(r)
    requires SameKinds(Chain(o1, o2, l, m, r), us)
    ensures (o1 == Add || o1 == Subtract) && (o2 == Multiply || o2 == Divide) ==>
      Parse(us) == Tree(Binary(o1, l, Binary(o2, m, r)))
    ensures (o1 == Multiply || o1 == Divide) && (o2 == Add || o2 == Subtract) ==>
      Parse(us) == Tree(Binary(o2, Binary(o1, l, m), r))
  {
    if (o1 == Add || o1 == Subtract) && (o2 == Multiply || o2 == Divide) {
      ProductInsideSum(o1, o2, l, m, r, []);
      ParseOfDescent(Chain(o1, o2, l, m, r), Binary(o1, l, Binary(o2, m, r)), [], us);
    }
    if (o1 == Multiply || o1 == Divide) && (o2 == Add || o2 == Subtract) {
      ProductBeforeSum(o1, o2, l, m, r, []);
      ParseOfDescent(Chain(o1, o2, l, m, r), Binary(o2, Binary(o1, l, m), r), [], us);
    }
  }

  /** A whole list `l ^ m ^ r` is rejected as INVALID_EXPRESSION at the
      position of its second `^`. */
  lemma ParsedPowerChain(l: Node, m: Node, r: Node, us: seq<Token>)
    requires Complete(l) && Complete(m) && Complete(r)
    requires SameKinds(Chain(Power, Power, l, m, r), us)
    ensures var k := |Print(l)| + 1 + |Print(m)|;
      && k < |us| && us[k].kind == Caret
      && Parse(us) == ParseFailure(InvalidExpression, us[k].pos)
  {
    var ts := Chain(Power, Power, l, m, r);
    var rest2 := [T(Caret)] + Print(r) + [];
    var k := |Print(l)| + 1 + |Print(m)|;
    PowerChainStops(l, m, r, []);
    ParseOfDescent(ts, Binary(Power, l, m), rest2, us);
    assert ts[k] == T(Caret);
  }

  /** A whole list `- l ^ r` is the negation of the power, wherever its
      tokens sit. */
  lemma ParsedMinusPower(l: Node, r: Node, us: seq<Token>)
    requires Complete(l) && Complete(r)
    requires SameKinds([T(Minus)] + Print(l) + [T(Caret)] + Print(r), us)
    ensures Parse(us) == Tree(Unary(Negative, Binary(Power, l, r)))
  {
    var ts := [T(Minus)] + Print(l) + [T(Caret)] + Print(r);
    Regroup4(T(Minus), Print(l), T(Caret), Print(r));
    MinusAppliesToPower(l, r, []);
    assert ts[0] == T(Minus);
    ParseOfDescent(ts, Unary(Negative, Binary(Power, l, r)), [], us);
  }

  /** Four pieces of a token list, regrouped the way `MinusAppliesToPower`
      takes them. */
  lemma Regroup4(x: Token, a: seq<Token>, y: Token, b: seq<Token>)
    ensures [x] + a + [y] + b == [x] + a + ([y] + b + [])
  {
  }

  // ---------------------------------------------------------------------------
  // Rejected shapes
  // ---------------------------------------------------------------------------

  /** A NAME not followed by `(` is INVALID_EXPRESSION at the token after
      it, or at the NAME itself when nothing follows. */
  lemma NameWithoutParenthesis(us: seq<Token>)
    requires us != [] && us[0].kind.Ident?
    requires |us| == 1 || !us[1].kind.LParen?
    ensures Parse(us) == ParseFailure(InvalidExpression, us[if |us| == 1 then 0 else 1].pos)
  {
    var p := Start(us);
    var q := Advance(p);
    AdvanceReading(p, us);
    assert ParseFactor(p) == Parsed(Invalid, Flag(q));
    assert ParseTerm(p) == Parsed(Invalid, Flag(q));
    assert ParseExpr(p) == Parsed(Invalid, Flag(q));
  }

  /** Where the inside of an unclosed group or call stops: the token after
      it, or the end of the list. */
  function CloseIndex(us: seq<Token>, inner: nat, s: seq<Token>): int {
    if s == [] then |us| - 1 else inner
  }

  /** A state of a parse of `us` that is alike the state before `s`, where
      `s` is the last `|s|` tokens' kinds, stands on the token at
      `CloseIndex`. */
  lemma StopsAt(q: Parser, us: seq<Token>, inner: nat, s: seq<Token>)
    requires Reading(q, us) && Alike(At(s), q) && |us| == inner + |s| && inner > 0
    ensures var k := CloseIndex(us, inner, s);
      0 <= k < |us| && q.cur.pos == us[k].pos
  {
  }

  /** The `(` branch of the primary tier when the inner expression stops on
      a token `k` that is neither `)` nor `^`: the whole parse fails there,
      where the `)` was expected. */
  lemma GroupNotClosed(us: seq<Token>, k: nat)
    requires Start(us).cur.kind.LParen?
    requires var e := ParseExpr(Advance(Start(us)));
      && !e.st.cur.kind.RParen? && !e.st.cur.kind.Caret?
      && k < |us| && e.st.cur.pos == us[k].pos
    ensures Parse(us) == ParseFailure(InvalidExpression, us[k].pos)
  {
    var p := Start(us);
    var e := ParseExpr(Advance(p));
    assert ParsePrimary(p) == Parsed(e.node, Flag(e.st));
    assert ParseFactor(p) == Parsed(e.node, Flag(e.st));
    assert ParseTerm(p) == Parsed(e.node, Flag(e.st));
    assert ParseExpr(p) == Parsed(e.node, Flag(e.st));
  }

  /** The call branch of the factor tier when the argument stops on a token
      `k` that is not `)`: the whole parse fails there, where the `)` was
      expected. */
  lemma CallNotClosed(us: seq<Token>, k: nat)
    requires Start(us).cur.kind.Ident? && Advance(Start(us)).cur.kind.LParen?
    requires var e := ParseExpr(Advance(Advance(Start(us))));
      !e.st.cur.kind.RParen? && k < |us| && e.st.cur.pos == us[k].pos
    ensures Parse(us) == ParseFailure(InvalidExpression, us[k].pos)
  {
    var p := Start(us);
    var e := ParseExpr(Advance(Advance(p)));
    assert ParseFactor(p) == Parsed(Invalid, Flag(e.st));
    assert ParseTerm(p) == Parsed(Invalid, Flag(e.st));
    assert ParseExpr(p) == Parsed(Invalid, Flag(e.st));
  }

  /** On the printed list `( n s`, the descent reads the `(`, and the
      expression tier then reads `n` and stops in front of `s`. */
  lemma InsideAt(n: Node, s: seq<Token>)
    requires Complete(n) && NoOperatorNext(s)
    ensures var p := At([T(LParen)] + Print(n) + s);
      p.cur.kind.LParen? && ParseExpr(Advance(p)) == Parsed(n, At(s))
  {
    var ts := [T(LParen)] + Print(n) + s;
    assert ts == [T(LParen)] + (Print(n) + s);
    AdvanceAt(ts);
    assert ts[1..] == Print(n) + s;
    ExprRoundTrip(n, s);
  }

  /** The inside of `( n s` read by the expression tier stops in front of
      `s`, on any list with the same kinds. */
  lemma InsideStops(n: Node, s: seq<Token>, us: seq<Token>)
    requires Complete(n) && NoOperatorNext(s)
    requires SameKinds([T(LParen)] + Print(n) + s, us)
    ensures var p := Start(us); var e := ParseExpr(Advance(p));
      p.cur.kind.LParen? && e.node == n && Alike(At(s), e.st) && Reading(e.st, us)
  {
    var ts := [T(LParen)] + Print(n) + s;
    InsideAt(n, s);
    assert Start(ts) == At(ts);
    StartAlike(ts, us);
    AdvanceAlike(At(ts), Start(us), us);
    ExprAlike(Advance(At(ts)), Advance(Start(us)), us);
  }

  /** `( n` followed by anything that neither continues the expression nor
      closes the group is INVALID_EXPRESSION where the `)` was expected: at
      the next token, or at the last token when the list ends. */
  lemma UnclosedGroup(n: Node, s: seq<Token>, us: seq<Token>)
    requires Complete(n) && NoOperatorNext(s) && !Head(s).RParen?
    requires SameKinds([T(LParen)] + Print(n) + s, us)
    ensures var k := CloseIndex(us, 1 + |Print(n)|, s);
      0 <= k < |us| && Parse(us) == ParseFailure(InvalidExpression, us[k].pos)
  {
    var k := CloseIndex(us, 1 + |Print(n)|, s);
    InsideStops(n, s, us);
    StopsAt(ParseExpr(Advance(Start(us))).st, us, 1 + |Print(n)|, s);
    GroupNotClosed(us, k);
  }

  /** On the printed list `name ( n s`, the descent reads the name and the
      `(`, and the expression tier then reads `n` and stops in front of `s`. */
  lemma ArgumentAt(name: string, n: Node, s: seq<Token>)
    requires Complete(n) && NoOperatorNext(s)
    ensures var p := At([T(Ident(name)), T(LParen)] + Print(n) + s);
      && p.cur.kind.Ident? && Advance(p).cur.kind.LParen?
      && ParseExpr(Advance(Advance(p))) == Parsed(n, At(s))
  {
    var ts := [T(Ident(name)), T(LParen)] + Print(n) + s;
    var afterName := [T(LParen)] + (Print(n) + s);
    assert ts == [T(Ident(name))] + afterName;
    AdvanceAt(ts);
    assert ts[1..] == afterName;
    AdvanceAt(afterName);
    assert afterName[1..] == Print(n) + s;
    ExprRoundTrip(n, s);
  }

  /** Two lists with the same kinds are still alike after two tokens. */
  lemma AlikeAfterTwo(ts: seq<Token>, us: seq<Token>)
    requires SameKinds(ts, us)
    ensures Alike(Advance(Advance(Start(ts))), Advance(Advance(Start(us))))
    ensures Reading(Advance(Advance(Start(us))), us)
  {
    StartAlike(ts, us);
    AdvanceAlike(Start(ts), Start(us), us);
    AdvanceAlike(Advance(Start(ts)), Advance(Start(us)), us);
  }

  /** The argument of `name ( n s` read by the expression tier stops in front
      of `s`, on any list with the same kinds. */
  lemma ArgumentStops(name: string, n: Node, s: seq<Token>, us: seq<Token>)
    requires Complete(n) && NoOperatorNext(s)
    requires SameKinds([T(Ident(name)), T(LParen)] + Print(n) + s, us)
    ensures var p := Start(us); var e := ParseExpr(Advance(Advance(p)));
      p.cur.kind.Ident? && Advance(p).cur.kind.LParen? && Alike(At(s), e.st) && Reading(e.st, us)
  {
    var ts := [T(Ident(name)), T(LParen)] + Print(n) + s;
    ArgumentAt(name, n, s);
    assert Start(ts) == At(ts);
    AlikeAfterTwo(ts, us);
    ExprAlike(Advance(Advance(At(ts))), Advance(Advance(Start(us))), us);
  }

  /** `name ( n` followed by anything that neither continues the argument
      nor closes the call is INVALID_EXPRESSION where the `)` was expected. */
  lemma UnclosedCall(name: string, n: Node, s: seq<Token>, us: seq<Token>)
    requires Complete(n) && NoOperatorNext(s) && !Head(s).RParen?
    requires SameKinds([T(Ident(name)), T(LParen)] + Print(n) + s, us)
    ensures var k := CloseIndex(us, 2 + |Print(n)|, s);
      0 <= k < |us| && Parse(us) == ParseFailure(InvalidExpression, us[k].pos)
  {
    var k := CloseIndex(us, 2 + |Print(n)|, s);
    ArgumentStops(name, n, s, us);
    StopsAt(ParseExpr(Advance(Advance(Start(us)))).st, us, 2 + |Print(n)|, s);
    CallNotClosed(us, k);
  }
}
