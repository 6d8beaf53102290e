/** The recursive-descent parser (`mp_parse` and the four `mp_parse_*` tiers):

      expr    := term (('+' | '-') term)*
      term    := factor (('*' | '/') factor)*
      factor  := NAME '(' expr ')' | primary ('^' primary)?
      primary := '(' expr ')' | NUMBER | SYMBOL | '+' factor | '-' factor

    One token of lookahead (`cur`).  An error does not unwind: it sets the
    shared error flag and position, the tier returns (a NULL node, modelled as
    `Invalid`, or whatever it had), and its callers carry on; only the `+ -`
    and `* /` loops test the flag.  A later error overwrites the position of
    an earlier one. */
module Parser {
  import opened Float
  import opened Common
  import opened Tokenizer
  import opened Syntax

  /** The parser state: the tokens not yet read, the current token, and the
      error part of the shared result record. */
  datatype Parser = Parser(rest: seq<Token>, cur: Token, failed: bool, errPos: nat)

  /** What one tier returns: the node it built and the state after it. */
  datatype Parsed = Parsed(node: Node, st: Parser)

  /** The outcome of `mp_parse`: a tree, or the error kind and position. */
  datatype ParseResult = Tree(root: Node) | ParseFailure(kind: ErrorKind, position: nat)

  /** `mp_parser_advance`: reads the next token; past the end, the current
      token turns into EOF and keeps the position it had.  Reading never
      touches the error record. */
  function Advance(p: Parser): (r: Parser)
    ensures r.failed == p.failed && r.errPos == p.errPos
    ensures p.rest == [] ==> r.rest == [] && r.cur == Token(Eof, p.cur.pos)
  {
    if p.rest == [] then p.(cur := Token(Eof, p.cur.pos))
    else p.(cur := p.rest[0], rest := p.rest[1..])
  }

  /** Records an INVALID_EXPRESSION error at the current token, which is
      not consumed. */
  function Flag(p: Parser): (r: Parser)
    ensures r.failed && r.errPos == p.cur.pos
    ensures r.cur == p.cur && r.rest == p.rest
  {
    p.(failed := true, errPos := p.cur.pos)
  }

  /** The position the parser reports once it has read past the end of
      `tokens`: the last token's, or 0 for an empty list. */
  function LastPos(tokens: seq<Token>): nat {
    if tokens == [] then 0 else tokens[|tokens| - 1].pos
  }

  /** `p` is a state of a parse of `tokens`: the tokens left are a suffix of
      the list, the current token is the one just before them, and once none
      are left the current token carries the last token's position. */
  predicate Reading(p: Parser, tokens: seq<Token>) {
    && |p.rest| <= |tokens|
    && p.rest == tokens[|tokens| - |p.rest|..]
    && (p.rest != [] ==> |p.rest| < |tokens| && p.cur == tokens[|tokens| - |p.rest| - 1])
    && (p.rest == [] ==> p.cur.pos == LastPos(tokens))
  }

  /** Reading a token keeps the parser a state of the same parse: it steps
      to the next token of the list, or stays at the end. */
  lemma AdvanceReading(p: Parser, tokens: seq<Token>)
    requires Reading(p, tokens)
    ensures Reading(Advance(p), tokens)
  {
  }

  /** Tokens still to be looked at: the termination measure of the descent. */
  function Budget(p: Parser): nat {
    |p.rest| + if p.cur.kind.Eof? then 0 else 1
  }

  /** Every tier only moves forward, never clears the error flag, and builds
      a tree without NULL children unless it reports an error. */
  predicate Progress(p: Parser, r: Parsed) {
    && Budget(r.st) <= Budget(p)
    && (p.failed ==> r.st.failed)
    && (!r.st.failed ==> Complete(r.node))
  }

  /** `mp_parse_expr`. */
  function ParseExpr(p: Parser): (r: Parsed)
    ensures Progress(p, r)
    decreases Budget(p), 5
  {
    var t := ParseTerm(p);
    ExprTail(t.node, t.st)
  }

  /** The `+ -` loop of `mp_parse_expr`, folding to the left. */
  function ExprTail(lhs: Node, p: Parser): (r: Parsed)
    ensures Budget(r.st) <= Budget(p)
    ensures p.failed ==> r.st.failed
    ensures !r.st.failed ==> !p.failed && (Complete(lhs) ==> Complete(r.node))
    decreases Budget(p), 4
  {
    if !p.failed && (p.cur.kind.Plus? || p.cur.kind.Minus?) then
      var op := if p.cur.kind.Plus? then Add else Subtract;
      var t := ParseTerm(Advance(p));
      ExprTail(Binary(op, lhs, t.node), t.st)
    else
      Parsed(lhs, p)
  }

  /** `mp_parse_term`. */
  function ParseTerm(p: Parser): (r: Parsed)
    ensures Progress(p, r)
    decreases Budget(p), 3
  {
    var f := ParseFactor(p);
    TermTail(f.node, f.st)
  }

  /** The `* /` loop of `mp_parse_term`, folding to the left. */
  function TermTail(lhs: Node, p: Parser): (r: Parsed)
    ensures Budget(r.st) <= Budget(p)
    ensures p.failed ==> r.st.failed
    ensures !r.st.failed ==> !p.failed && (Complete(lhs) ==> Complete(r.node))
    decreases Budget(p), 2
  {
    if !p.failed && (p.cur.kind.Times? || p.cur.kind.Over?) then
      var op := if p.cur.kind.Times? then Multiply else Divide;
      var f := ParseFactor(Advance(p));
      TermTail(Binary(op, lhs, f.node), f.st)
    else
      Parsed(lhs, p)
  }

  /** `mp_parse_factor`: a function call, or a primary with at most one `^`. */
  function ParseFactor(p: Parser): (r: Parsed)
    ensures Progress(p, r)
    decreases Budget(p), 1
  {
    if p.cur.kind.Ident? then
      var q := Advance(p);
      if !q.cur.kind.LParen? then
        Parsed(Invalid, Flag(q))
      else
        var a := ParseExpr(Advance(q));
        if !a.st.cur.kind.RParen? then
          Parsed(Invalid, Flag(a.st))
        else
          Parsed(Function(Lookup(p.cur.kind.name), a.node), Advance(a.st))
    else
      var base := ParsePrimary(p);
      if base.st.cur.kind.Caret? then
        var e := ParsePrimary(Advance(base.st));
        Parsed(Binary(Power, base.node, e.node), e.st)
      else
        base
  }

  /** `mp_parse_primary`. */
  function ParsePrimary(p: Parser): (r: Parsed)
    ensures Progress(p, r)
    decreases Budget(p), 0
  {
    match p.cur.kind
    case LParen =>
      var e := ParseExpr(Advance(p));
      if !e.st.cur.kind.RParen? then Parsed(e.node, Flag(e.st))
      else Parsed(e.node, Advance(e.st))
    case Num(v) => Parsed(Number(v), Advance(p))
    case Sym(c) => Parsed(Symbol(c), Advance(p))
    case Plus =>
      var f := ParseFactor(Advance(p));
      Parsed(Unary(Positive, f.node), f.st)
    case Minus =>
      var f := ParseFactor(Advance(p));
      Parsed(Unary(Negative, f.node), f.st)
    case _ => Parsed(Invalid, Flag(p))
  }

  /** The state `mp_parse` starts from: a zeroed current token, then one
      advance.  It stands on the first token of the list, or on EOF at
      position 0 for an empty list, with no error recorded. */
  function Start(tokens: seq<Token>): (r: Parser)
    ensures Reading(r, tokens) && !r.failed
    ensures r.cur.kind.Eof? <==> tokens == [] || tokens[0].kind.Eof?
  {
    Advance(Parser(tokens, Token(Bad, 0), false, 0))
  }

  /** `mp_parse`: EMPTY_EXPRESSION for a list with no tokens; a token left
      over after a whole expression is INVALID_EXPRESSION at that token;
      otherwise the error, if any, recorded during the descent. */
  function Parse(tokens: seq<Token>): (r: ParseResult)
    ensures r.Tree? ==> Complete(r.root)
    ensures r.ParseFailure? ==> r.kind == EmptyExpression || r.kind == InvalidExpression
    ensures (r == ParseFailure(EmptyExpression, 0)) <==> (tokens == [] || tokens[0].kind.Eof?)
  {
    var p := Start(tokens);
    if p.cur.kind.Eof? then
      ParseFailure(EmptyExpression, 0)
    else
      var e := ParseExpr(p);
      if !e.st.cur.kind.Eof? then ParseFailure(InvalidExpression, e.st.cur.pos)
      else if e.st.failed then ParseFailure(InvalidExpression, e.st.errPos)
      else Tree(e.node)
  }

  /** A token left over after a complete expression is reported at that
      token's own position. */
  lemma TrailingTokenRejected(tokens: seq<Token>)
    requires var p := Start(tokens); !p.cur.kind.Eof? && !ParseExpr(p).st.cur.kind.Eof?
    ensures Parse(tokens) == ParseFailure(InvalidExpression, ParseExpr(Start(tokens)).st.cur.pos)
  {
  }
}
