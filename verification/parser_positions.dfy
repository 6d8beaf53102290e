/** The parser looks at token kinds only: positions are copied into the
    error record but never decide a branch.  Two token lists with the same
    kinds in the same order therefore parse to the same tree, or fail with
    the same error kind.  The descent over one list is simulated step by step
    by the descent over the other, and the states of the second stay states
    of a parse of that list, so the positions it reports can be read off it. */
module ParserPositions {
  import opened Common
  import opened Tokenizer
  import opened Syntax
  import opened Parser

  /** Two token lists that agree on every kind; only positions may differ. */
  predicate SameKinds(ts: seq<Token>, us: seq<Token>) {
    |ts| == |us| && forall k :: 0 <= k < |ts| ==> ts[k].kind == us[k].kind
  }

  /** Two parser states that see the same kinds ahead and agree on whether
      an error has been recorded. */
  predicate Alike(p: Parser, q: Parser) {
    && p.cur.kind == q.cur.kind
    && SameKinds(p.rest, q.rest)
    && p.failed == q.failed
  }

  /** A tier run from `p` and the same tier run from `q`: the same node,
      states alike again, and the second still a state of a parse of `us`. */
  predicate Mirrors(r: Parsed, s: Parsed, us: seq<Token>) {
    r.node == s.node && Alike(r.st, s.st) && Reading(s.st, us)
  }

  /** Reading one token keeps two alike states alike. */
  lemma AdvanceAlike(p: Parser, q: Parser, us: seq<Token>)
    requires Alike(p, q) && Reading(q, us)
    ensures Alike(Advance(p), Advance(q)) && Reading(Advance(q), us)
  {
    AdvanceReading(q, us);
    if p.rest != [] {
      assert p.rest[0].kind == q.rest[0].kind;
      assert forall k :: 0 <= k < |p.rest| - 1 ==> p.rest[1..][k].kind == p.rest[k + 1].kind;
    }
  }

  // Each tier, run from two alike states, builds the same node and ends in
  // alike states; the proof follows the mutual recursion of the tiers.

  lemma {:induction false} ExprAlike(p: Parser, q: Parser, us: seq<Token>)
    requires Alike(p, q) && Reading(q, us)
    ensures Mirrors(ParseExpr(p), ParseExpr(q), us)
    decreases Budget(p), 8
  {
    TermAlike(p, q, us);
    var t, u := ParseTerm(p), ParseTerm(q);
    ExprTailAlike(t.node, t.st, u.st, us);
  }

  lemma {:induction false} ExprTailAlike(lhs: Node, p: Parser, q: Parser, us: seq<Token>)
    requires Alike(p, q) && Reading(q, us)
    ensures Mirrors(ExprTail(lhs, p), ExprTail(lhs, q), us)
    decreases Budget(p), 7
  {
    if !p.failed && (p.cur.kind.Plus? || p.cur.kind.Minus?) {
      var op := if p.cur.kind.Plus? then Add else Subtract;
      AdvanceAlike(p, q, us);
      TermAlike(Advance(p), Advance(q), us);
      var t, u := ParseTerm(Advance(p)), ParseTerm(Advance(q));
      ExprTailAlike(Binary(op, lhs, t.node), t.st, u.st, us);
    }
  }

  lemma {:induction false} TermAlike(p: Parser, q: Parser, us: seq<Token>)
    requires Alike(p, q) && Reading(q, us)
    ensures Mirrors(ParseTerm(p), ParseTerm(q), us)
    decreases Budget(p), 6
  {
    FactorAlike(p, q, us);
    var f, g := ParseFactor(p), ParseFactor(q);
    TermTailAlike(f.node, f.st, g.st, us);
  }

  lemma {:induction false} TermTailAlike(lhs: Node, p: Parser, q: Parser, us: seq<Token>)
    requires Alike(p, q) && Reading(q, us)
    ensures Mirrors(TermTail(lhs, p), TermTail(lhs, q), us)
    decreases Budget(p), 5
  {
    if !p.failed && (p.cur.kind.Times? || p.cur.kind.Over?) {
      var op := if p.cur.kind.Times? then Multiply else Divide;
      AdvanceAlike(p, q, us);
      FactorAlike(Advance(p), Advance(q), us);
      var f, g := ParseFactor(Advance(p)), ParseFactor(Advance(q));
      TermTailAlike(Binary(op, lhs, f.node), f.st, g.st, us);
    }
  }

  lemma {:induction false} FactorAlike(p: Parser, q: Parser, us: seq<Token>)
    requires Alike(p, q) && Reading(q, us)
    ensures Mirrors(ParseFactor(p), ParseFactor(q), us)
    decreases Budget(p), 4
  {
    if p.cur.kind.Ident? {
      CallAlike(p, q, us);
    } else {
      PowerAlike(p, q, us);
    }
  }

  /** The call branch of the factor tier. */
  lemma {:induction false} CallAlike(p: Parser, q: Parser, us: seq<Token>)
    requires Alike(p, q) && Reading(q, us) && p.cur.kind.Ident?
    ensures Mirrors(ParseFactor(p), ParseFactor(q), us)
    decreases Budget(p), 1
  {
    AdvanceAlike(p, q, us);
    if Advance(p).cur.kind.LParen? {
      ArgumentAlike(p, q, us);
    } else {
      assert ParseFactor(p) == Parsed(Invalid, Flag(Advance(p)));
      assert ParseFactor(q) == Parsed(Invalid, Flag(Advance(q)));
    }
  }

  /** The call branch once `(` follows the name. */
  lemma {:induction false} ArgumentAlike(p: Parser, q: Parser, us: seq<Token>)
    requires Alike(p, q) && Reading(q, us) && p.cur.kind.Ident?
    requires Alike(Advance(p), Advance(q)) && Reading(Advance(q), us) && Advance(p).cur.kind.LParen?
    ensures Mirrors(ParseFactor(p), ParseFactor(q), us)
    decreases Budget(p), 0
  {
    var p1, q1 := Advance(p), Advance(q);
    AdvanceAlike(p1, q1, us);
    ExprAlike(Advance(p1), Advance(q1), us);
    var a, b := ParseExpr(Advance(p1)), ParseExpr(Advance(q1));
    if a.st.cur.kind.RParen? {
      AdvanceAlike(a.st, b.st, us);
      var f := Function(Lookup(p.cur.kind.name), a.node);
      assert ParseFactor(p) == Parsed(f, Advance(a.st));
      assert ParseFactor(q) == Parsed(f, Advance(b.st));
    } else {
      assert ParseFactor(p) == Parsed(Invalid, Flag(a.st));
      assert ParseFactor(q) == Parsed(Invalid, Flag(b.st));
    }
  }

  /** The primary branch of the factor tier, with its optional `^`. */
  lemma {:induction false} PowerAlike(p: Parser, q: Parser, us: seq<Token>)
    requires Alike(p, q) && Reading(q, us) && !p.cur.kind.Ident?
    ensures Mirrors(ParseFactor(p), ParseFactor(q), us)
    decreases Budget(p), 3
  {
    PrimaryAlike(p, q, us);
    var x, y := ParsePrimary(p), ParsePrimary(q);
    if x.st.cur.kind.Caret? {
      AdvanceAlike(x.st, y.st, us);
      PrimaryAlike(Advance(x.st), Advance(y.st), us);
      var a, b := ParsePrimary(Advance(x.st)), ParsePrimary(Advance(y.st));
      assert ParseFactor(p) == Parsed(Binary(Power, x.node, a.node), a.st);
      assert ParseFactor(q) == Parsed(Binary(Power, x.node, a.node), b.st);
    } else {
      assert ParseFactor(p) == x;
      assert ParseFactor(q) == y;
    }
  }

  lemma {:induction false} PrimaryAlike(p: Parser, q: Parser, us: seq<Token>)
    requires Alike(p, q) && Reading(q, us)
    ensures Mirrors(ParsePrimary(p), ParsePrimary(q), us)
    decreases Budget(p), 2
  {
    match p.cur.kind
    case LParen => GroupAlike(p, q, us);
    case Plus => SignAlike(p, q, us);
    case Minus => SignAlike(p, q, us);
    case Num(v) =>
      AdvanceAlike(p, q, us);
      assert ParsePrimary(q) == Parsed(Number(v), Advance(q));
    case Sym(c) =>
      AdvanceAlike(p, q, us);
      assert ParsePrimary(q) == Parsed(Symbol(c), Advance(q));
    case _ =>
      assert ParsePrimary(p) == Parsed(Invalid, Flag(p));
      assert ParsePrimary(q) == Parsed(Invalid, Flag(q));
  }

  /** The sign branches of the primary tier. */
  lemma {:induction false} SignAlike(p: Parser, q: Parser, us: seq<Token>)
    requires Alike(p, q) && Reading(q, us) && (p.cur.kind.Plus? || p.cur.kind.Minus?)
    ensures Mirrors(ParsePrimary(p), ParsePrimary(q), us)
    decreases Budget(p), 1
  {
    AdvanceAlike(p, q, us);
    FactorAlike(Advance(p), Advance(q), us);
    var f, g := ParseFactor(Advance(p)), ParseFactor(Advance(q));
    var sign := if p.cur.kind.Plus? then Positive else Negative;
    assert ParsePrimary(p) == Parsed(Unary(sign, f.node), f.st);
    assert ParsePrimary(q) == Parsed(Unary(sign, f.node), g.st);
  }

  /** The `(` branch of the primary tier. */
  lemma {:induction false} GroupAlike(p: Parser, q: Parser, us: seq<Token>)
    requires Alike(p, q) && Reading(q, us) && p.cur.kind.LParen?
    ensures Mirrors(ParsePrimary(p), ParsePrimary(q), us)
    decreases Budget(p), 0
  {
    AdvanceAlike(p, q, us);
    ExprAlike(Advance(p), Advance(q), us);
    var a, b := ParseExpr(Advance(p)), ParseExpr(Advance(q));
    if a.st.cur.kind.RParen? {
      AdvanceAlike(a.st, b.st, us);
      assert ParsePrimary(p) == Parsed(a.node, Advance(a.st));
      assert ParsePrimary(q) == Parsed(a.node, Advance(b.st));
    } else {
      assert ParsePrimary(p) == Parsed(a.node, Flag(a.st));
      assert ParsePrimary(q) == Parsed(a.node, Flag(b.st));
    }
  }

  /** The two lists start alike. */
  lemma StartAlike(ts: seq<Token>, us: seq<Token>)
    requires SameKinds(ts, us)
    ensures Alike(Start(ts), Start(us)) && Reading(Start(us), us)
  {
    if ts != [] {
      assert ts[0].kind == us[0].kind;
      assert forall k :: 0 <= k < |ts| - 1 ==> ts[1..][k].kind == ts[k + 1].kind;
    }
  }

  /** Positions play no part in what `mp_parse` decides: lists with the same
      kinds give the same tree, or fail with the same error kind. */
  lemma ParseRelocated(ts: seq<Token>, us: seq<Token>)
    requires SameKinds(ts, us)
    ensures Parse(ts).Tree? <==> Parse(us).Tree?
    ensures Parse(ts).Tree? ==> Parse(us) == Parse(ts)
    ensures Parse(ts).ParseFailure? ==> Parse(us).kind == Parse(ts).kind
  {
    StartAlike(ts, us);
    if !Start(ts).cur.kind.Eof? {
      ExprAlike(Start(ts), Start(us), us);
    }
  }
}
