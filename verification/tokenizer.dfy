/** The tokenizer (`mp_tokenize`): one left-to-right pass over the source text
    that classifies each lexeme by its first character and stops at the first
    character it cannot classify. */
module Tokenizer {
  import opened Float
  import opened Common

  /** The token types of the source, with their payloads. */
  datatype TokenKind =
    | Bad                      // MP_TOKEN_INVALID
    | Eof                      // MP_TOKEN_EOF, produced only by the parser
    | Num(value: F64)          // MP_TOKEN_NUMBER
    | Sym(letter: Letter)      // MP_TOKEN_SYMBOL
    | Ident(name: string)      // MP_TOKEN_NAME
    | Plus
    | Minus
    | Times
    | Over
    | Caret
    | LParen
    | RParen

  /** A token and the byte offset of its first character. */
  datatype Token = Token(kind: TokenKind, pos: nat)

  /** Where scanning stopped, and the INVALID token it stopped at. */
  datatype TokenError = TokenError(position: nat, faulty: Token)

  /** The tokens emitted, and the error if scanning stopped early. */
  datatype Tokenized = Tokenized(tokens: seq<Token>, error: Option<TokenError>)

  /** The longest name a NAME token may hold (MP_NAME_CAPACITY). */
  const NameCapacity: nat := 4

  predicate IsSpace(c: char) {
    c == ' ' || c == '\t' || c == '\n'
  }

  predicate IsDigit(c: char) {
    '0' <= c <= '9'
  }

  predicate IsLower(c: char) {
    'a' <= c <= 'z'
  }

  /** The single-character operator and parenthesis tokens. */
  function Punctuation(c: char): (r: Option<TokenKind>)
    ensures r.Some? ==> !IsSpace(c) && !IsDigit(c) && !IsLower(c)
  {
    match c
    case '+' => Some(Plus)
    case '-' => Some(Minus)
    case '*' => Some(Times)
    case '/' => Some(Over)
    case '^' => Some(Caret)
    case '(' => Some(LParen)
    case ')' => Some(RParen)
    case _ => None
  }

  /** A character that starts no token at all. */
  predicate Unexpected(c: char) {
    !IsSpace(c) && Punctuation(c).None? && !IsDigit(c) && !IsLower(c)
  }

  /** `j` is inside the text and holds a lower-case letter. */
  predicate LowerAt(src: string, j: nat) {
    j < |src| && IsLower(src[j])
  }

  /** The number of consecutive digits starting at `i`. */
  function DigitRun(src: string, i: nat): (n: nat)
    requires i <= |src|
    ensures i + n <= |src|
    ensures forall k :: i <= k < i + n ==> IsDigit(src[k])
    ensures i + n == |src| || !IsDigit(src[i + n])
    decreases |src| - i
  {
    if i < |src| && IsDigit(src[i]) then 1 + DigitRun(src, i + 1) else 0
  }

  /** The number of consecutive lower-case letters starting at `i`, counting
      no further than `cap`. */
  function LowerRun(src: string, i: nat, cap: nat): (n: nat)
    requires i <= |src|
    ensures n <= cap && i + n <= |src|
    ensures forall k :: i <= k < i + n ==> IsLower(src[k])
    ensures n < cap ==> !LowerAt(src, i + n)
    decreases cap
  {
    if cap > 0 && LowerAt(src, i) then 1 + LowerRun(src, i + 1, cap - 1) else 0
  }

  /** The length of an exponent suffix `e[+-]digits` at `k`, or 0 when the
      text there is not a complete exponent. */
  function ExponentLength(src: string, k: nat): (n: nat)
    requires k <= |src|
    ensures k + n <= |src|
  {
    if k < |src| && (src[k] == 'e' || src[k] == 'E') then
      var s := if k + 1 < |src| && (src[k + 1] == '+' || src[k + 1] == '-') then k + 2 else k + 1;
      var d := DigitRun(src, s);
      if d == 0 then 0 else s + d - k
    else
      0
  }

  /** The number of characters `strtod` consumes for a decimal literal that
      starts with a digit at `i`: digits, an optional fraction and an optional
      exponent. */
  function LiteralLength(src: string, i: nat): (n: nat)
    requires i < |src| && IsDigit(src[i])
    ensures 1 <= n && i + n <= |src|
  {
    var j := i + DigitRun(src, i);
    var k := if j < |src| && src[j] == '.' then j + 1 + DigitRun(src, j + 1) else j;
    k + ExponentLength(src, k) - i
  }

  /** Puts one token in front of the tokens scanned after it. */
  function Emit(t: Token, rest: Tokenized): Tokenized {
    rest.(tokens := [t] + rest.tokens)
  }

  /** The scan from offset `i` to the end of the text (the body of the
      tokenizer's loop, one lexeme per call). */
  function Scan(prims: Primitives, src: string, i: nat): (r: Tokenized)
    requires i <= |src|
    ensures forall k :: 0 <= k < |r.tokens| ==> i <= r.tokens[k].pos < |src|
    ensures r.error.Some? ==> i <= r.error.value.position <= |src|
    decreases |src| - i
  {
    if i == |src| then
      Tokenized([], None)
    else
      var c := src[i];
      if IsSpace(c) then
        Scan(prims, src, i + 1)
      else if Punctuation(c).Some? then
        Emit(Token(Punctuation(c).value, i), Scan(prims, src, i + 1))
      else if IsDigit(c) then
        var n := LiteralLength(src, i);
        Emit(Token(Num(prims.strtod(src[i..i + n])), i), Scan(prims, src, i + n))
      else if IsLower(c) && !LowerAt(src, i + 1) then
        Emit(Token(Sym(c), i), Scan(prims, src, i + 1))
      else if IsLower(c) then
        // the name loop copies letters until it holds NameCapacity + 1 of them
        var n := LowerRun(src, i, NameCapacity + 1);
        if n <= NameCapacity then
          Emit(Token(Ident(src[i..i + n]), i), Scan(prims, src, i + n))
        else
          Tokenized([], Some(TokenError(i + n, Token(Bad, i))))
      else
        Tokenized([], Some(TokenError(i, Token(Bad, i))))
  }

  /** `mp_tokenize` on an empty token list: every token sits at an offset
      inside the text, and so does the error. */
  function Tokenize(prims: Primitives, src: string): (r: Tokenized)
    ensures forall k :: 0 <= k < |r.tokens| ==> r.tokens[k].pos < |src|
    ensures r.error.Some? ==> r.error.value.position <= |src|
  {
    Scan(prims, src, 0)
  }

  // ---------------------------------------------------------------------------
  // What a scan produces, stated independently of how it is computed
  // ---------------------------------------------------------------------------

  /** Only white space lies in `src[i..j]`. */
  predicate Spaces(src: string, i: nat, j: nat)
    requires i <= j <= |src|
  {
    forall k :: i <= k < j ==> IsSpace(src[k])
  }

  /** How many characters the lexeme of `t` occupies in `src`. */
  function Width(src: string, t: Token): nat {
    match t.kind
    case Num(_) => if t.pos < |src| && IsDigit(src[t.pos]) then LiteralLength(src, t.pos) else 1
    case Ident(s) => |s|
    case _ => 1
  }

  /** `t` is a token the text justifies at its position: a NUMBER starts with
      a digit and carries the literal's value, a SYMBOL is a letter with no
      letter after it, a NAME is a maximal run of 2 to 4 letters, and every
      other token is its own character. */
  predicate Lexeme(prims: Primitives, src: string, t: Token) {
    t.pos + Width(src, t) <= |src| &&
    match t.kind
    case Num(v) => IsDigit(src[t.pos]) && v == prims.strtod(src[t.pos..t.pos + Width(src, t)])
    case Sym(c) => src[t.pos] == c && !LowerAt(src, t.pos + 1)
    case Ident(s) =>
      && 2 <= |s| <= NameCapacity
      && src[t.pos..t.pos + |s|] == s
      && (forall k :: 0 <= k < |s| ==> IsLower(s[k]))
      && !LowerAt(src, t.pos + |s|)
    case Eof => false
    case Bad => false
    case _ => Punctuation(src[t.pos]) == Some(t.kind)
  }

  /** The tokens `toks`, in order, are lexemes of `src[i..end]`, and only white
      space lies before, between and after them. */
  predicate Covers(prims: Primitives, src: string, toks: seq<Token>, i: nat, end: nat)
    decreases |toks|
  {
    && i <= end <= |src|
    && if toks == [] then
         Spaces(src, i, end)
       else
         var t := toks[0];
         && i <= t.pos
         && Lexeme(prims, src, t)
         && t.pos + Width(src, t) <= end
         && Spaces(src, i, t.pos)
         && Covers(prims, src, toks[1..], t.pos + Width(src, t), end)
  }

  /** Why scanning stopped: an unexpected character at the reported offset,
      or a run of more than four letters, reported at the offset just past
      its fifth letter.  Either way the faulty token is INVALID and sits
      where the offending lexeme starts. */
  predicate StoppedAt(src: string, e: TokenError) {
    && e.faulty.kind == Bad
    && e.faulty.pos < |src|
    && (|| (e.position == e.faulty.pos && Unexpected(src[e.position]))
        || (&& e.position == e.faulty.pos + NameCapacity + 1 <= |src|
            && forall k :: e.faulty.pos <= k < e.position ==> IsLower(src[k])))
  }

  /** Where the lexed part of the text ends: the whole text on success, the
      start of the faulty lexeme otherwise. */
  function LexedEnd(src: string, r: Tokenized): nat {
    if r.error.None? then |src| else r.error.value.faulty.pos
  }

  /** Scanning from `i` covers the text from `i` to where it stopped, keeps
      every token emitted before an error, and stops only for a reason
      `StoppedAt` names. */
  predicate SoundFrom(prims: Primitives, src: string, i: nat)
    requires i <= |src|
  {
    var r := Scan(prims, src, i);
    && Covers(prims, src, r.tokens, i, LexedEnd(src, r))
    && (r.error.Some? ==> i <= r.error.value.faulty.pos && StoppedAt(src, r.error.value))
  }

  /** Every scan is sound (by induction on the text still to scan). */
  lemma {:induction false} ScanSound(prims: Primitives, src: string, i: nat)
    requires i <= |src|
    ensures SoundFrom(prims, src, i)
    decreases |src| - i, 2
  {
    if i == |src| {
      return;
    }
    var c := src[i];
    if IsSpace(c) {
      SpaceSound(prims, src, i);
    } else if Unexpected(c) || (IsLower(c) && LowerAt(src, i + 1) && LowerRun(src, i, NameCapacity + 1) > NameCapacity) {
      StopSound(prims, src, i);
    } else if Punctuation(c).Some? {
      PunctuationSound(prims, src, i);
    } else if IsDigit(c) {
      NumberSound(prims, src, i);
    } else if !LowerAt(src, i + 1) {
      SymbolSound(prims, src, i);
    } else {
      NameSound(prims, src, i);
    }
  }

  /** A skipped white-space character keeps the scan sound. */
  lemma {:induction false} SpaceSound(prims: Primitives, src: string, i: nat)
    requires i < |src| && IsSpace(src[i])
    ensures SoundFrom(prims, src, i)
    decreases |src| - i, 1
  {
    ScanSound(prims, src, i + 1);
    var r := Scan(prims, src, i + 1);
    SpacesExtend(prims, src, r.tokens, i, LexedEnd(src, r));
  }

  /** An operator or parenthesis is emitted as its own token. */
  lemma {:induction false} PunctuationSound(prims: Primitives, src: string, i: nat)
    requires i < |src| && Punctuation(src[i]).Some?
    ensures SoundFrom(prims, src, i)
    decreases |src| - i, 1
  {
    EmitSound(prims, src, i, Token(Punctuation(src[i]).value, i));
  }

  /** A digit starts a NUMBER holding the value of the whole literal. */
  lemma {:induction false} NumberSound(prims: Primitives, src: string, i: nat)
    requires i < |src| && IsDigit(src[i])
    ensures SoundFrom(prims, src, i)
    decreases |src| - i, 1
  {
    var n := LiteralLength(src, i);
    NumberStep(prims, src, i);
    EmitSound(prims, src, i, Token(Num(prims.strtod(src[i..i + n])), i));
  }

  /** The scan at a digit emits the literal's NUMBER in front of the scan
      after it. */
  lemma NumberStep(prims: Primitives, src: string, i: nat)
    requires i < |src| && IsDigit(src[i])
    ensures var n := LiteralLength(src, i);
      Scan(prims, src, i) == Emit(Token(Num(prims.strtod(src[i..i + n])), i), Scan(prims, src, i + n))
  {
  }

  /** A letter with no letter after it is a SYMBOL. */
  lemma {:induction false} SymbolSound(prims: Primitives, src: string, i: nat)
    requires i < |src| && IsLower(src[i]) && !LowerAt(src, i + 1)
    ensures SoundFrom(prims, src, i)
    decreases |src| - i, 1
  {
    EmitSound(prims, src, i, Token(Sym(src[i]), i));
  }

  /** A run of two to four letters is a NAME. */
  lemma {:induction false} NameSound(prims: Primitives, src: string, i: nat)
    requires i < |src| && IsLower(src[i]) && LowerAt(src, i + 1)
    requires LowerRun(src, i, NameCapacity + 1) <= NameCapacity
    ensures SoundFrom(prims, src, i)
    decreases |src| - i, 1
  {
    var n := LowerRun(src, i, NameCapacity + 1);
    var s := src[i..i + n];
    assert forall k :: 0 <= k < |s| ==> IsLower(s[k]);
    EmitSound(prims, src, i, Token(Ident(s), i));
  }

  /** The two places where the scan stops are sound. */
  lemma StopSound(prims: Primitives, src: string, i: nat)
    requires i < |src|
    requires Unexpected(src[i]) || (IsLower(src[i]) && LowerAt(src, i + 1) && LowerRun(src, i, NameCapacity + 1) > NameCapacity)
    ensures SoundFrom(prims, src, i)
  {
  }

  /** One step of `ScanSound`: a justified token at `i` followed by a sound
      scan of the rest gives a sound scan from `i`. */
  lemma {:induction false} EmitSound(prims: Primitives, src: string, i: nat, t: Token)
    requires t.pos == i && Lexeme(prims, src, t)
    requires i < i + Width(src, t) <= |src|
    requires Scan(prims, src, i) == Emit(t, Scan(prims, src, i + Width(src, t)))
    ensures SoundFrom(prims, src, i)
    decreases |src| - i, 0
  {
    ScanSound(prims, src, i + Width(src, t));
    var rest := Scan(prims, src, i + Width(src, t));
    var r := Scan(prims, src, i);
    assert r.tokens == [t] + rest.tokens;
    assert LexedEnd(src, r) == LexedEnd(src, rest);
    CoversCons(prims, src, t, rest.tokens, LexedEnd(src, rest));
  }

  /** A justified token in front of covered text, with nothing between
      them, is covered together with it. */
  lemma CoversCons(prims: Primitives, src: string, t: Token, toks: seq<Token>, end: nat)
    requires Lexeme(prims, src, t)
    requires Covers(prims, src, toks, t.pos + Width(src, t), end)
    ensures Covers(prims, src, [t] + toks, t.pos, end)
  {
    assert ([t] + toks)[1..] == toks;
  }

  /** A white-space character in front of covered text is covered too. */
  lemma SpacesExtend(prims: Primitives, src: string, toks: seq<Token>, i: nat, end: nat)
    requires i < |src| && IsSpace(src[i])
    requires Covers(prims, src, toks, i + 1, end)
    ensures Covers(prims, src, toks, i, end)
  {
  }

  /** The whole tokenizer: its tokens are exactly the lexemes of the text up
      to where it stopped, and it stops only at an unexpected character or a
      run of five or more letters. */
  lemma TokenizeSound(prims: Primitives, src: string)
    ensures var r := Tokenize(prims, src);
      && Covers(prims, src, r.tokens, 0, LexedEnd(src, r))
      && (r.error.Some? ==> StoppedAt(src, r.error.value))
  {
    ScanSound(prims, src, 0);
    assert SoundFrom(prims, src, 0);
  }

  /** Tokens whose positions strictly increase along the list. */
  predicate InOrder(ts: seq<Token>) {
    forall j, k :: 0 <= j < k < |ts| ==> ts[j].pos < ts[k].pos
  }

  /** Covered tokens stand in the order of the text, each at or after the
      offset the cover starts from: every lexeme is at least one character
      wide. */
  lemma {:induction false} CoversInOrder(prims: Primitives, src: string, toks: seq<Token>, i: nat, end: nat)
    requires Covers(prims, src, toks, i, end)
    ensures forall k :: 0 <= k < |toks| ==> i <= toks[k].pos
    ensures InOrder(toks)
    decreases |toks|
  {
    if toks != [] {
      var t := toks[0];
      assert 1 <= Width(src, t) by {
        match t.kind
        case Ident(s) =>
        case _ =>
      }
      CoversInOrder(prims, src, toks[1..], t.pos + Width(src, t), end);
      forall j, k | 0 <= j < k < |toks|
        ensures toks[j].pos < toks[k].pos
      {
        assert toks[k] == toks[1..][k - 1];
        if j > 0 {
          assert toks[j] == toks[1..][j - 1];
        }
      }
    }
  }

  /** `mp_tokenize` emits its tokens in the order of the text. */
  lemma TokensInOrder(prims: Primitives, src: string)
    ensures InOrder(Tokenize(prims, src).tokens)
  {
    TokenizeSound(prims, src);
    var r := Tokenize(prims, src);
    CoversInOrder(prims, src, r.tokens, 0, LexedEnd(src, r));
  }

  /** A text made only of white space yields no tokens and no error. */
  lemma {:induction false} BlankTextHasNoTokens(prims: Primitives, src: string, i: nat)
    requires i <= |src|
    requires Spaces(src, i, |src|)
    ensures Scan(prims, src, i) == Tokenized([], None)
    decreases |src| - i
  {
    if i < |src| {
      BlankTextHasNoTokens(prims, src, i + 1);
    }
  }

  /** Five lower-case letters in a row start at `k`. */
  predicate FiveLetters(src: string, k: nat) {
    k + NameCapacity < |src| && forall j :: k <= j <= k + NameCapacity ==> IsLower(src[j])
  }

  /** A text without unexpected characters and without runs of five letters
      scans to the end without error. */
  lemma {:induction false} CleanTextScansToTheEnd(prims: Primitives, src: string, i: nat)
    requires i <= |src|
    requires forall k :: i <= k < |src| ==> !Unexpected(src[k])
    requires forall k :: i <= k < |src| ==> !FiveLetters(src, k)
    ensures Scan(prims, src, i).error.None?
    decreases |src| - i
  {
    if i < |src| {
      var next := CleanStep(prims, src, i);
      CleanTextScansToTheEnd(prims, src, next);
    }
  }

  /** At a character that is neither unexpected nor the start of five
      letters, the scan moves on without error to `next`. */
  lemma CleanStep(prims: Primitives, src: string, i: nat) returns (next: nat)
    requires i < |src| && !Unexpected(src[i]) && !FiveLetters(src, i)
    ensures i < next <= |src|
    ensures Scan(prims, src, i).error == Scan(prims, src, next).error
  {
    var c := src[i];
    if IsSpace(c) || Punctuation(c).Some? || (IsLower(c) && !LowerAt(src, i + 1)) {
      next := i + 1;
    } else if IsDigit(c) {
      next := i + LiteralLength(src, i);
    } else {
      var n := LowerRun(src, i, NameCapacity + 1);
      assert n == NameCapacity + 1 ==> FiveLetters(src, i);
      next := i + n;
    }
  }
}
