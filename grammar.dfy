/**
 * The expression grammar as functions of a token sequence and a cursor
 * position. Each function returns the tree (or the syntax error) and the
 * position of the cursor afterwards; the `Parser` class is proved to compute
 * exactly these.
 */
module Grammar {
  import opened Wrappers
  import TokenTypes
  import opened Tokens
  import opened Ast

  /** A syntax error: the token at which it was found and its message. */
  datatype ParseError = ParseError(token: Token, message: string)

  const ExpectExpression: string := "Expect expression."
  const ExpectRightParen: string := "Expected ')' after expression"

  /** What a parsing function yields: its result and the cursor position after it. */
  datatype Outcome = Outcome(result: Result<Expr, ParseError>, next: nat)

  /** The shape of every token sequence the scanner produces: non-empty and ending in `Eof`. */
  predicate WellFormed(toks: seq<Token>)
  {
    |toks| > 0 && toks[|toks| - 1].tokenType == TokenTypes.Eof
  }

  predicate AtEnd(toks: seq<Token>, pos: nat)
    requires pos < |toks|
  {
    toks[pos].tokenType == TokenTypes.Eof
  }

  /** `check`: never true at `Eof`, otherwise a comparison of the current token's type. */
  predicate CheckAt(toks: seq<Token>, pos: nat, t: TokenTypes.TokenType)
    requires pos < |toks|
  {
    !AtEnd(toks, pos) && toks[pos].tokenType == t
  }

  /** `matching`: some listed type passes `check` at `pos`, that is, the current token is not `Eof` and its type is listed. */
  predicate MatchAt(toks: seq<Token>, pos: nat, types: seq<TokenTypes.TokenType>)
    requires pos < |toks|
  {
    !AtEnd(toks, pos) && toks[pos].tokenType in types
  }

  /** `check` never succeeds on `Eof`, so after a successful `check` there is a next token. */
  lemma CheckNeverAtEof(toks: seq<Token>, pos: nat, t: TokenTypes.TokenType)
    requires WellFormed(toks) && pos < |toks|
    ensures CheckAt(toks, pos, t) ==> t != TokenTypes.Eof && pos + 1 < |toks|
  {
  }

  /** `matching` succeeds iff `check` succeeds for one of the listed types. */
  lemma MatchIsSomeCheck(toks: seq<Token>, pos: nat, types: seq<TokenTypes.TokenType>)
    requires pos < |toks|
    ensures MatchAt(toks, pos, types) <==> exists i :: 0 <= i < |types| && CheckAt(toks, pos, types[i])
  {
    if MatchAt(toks, pos, types) {
      var i :| 0 <= i < |types| && types[i] == toks[pos].tokenType;
      assert CheckAt(toks, pos, types[i]);
    }
  }

  /** The four binary levels, loosest first. */
  datatype Level = EqualityLevel | ComparisonLevel | TermLevel | FactorLevel

  /** The operator tokens each binary level folds. */
  function Operators(lvl: Level): seq<TokenTypes.TokenType>
  {
    match lvl
    case EqualityLevel => [TokenTypes.BangEqual, TokenTypes.EqualEqual]
    case ComparisonLevel =>
      [TokenTypes.Greater, TokenTypes.GreaterEqual, TokenTypes.Less, TokenTypes.LessEqual]
    case TermLevel => [TokenTypes.Minus, TokenTypes.Plus]
    case FactorLevel => [TokenTypes.Slash, TokenTypes.Star]
  }

  const UnaryOperators: seq<TokenTypes.TokenType> := [TokenTypes.Bang, TokenTypes.Minus]

  /** Termination rank: a function calls lower ranks at the same position, anything further on. */
  function Rank(lvl: Level): nat
  {
    match lvl
    case EqualityLevel => 10
    case ComparisonLevel => 8
    case TermLevel => 6
    case FactorLevel => 4
  }

  /**
   * What every parsing function guarantees: the cursor stays on the sequence and
   * never moves back, a success consumes at least one token, and an error is
   * reported at the token under the cursor with one of the two messages.
   */
  predicate Progress(toks: seq<Token>, pos: nat, o: Outcome, consumes: bool)
  {
    && pos <= o.next < |toks|
    && (consumes && o.result.Ok? ==> pos < o.next)
    && (o.result.Err? ==>
          o.result.error.token == toks[o.next]
          && o.result.error.message in {ExpectExpression, ExpectRightParen})
  }

  /** expression -> equality */
  function ParseExpression(toks: seq<Token>, pos: nat): (o: Outcome)
    requires WellFormed(toks) && pos < |toks|
    ensures Progress(toks, pos, o, true)
    decreases |toks| - pos, 12
  {
    ParseLevel(toks, EqualityLevel, pos)
  }

  /** level -> operand (op operand)* : one operand, then the left fold of the rest. */
  function ParseLevel(toks: seq<Token>, lvl: Level, pos: nat): (o: Outcome)
    requires WellFormed(toks) && pos < |toks|
    ensures Progress(toks, pos, o, true)
    decreases |toks| - pos, Rank(lvl)
  {
    var first := ParseOperand(toks, lvl, pos);
    if first.result.Err? then first
    else ParseLevelRest(toks, lvl, first.result.value, first.next)
  }

  /** The next tighter level: comparison, term, factor, then unary. */
  function ParseOperand(toks: seq<Token>, lvl: Level, pos: nat): (o: Outcome)
    requires WellFormed(toks) && pos < |toks|
    ensures Progress(toks, pos, o, true)
    decreases |toks| - pos, Rank(lvl) - 1
  {
    match lvl
    case EqualityLevel => ParseLevel(toks, ComparisonLevel, pos)
    case ComparisonLevel => ParseLevel(toks, TermLevel, pos)
    case TermLevel => ParseLevel(toks, FactorLevel, pos)
    case FactorLevel => ParseUnary(toks, pos)
  }

  /**
   * The `while` loop of a level: as long as the current token is one of the
   * level's operators, consume it, parse an operand and make it the right child
   * of a new node whose left child is everything folded so far.
   */
  function ParseLevelRest(toks: seq<Token>, lvl: Level, left: Expr, pos: nat): (o: Outcome)
    requires WellFormed(toks) && pos < |toks|
    ensures Progress(toks, pos, o, false)
    decreases |toks| - pos, Rank(lvl)
  {
    if MatchAt(toks, pos, Operators(lvl)) then
      var right := ParseOperand(toks, lvl, pos + 1);
      if right.result.Err? then right
      else ParseLevelRest(toks, lvl, Binary(left, OperatorFrom(toks[pos]), right.result.value), right.next)
    else
      Outcome(Ok(left), pos)
  }

  /** unary -> ("!" | "-") unary | primary */
  function ParseUnary(toks: seq<Token>, pos: nat): (o: Outcome)
    requires WellFormed(toks) && pos < |toks|
    ensures Progress(toks, pos, o, true)
    decreases |toks| - pos, 2
  {
    if MatchAt(toks, pos, UnaryOperators) then
      var right := ParseUnary(toks, pos + 1);
      if right.result.Err? then right
      else Outcome(Ok(Unary(OperatorFrom(toks[pos]), right.result.value)), right.next)
    else
      ParsePrimary(toks, pos)
  }

  /** primary -> "false" | "true" | "nil" | NUMBER | STRING | "(" expression ")" */
  function ParsePrimary(toks: seq<Token>, pos: nat): (o: Outcome)
    requires WellFormed(toks) && pos < |toks|
    ensures Progress(toks, pos, o, true)
    decreases |toks| - pos, 1
  {
    if MatchAt(toks, pos, [TokenTypes.False]) then Outcome(Ok(Literal(False)), pos + 1)
    else if MatchAt(toks, pos, [TokenTypes.True]) then Outcome(Ok(Literal(True)), pos + 1)
    else if MatchAt(toks, pos, [TokenTypes.Nil]) then Outcome(Ok(Literal(Nil)), pos + 1)
    else if MatchAt(toks, pos, [TokenTypes.Number, TokenTypes.String]) then
      Outcome(Ok(Literal(LiteralFrom(toks[pos].literal))), pos + 1)
    else if MatchAt(toks, pos, [TokenTypes.LeftParen]) then
      var inner := ParseExpression(toks, pos + 1);
      if inner.result.Err? then inner
      else if CheckAt(toks, inner.next, TokenTypes.RightParen) then
        Outcome(Ok(Grouping(inner.result.value)), inner.next + 1)
      else
        Outcome(Err(ParseError(toks[inner.next], ExpectRightParen)), inner.next)
    else
      Outcome(Err(ParseError(toks[pos], ExpectExpression)), pos)
  }

  /** `parse`: one expression from the start of the sequence, or the syntax error. */
  function Parse(toks: seq<Token>): (r: Result<Expr, ParseError>)
    requires WellFormed(toks)
    ensures r.Err? ==> r.error.token in toks && r.error.message in {ExpectExpression, ExpectRightParen}
  {
    ParseExpression(toks, 0).result
  }

  /**
   * `equality` as written: the fold starts from a placeholder tree (what
   * `Expr::new()` would have to return) instead of from a comparison.
   */
  function EqualityAsWritten(toks: seq<Token>, pos: nat): (o: Outcome)
    requires WellFormed(toks) && pos < |toks|
    ensures Progress(toks, pos, o, false)
    ensures !MatchAt(toks, pos, Operators(EqualityLevel)) ==> o == Outcome(Ok(Expr.Equality), pos)
  {
    ParseLevelRest(toks, EqualityLevel, Expr.Equality, pos)
  }

  // ---------------------------------------------------------------- synchronize

  /** Where `synchronize` may stop: at `Eof`, just after a `;`, or just before `return`. */
  predicate Boundary(toks: seq<Token>, c: nat)
    requires 0 < c < |toks|
  {
    AtEnd(toks, c)
    || toks[c - 1].tokenType == TokenTypes.Semicolon
    || toks[c].tokenType == TokenTypes.Return
  }

  /** The loop of `synchronize`: advance until a boundary. */
  function SyncFrom(toks: seq<Token>, c: nat): (r: nat)
    requires WellFormed(toks) && 0 < c < |toks|
    ensures c <= r < |toks| && Boundary(toks, r)
    decreases |toks| - c
  {
    if Boundary(toks, c) then c else SyncFrom(toks, c + 1)
  }

  /** Where `synchronize` leaves the cursor: one unconditional advance, then the loop. */
  function Synchronized(toks: seq<Token>, pos: nat): (r: nat)
    requires WellFormed(toks) && pos < |toks|
    ensures pos <= r < |toks|
    ensures !AtEnd(toks, pos) ==> pos < r
  {
    if AtEnd(toks, pos) then pos else SyncFrom(toks, pos + 1)
  }

  /** The loop stops at the first boundary at or after where it starts: none lies before it. */
  lemma {:induction false} SyncFromFindsFirstBoundary(toks: seq<Token>, c: nat)
    requires WellFormed(toks) && 0 < c < |toks|
    ensures forall k :: c <= k < SyncFrom(toks, c) ==> !Boundary(toks, k)
    decreases |toks| - c
  {
    if !Boundary(toks, c) {
      SyncFromFindsFirstBoundary(toks, c + 1);
    }
  }

  /**
   * `synchronize` moves at least one token unless it starts at `Eof`, and stops at the
   * first position that is `Eof`, follows a `;` or holds `return`.
   */
  lemma SynchronizeStopsAtBoundary(toks: seq<Token>, pos: nat)
    requires WellFormed(toks) && pos < |toks|
    ensures AtEnd(toks, pos) ==> Synchronized(toks, pos) == pos
    ensures !AtEnd(toks, pos) ==>
      && pos < Synchronized(toks, pos) < |toks|
      && Boundary(toks, Synchronized(toks, pos))
      && forall k :: pos < k < Synchronized(toks, pos) ==> !Boundary(toks, k)
  {
    if !AtEnd(toks, pos) {
      SyncFromFindsFirstBoundary(toks, pos + 1);
    }
  }
}
