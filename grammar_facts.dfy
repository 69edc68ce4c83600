/**
 * Properties of the expression grammar: left-associative folding at every
 * binary level, right-nested prefixes, what `primary` accepts and rejects,
 * and worked examples of precedence, grouping and syntax errors.
 */
module GrammarFacts {
  import opened Wrappers
  import TokenTypes
  import opened Tokens
  import opened Ast
  import opened Grammar

  // ------------------------------------------------------------- atoms

  /** A token `primary` turns into a literal on its own. */
  predicate IsAtom(t: Token)
  {
    t.tokenType == TokenTypes.False || t.tokenType == TokenTypes.True || t.tokenType == TokenTypes.Nil
    || t.tokenType == TokenTypes.Number || t.tokenType == TokenTypes.String
  }

  /** The literal value `primary` builds from an atom. */
  function AtomValue(t: Token): Literal
  {
    match t.tokenType
    case False => False
    case True => True
    case Nil => Nil
    case _ => LiteralFrom(t.literal)
  }

  /** `primary` turns an atom into its literal and consumes exactly that token. */
  lemma {:induction false} PrimaryOfAtom(toks: seq<Token>, pos: nat)
    requires WellFormed(toks) && pos < |toks| && IsAtom(toks[pos])
    ensures ParsePrimary(toks, pos) == Outcome(Ok(Literal(AtomValue(toks[pos]))), pos + 1)
  {
  }

  /** Every token that is neither an atom nor `(`, `Eof` included, is "Expect expression." at that token. */
  lemma {:induction false} PrimaryRejects(toks: seq<Token>, pos: nat)
    requires WellFormed(toks) && pos < |toks|
    requires !IsAtom(toks[pos]) && toks[pos].tokenType != TokenTypes.LeftParen
    ensures ParsePrimary(toks, pos) == Outcome(Err(ParseError(toks[pos], ExpectExpression)), pos)
  {
  }

  /** `(` expression `)` is a grouping; without the `)` the error is reported where it was expected. */
  lemma {:induction false} PrimaryGrouping(toks: seq<Token>, pos: nat)
    requires WellFormed(toks) && pos < |toks| && toks[pos].tokenType == TokenTypes.LeftParen
    requires ParseExpression(toks, pos + 1).result.Ok?
    ensures var inner := ParseExpression(toks, pos + 1);
      ParsePrimary(toks, pos) ==
        if toks[inner.next].tokenType == TokenTypes.RightParen
        then Outcome(Ok(Grouping(inner.result.value)), inner.next + 1)
        else Outcome(Err(ParseError(toks[inner.next], ExpectRightParen)), inner.next)
  {
    assert CheckAt(toks, pos, TokenTypes.LeftParen);
  }

  // ------------------------------------------------------------- levels

  /** The operators of all levels that bind tighter than `lvl`. */
  function TighterOperators(lvl: Level): seq<TokenTypes.TokenType>
  {
    match lvl
    case EqualityLevel =>
      Operators(ComparisonLevel) + Operators(TermLevel) + Operators(FactorLevel)
    case ComparisonLevel => Operators(TermLevel) + Operators(FactorLevel)
    case TermLevel => Operators(FactorLevel)
    case FactorLevel => []
  }

  /** The level an operand of `lvl` is parsed at. */
  function NextLevel(lvl: Level): (next: Level)
    requires lvl != FactorLevel
    ensures Rank(next) < Rank(lvl)
  {
    match lvl
    case EqualityLevel => ComparisonLevel
    case ComparisonLevel => TermLevel
    case TermLevel => FactorLevel
  }

  /** No level's operators are `Eof` or an operator of a tighter level. */
  lemma {:induction false} OperatorsAreSeparate(lvl: Level, t: TokenTypes.TokenType)
    requires t in Operators(lvl)
    ensures t != TokenTypes.Eof && t !in TighterOperators(lvl)
    ensures t !in UnaryOperators || t == TokenTypes.Minus
  {
  }

  /** A level tighter than `outer` folds only operators that `outer` counts as tighter. */
  lemma {:induction false} TighterLevelsNest(outer: Level, inner: Level, t: TokenTypes.TokenType)
    requires Rank(inner) < Rank(outer)
    requires t !in TighterOperators(outer)
    ensures t !in Operators(inner) && t !in TighterOperators(inner)
  {
  }

  /**
   * An atom followed by a token that no level from `lvl` inwards folds is parsed,
   * at level `lvl`, as just its literal.
   */
  lemma {:induction false} AtomAtLevel(toks: seq<Token>, lvl: Level, pos: nat)
    requires WellFormed(toks) && pos + 1 < |toks| && IsAtom(toks[pos])
    requires toks[pos + 1].tokenType !in Operators(lvl) + TighterOperators(lvl)
    ensures ParseLevel(toks, lvl, pos) == Outcome(Ok(Literal(AtomValue(toks[pos]))), pos + 1)
    decreases Rank(lvl), 1
  {
    AtomAsOperand(toks, lvl, pos);
    assert !MatchAt(toks, pos + 1, Operators(lvl));
  }

  /** The same for an operand of `lvl`: only the tighter levels' operators matter. */
  lemma {:induction false} AtomAsOperand(toks: seq<Token>, lvl: Level, pos: nat)
    requires WellFormed(toks) && pos + 1 < |toks| && IsAtom(toks[pos])
    requires toks[pos + 1].tokenType !in TighterOperators(lvl)
    ensures ParseOperand(toks, lvl, pos) == Outcome(Ok(Literal(AtomValue(toks[pos]))), pos + 1)
    decreases Rank(lvl), 0
  {
    if lvl == FactorLevel {
      assert !MatchAt(toks, pos, UnaryOperators);
      PrimaryOfAtom(toks, pos);
    } else {
      AtomAtLevel(toks, NextLevel(lvl), pos);
    }
  }

  /** A token no binary level folds, such as `Eof` or `)`. */
  predicate NoBinaryOperator(t: TokenTypes.TokenType)
  {
    && t !in Operators(EqualityLevel) && t !in Operators(ComparisonLevel)
    && t !in Operators(TermLevel) && t !in Operators(FactorLevel)
  }

  /** No level folds `Eof`. */
  lemma {:induction false} EofIsNoOperator(lvl: Level)
    ensures TokenTypes.Eof !in Operators(lvl) && TokenTypes.Eof !in TighterOperators(lvl)
    ensures NoBinaryOperator(TokenTypes.Eof)
  {
  }

  /**
   * A level whose result is followed by a token no level folds (`Eof`, `)`) is
   * also the result of every looser level: their loops stop at once.
   */
  lemma {:induction false} LooserLevelsAgree(toks: seq<Token>, lvl: Level, outer: Level, pos: nat)
    requires WellFormed(toks) && pos < |toks|
    requires Rank(lvl) <= Rank(outer)
    requires ParseLevel(toks, lvl, pos).result.Ok?
    requires NoBinaryOperator(toks[ParseLevel(toks, lvl, pos).next].tokenType)
    ensures ParseLevel(toks, outer, pos) == ParseLevel(toks, lvl, pos)
    decreases Rank(outer)
  {
    if outer != lvl {
      LooserLevelsAgree(toks, lvl, NextLevel(outer), pos);
      assert ParseOperand(toks, outer, pos) == ParseLevel(toks, lvl, pos);
    }
  }

  // ------------------------------------------------------------- left associativity

  /**
   * From position `p` on, `toks` is `atom (op atom)* Eof`, every `op` an
   * operator of `lvl`: atoms at `p`, `p + 2`, ..., each operator right after
   * an atom.
   */
  predicate ChainFrom(toks: seq<Token>, lvl: Level, p: nat)
    decreases |toks| - p
  {
    && p + 1 < |toks|
    && IsAtom(toks[p])
    && if toks[p + 1].tokenType in Operators(lvl) then ChainFrom(toks, lvl, p + 2)
       else AtEnd(toks, p + 1) && |toks| == p + 2
  }

  /**
   * The left-nested tree of the atoms at positions `0, 2, ..., p` of a chain
   * (`p` even): the operator before atom `p` at the root, the tree of the
   * atoms before it as the left child.
   */
  function LeftNest(toks: seq<Token>, p: nat): Expr
    requires p < |toks|
  {
    if p < 2 then Literal(AtomValue(toks[0]))
    else Binary(LeftNest(toks, p - 2), OperatorFrom(toks[p - 1]), Literal(AtomValue(toks[p])))
  }

  /** One turn of a level's loop: an operator and a successful operand become the new left tree. */
  lemma {:induction false} RestContinues(toks: seq<Token>, lvl: Level, left: Expr, pos: nat, right: Expr, next: nat)
    requires WellFormed(toks) && pos + 1 < |toks| && toks[pos].tokenType in Operators(lvl)
    requires ParseOperand(toks, lvl, pos + 1) == Outcome(Ok(right), next)
    ensures ParseLevelRest(toks, lvl, left, pos)
         == ParseLevelRest(toks, lvl, Binary(left, OperatorFrom(toks[pos]), right), next)
  {
    OperatorsAreSeparate(lvl, toks[pos].tokenType);
  }

  /** A level's loop ends at the first token that is not one of its operators. */
  lemma {:induction false} RestStops(toks: seq<Token>, lvl: Level, left: Expr, pos: nat)
    requires WellFormed(toks) && pos < |toks| && toks[pos].tokenType !in Operators(lvl)
    ensures ParseLevelRest(toks, lvl, left, pos) == Outcome(Ok(left), pos)
  {
  }

  /** The start of a chain is an atom, and the token after it is not folded by any tighter level. */
  lemma {:induction false} ChainOperand(toks: seq<Token>, lvl: Level, p: nat)
    requires ChainFrom(toks, lvl, p)
    ensures p + 1 < |toks| && IsAtom(toks[p])
    ensures toks[p + 1].tokenType !in TighterOperators(lvl)
  {
    if toks[p + 1].tokenType in Operators(lvl) {
      OperatorsAreSeparate(lvl, toks[p + 1].tokenType);
    }
  }

  /**
   * One turn of the level's loop over a chain: past the operator after atom `p`,
   * atom `p + 2` joins the left-nested tree.
   */
  lemma {:induction false} ChainStep(toks: seq<Token>, lvl: Level, p: nat)
    requires WellFormed(toks) && p + 3 < |toks|
    requires toks[p + 1].tokenType in Operators(lvl) && IsAtom(toks[p + 2])
    requires toks[p + 3].tokenType !in TighterOperators(lvl)
    ensures ParseLevelRest(toks, lvl, LeftNest(toks, p), p + 1)
         == ParseLevelRest(toks, lvl, LeftNest(toks, p + 2), p + 3)
  {
    AtomAsOperand(toks, lvl, p + 2);
    RestContinues(toks, lvl, LeftNest(toks, p), p + 1, Literal(AtomValue(toks[p + 2])), p + 3);
  }

  /**
   * The level of a chain parses it whole, up to `Eof`, into the left-nested tree
   * of all its atoms. The proof walks the level's loop: at atom `p` the tree is
   * that of the atoms up to `p`, and the loop stands on the token after it.
   */
  lemma {:induction false} ChainAtItsLevel(toks: seq<Token>, lvl: Level)
    requires WellFormed(toks) && ChainFrom(toks, lvl, 0)
    ensures ParseLevel(toks, lvl, 0) == Outcome(Ok(LeftNest(toks, |toks| - 2)), |toks| - 1)
  {
    ChainOperand(toks, lvl, 0);
    AtomAsOperand(toks, lvl, 0);
    var p := 0;
    while toks[p + 1].tokenType in Operators(lvl)
      invariant ChainFrom(toks, lvl, p)
      invariant ParseLevel(toks, lvl, 0) == ParseLevelRest(toks, lvl, LeftNest(toks, p), p + 1)
      decreases |toks| - p
    {
      ChainOperand(toks, lvl, p + 2);
      ChainStep(toks, lvl, p);
      p := p + 2;
    }
    RestStops(toks, lvl, LeftNest(toks, p), p + 1);
  }

  /**
   * Repeated operators of one level associate to the left: `a - b - c` is
   * `(a - b) - c`, at every binary level and for chains of any length, and
   * the whole expression is the chain up to `Eof`.
   */
  lemma {:induction false} LevelIsLeftAssociative(toks: seq<Token>, lvl: Level)
    requires WellFormed(toks) && ChainFrom(toks, lvl, 0)
    ensures ParseExpression(toks, 0) == Outcome(Ok(LeftNest(toks, |toks| - 2)), |toks| - 1)
    ensures Parse(toks) == Ok(LeftNest(toks, |toks| - 2))
  {
    ChainAtItsLevel(toks, lvl);
    assert NoBinaryOperator(toks[|toks| - 1].tokenType);
    LooserLevelsAgree(toks, lvl, EqualityLevel, 0);
  }

  // ------------------------------------------------------------- unary prefixes

  /** `prefix[0]` outermost: each prefix operator applies to everything after it. */
  function NestUnary(prefix: seq<Token>, e: Expr): Expr
  {
    if prefix == [] then e else Unary(OperatorFrom(prefix[0]), NestUnary(prefix[1..], e))
  }

  /** Prefix operators before an atom nest to the right, innermost last. */
  lemma {:induction false} UnaryNestsRight(toks: seq<Token>, prefix: seq<Token>, i: nat)
    requires WellFormed(toks) && |toks| == |prefix| + 2 && toks[..|prefix|] == prefix
    requires forall j :: 0 <= j < |prefix| ==> prefix[j].tokenType in UnaryOperators
    requires IsAtom(toks[|prefix|]) && i <= |prefix|
    ensures ParseUnary(toks, i)
         == Outcome(Ok(NestUnary(prefix[i..], Literal(AtomValue(toks[|prefix|])))), |prefix| + 1)
    decreases |prefix| - i
  {
    if i == |prefix| {
      assert !MatchAt(toks, i, UnaryOperators);
      PrimaryOfAtom(toks, i);
    } else {
      assert toks[i] == prefix[i];
      assert CheckAt(toks, i, toks[i].tokenType);
      UnaryNestsRight(toks, prefix, i + 1);
      assert prefix[i..][1..] == prefix[i + 1..];
    }
  }

  /** The whole parse of `prefix atom Eof` is the right-nested unary tree. */
  lemma {:induction false} PrefixesParseRightNested(toks: seq<Token>, prefix: seq<Token>)
    requires WellFormed(toks) && |toks| == |prefix| + 2 && toks[..|prefix|] == prefix
    requires forall j :: 0 <= j < |prefix| ==> prefix[j].tokenType in UnaryOperators
    requires IsAtom(toks[|prefix|])
    ensures Parse(toks) == Ok(NestUnary(prefix, Literal(AtomValue(toks[|prefix|]))))
  {
    UnaryNestsRight(toks, prefix, 0);
    assert prefix[0..] == prefix;
    assert ParseLevel(toks, FactorLevel, 0) == ParseUnary(toks, 0);
    LooserLevelsAgree(toks, FactorLevel, EqualityLevel, 0);
  }

  // ------------------------------------------------------------- shapes

  /** A failure of `unary` at `pos` is the failure of every binary level there, unchanged. */
  lemma {:induction false} ErrorsPropagate(toks: seq<Token>, lvl: Level, pos: nat)
    requires WellFormed(toks) && pos < |toks| && ParseUnary(toks, pos).result.Err?
    ensures ParseLevel(toks, lvl, pos) == ParseUnary(toks, pos)
    decreases Rank(lvl)
  {
    if lvl != FactorLevel {
      ErrorsPropagate(toks, NextLevel(lvl), pos);
      assert ParseOperand(toks, lvl, pos) == ParseLevel(toks, NextLevel(lvl), pos);
    }
  }

  /**
   * `a op b`, with `op` an operator of `lvl`, followed by a token that neither
   * `lvl` nor a tighter level folds, is one node at that level.
   */
  lemma {:induction false} SingleOperation(toks: seq<Token>, lvl: Level, pos: nat)
    requires WellFormed(toks) && pos + 3 < |toks|
    requires IsAtom(toks[pos]) && toks[pos + 1].tokenType in Operators(lvl) && IsAtom(toks[pos + 2])
    requires toks[pos + 3].tokenType !in Operators(lvl)
    requires toks[pos + 3].tokenType !in TighterOperators(lvl)
    ensures ParseLevel(toks, lvl, pos)
         == Outcome(Ok(Binary(Literal(AtomValue(toks[pos])), OperatorFrom(toks[pos + 1]),
                              Literal(AtomValue(toks[pos + 2])))), pos + 3)
  {
    var q := pos + 1;
    assert q + 1 == pos + 2 && q + 1 + 1 == pos + 3;
    OperatorsAreSeparate(lvl, toks[q].tokenType);
    AtomAsOperand(toks, lvl, pos);
    AtomAsOperand(toks, lvl, q + 1);
    var left := Literal(AtomValue(toks[pos]));
    var node := Binary(left, OperatorFrom(toks[q]), Literal(AtomValue(toks[q + 1])));
    RestContinues(toks, lvl, left, q, Literal(AtomValue(toks[q + 1])), q + 1 + 1);
    RestStops(toks, lvl, node, q + 1 + 1);
  }

  /**
   * The operand of `outer` at `pos` is the result of a tighter level `lvl` there,
   * when the token after that result is not folded by any level tighter than `outer`.
   */
  lemma {:induction false} TighterLevelIsOperand(toks: seq<Token>, lvl: Level, outer: Level, pos: nat)
    requires WellFormed(toks) && pos < |toks|
    requires Rank(lvl) < Rank(outer)
    requires ParseLevel(toks, lvl, pos).result.Ok?
    requires toks[ParseLevel(toks, lvl, pos).next].tokenType !in TighterOperators(outer)
    ensures ParseOperand(toks, outer, pos) == ParseLevel(toks, lvl, pos)
    decreases Rank(outer)
  {
    var mid := NextLevel(outer);
    assert ParseOperand(toks, outer, pos) == ParseLevel(toks, mid, pos);
    if mid != lvl {
      var first := ParseLevel(toks, lvl, pos);
      TighterLevelsNest(outer, mid, toks[first.next].tokenType);
      TighterLevelIsOperand(toks, lvl, mid, pos);
      RestStops(toks, mid, first.result.value, first.next);
    }
  }

  /**
   * `a op x` at the start, `op` of level `lvl` and `x` the operand parsed after it,
   * followed by a token no level folds, is the whole parse `a op x`.
   */
  lemma {:induction false} AtomThenOperand(toks: seq<Token>, lvl: Level, right: Expr, next: nat)
    requires WellFormed(toks) && 2 < |toks|
    requires IsAtom(toks[0]) && toks[1].tokenType in Operators(lvl)
    requires ParseOperand(toks, lvl, 2) == Outcome(Ok(right), next)
    requires NoBinaryOperator(toks[next].tokenType)
    ensures Parse(toks) == Ok(Binary(Literal(AtomValue(toks[0])), OperatorFrom(toks[1]), right))
  {
    OperatorsAreSeparate(lvl, toks[1].tokenType);
    AtomAsOperand(toks, lvl, 0);
    RestContinues(toks, lvl, Literal(AtomValue(toks[0])), 1, right, next);
    RestStops(toks, lvl, Binary(Literal(AtomValue(toks[0])), OperatorFrom(toks[1]), right), next);
    LooserLevelsAgree(toks, lvl, EqualityLevel, 0);
  }

  /**
   * `x op a`, with `x` the first operand of level `lvl` ending at `m` and `op` of
   * that level, followed by a token the level and the tighter ones do not fold,
   * is one node at that level.
   */
  lemma {:induction false} OperandThenAtomAtLevel(toks: seq<Token>, lvl: Level, left: Expr, m: nat)
    requires WellFormed(toks) && m + 2 < |toks|
    requires ParseOperand(toks, lvl, 0) == Outcome(Ok(left), m)
    requires toks[m].tokenType in Operators(lvl) && IsAtom(toks[m + 1])
    requires toks[m + 2].tokenType !in Operators(lvl) + TighterOperators(lvl)
    ensures ParseLevel(toks, lvl, 0)
         == Outcome(Ok(Binary(left, OperatorFrom(toks[m]), Literal(AtomValue(toks[m + 1])))), m + 2)
  {
    var atom := Literal(AtomValue(toks[m + 1]));
    OperatorsAreSeparate(lvl, toks[m].tokenType);
    AtomAsOperand(toks, lvl, m + 1);
    RestContinues(toks, lvl, left, m, atom, m + 2);
    RestStops(toks, lvl, Binary(left, OperatorFrom(toks[m]), atom), m + 2);
  }

  /**
   * `x op a Eof`, `x` the first operand of level `lvl` ending at `m` and `op` of that
   * level, is the whole parse `x op a`.
   */
  lemma {:induction false} OperandThenAtom(toks: seq<Token>, lvl: Level, left: Expr, m: nat)
    requires WellFormed(toks) && |toks| == m + 3
    requires ParseOperand(toks, lvl, 0) == Outcome(Ok(left), m)
    requires toks[m].tokenType in Operators(lvl) && IsAtom(toks[m + 1])
    ensures Parse(toks) == Ok(Binary(left, OperatorFrom(toks[m]), Literal(AtomValue(toks[m + 1]))))
  {
    assert toks[m + 2].tokenType == TokenTypes.Eof;
    EofIsNoOperator(lvl);
    OperandThenAtomAtLevel(toks, lvl, left, m);
    LooserLevelsAgree(toks, lvl, EqualityLevel, 0);
  }

  /**
   * Precedence at every pair of levels: in `a op1 b op2 c`, with `op2` of a
   * tighter level than `op1`, the tighter operator takes `b` first, so the tree
   * is `a op1 (b op2 c)`.
   */
  lemma {:induction false} TighterInsideLooser(toks: seq<Token>, outer: Level, inner: Level)
    requires WellFormed(toks) && |toks| == 6 && Rank(inner) < Rank(outer)
    requires IsAtom(toks[0]) && toks[1].tokenType in Operators(outer) && IsAtom(toks[2])
    requires toks[3].tokenType in Operators(inner) && IsAtom(toks[4])
    ensures Parse(toks)
         == Ok(Binary(Literal(AtomValue(toks[0])), OperatorFrom(toks[1]),
                      Binary(Literal(AtomValue(toks[2])), OperatorFrom(toks[3]), Literal(AtomValue(toks[4])))))
  {
    var tail := Binary(Literal(AtomValue(toks[2])), OperatorFrom(toks[3]), Literal(AtomValue(toks[4])));
    assert toks[5].tokenType == TokenTypes.Eof;
    EofIsNoOperator(inner);
    EofIsNoOperator(outer);
    SingleOperation(toks, inner, 2);
    TighterLevelIsOperand(toks, inner, outer, 2);
    AtomThenOperand(toks, outer, tail, 5);
  }

  /** The mirror case: in `a op2 b op1 c` the tighter `op2` takes `a` and `b`, so the tree is `(a op2 b) op1 c`. */
  lemma {:induction false} TighterBeforeLooser(toks: seq<Token>, outer: Level, inner: Level)
    requires WellFormed(toks) && |toks| == 6 && Rank(inner) < Rank(outer)
    requires IsAtom(toks[0]) && toks[1].tokenType in Operators(inner) && IsAtom(toks[2])
    requires toks[3].tokenType in Operators(outer) && IsAtom(toks[4])
    ensures Parse(toks)
         == Ok(Binary(Binary(Literal(AtomValue(toks[0])), OperatorFrom(toks[1]), Literal(AtomValue(toks[2]))),
                      OperatorFrom(toks[3]), Literal(AtomValue(toks[4]))))
  {
    var head := Binary(Literal(AtomValue(toks[0])), OperatorFrom(toks[1]), Literal(AtomValue(toks[2])));
    SingleOperation(toks, inner, 0);
    OperatorsAreSeparate(outer, toks[3].tokenType);
    TighterLevelsNest(outer, inner, toks[3].tokenType);
    assert ParseLevel(toks, inner, 0) == Outcome(Ok(head), 3);
    TighterLevelIsOperand(toks, inner, outer, 0);
    OperandThenAtom(toks, outer, head, 3);
  }

  /**
   * A prefix binds tighter than every binary level: `- a op b` (or `! a op b`)
   * is `(- a) op b`.
   */
  lemma {:induction false} UnaryBeforeBinary(toks: seq<Token>, lvl: Level)
    requires WellFormed(toks) && |toks| == 5
    requires toks[0].tokenType in UnaryOperators && IsAtom(toks[1])
    requires toks[2].tokenType in Operators(lvl) && IsAtom(toks[3])
    ensures Parse(toks)
         == Ok(Binary(Unary(OperatorFrom(toks[0]), Literal(AtomValue(toks[1]))),
                      OperatorFrom(toks[2]), Literal(AtomValue(toks[3]))))
  {
    var negated := Unary(OperatorFrom(toks[0]), Literal(AtomValue(toks[1])));
    assert !MatchAt(toks, 1, UnaryOperators);
    PrimaryOfAtom(toks, 1);
    assert ParseUnary(toks, 0) == Outcome(Ok(negated), 2);
    if lvl != FactorLevel {
      OperatorsAreSeparate(lvl, toks[2].tokenType);
      TighterLevelsNest(lvl, FactorLevel, toks[2].tokenType);
      RestStops(toks, FactorLevel, negated, 2);
      TighterLevelIsOperand(toks, FactorLevel, lvl, 0);
    }
    OperandThenAtom(toks, lvl, negated, 2);
  }

  /** `a op b` followed by `Eof` or `)` is a whole expression, at any level of `op`. */
  lemma {:induction false} OperationAsExpression(toks: seq<Token>, lvl: Level, pos: nat)
    requires WellFormed(toks) && pos + 3 < |toks|
    requires IsAtom(toks[pos]) && toks[pos + 1].tokenType in Operators(lvl) && IsAtom(toks[pos + 2])
    requires NoBinaryOperator(toks[pos + 3].tokenType)
    ensures ParseExpression(toks, pos)
         == Outcome(Ok(Binary(Literal(AtomValue(toks[pos])), OperatorFrom(toks[pos + 1]),
                              Literal(AtomValue(toks[pos + 2])))), pos + 3)
  {
    SingleOperation(toks, lvl, pos);
    LooserLevelsAgree(toks, lvl, EqualityLevel, pos);
  }

  /**
   * `( a op b )` is an operand of `factor` whatever the level of `op`: the
   * grouping of the single operation inside.
   */
  lemma {:induction false} GroupedOperation(toks: seq<Token>, lvl: Level, pos: nat)
    requires WellFormed(toks) && pos + 5 < |toks| && toks[pos].tokenType == TokenTypes.LeftParen
    requires IsAtom(toks[pos + 1]) && toks[pos + 2].tokenType in Operators(lvl) && IsAtom(toks[pos + 3])
    requires toks[pos + 4].tokenType == TokenTypes.RightParen
    ensures ParseOperand(toks, FactorLevel, pos)
         == Outcome(Ok(Grouping(Binary(Literal(AtomValue(toks[pos + 1])), OperatorFrom(toks[pos + 2]),
                                       Literal(AtomValue(toks[pos + 3]))))), pos + 5)
  {
    var q := pos + 1;
    assert q + 1 == pos + 2 && q + 2 == pos + 3 && q + 3 == pos + 4;
    OperationAsExpression(toks, lvl, q);
    PrimaryGrouping(toks, pos);
    assert !MatchAt(toks, pos, UnaryOperators);
  }

  /** `(a + b) * c`: the parentheses make the sum the left operand of the product. */
  lemma {:induction false} GroupingOverridesPrecedence(toks: seq<Token>)
    requires WellFormed(toks) && |toks| == 8 && toks[0].tokenType == TokenTypes.LeftParen
    requires IsAtom(toks[1]) && toks[2].tokenType in Operators(TermLevel) && IsAtom(toks[3])
    requires toks[4].tokenType == TokenTypes.RightParen
    requires toks[5].tokenType in Operators(FactorLevel) && IsAtom(toks[6])
    ensures Parse(toks)
         == Ok(Binary(Grouping(Binary(Literal(AtomValue(toks[1])), OperatorFrom(toks[2]), Literal(AtomValue(toks[3])))),
                      OperatorFrom(toks[5]), Literal(AtomValue(toks[6]))))
  {
    var group := Grouping(Binary(Literal(AtomValue(toks[1])), OperatorFrom(toks[2]), Literal(AtomValue(toks[3]))));
    GroupedOperation(toks, TermLevel, 0);
    AtomAsOperand(toks, FactorLevel, 6);
    RestContinues(toks, FactorLevel, group, 5, Literal(AtomValue(toks[6])), 7);
    RestStops(toks, FactorLevel, Binary(group, OperatorFrom(toks[5]), Literal(AtomValue(toks[6]))), 7);
    LooserLevelsAgree(toks, FactorLevel, EqualityLevel, 0);
  }

  /** A `(` whose inner expression is not followed by `)` fails where the `)` was expected. */
  lemma {:induction false} UnclosedGroupFails(toks: seq<Token>, pos: nat)
    requires WellFormed(toks) && pos < |toks| && toks[pos].tokenType == TokenTypes.LeftParen
    requires ParseExpression(toks, pos + 1).result.Ok?
    requires toks[ParseExpression(toks, pos + 1).next].tokenType != TokenTypes.RightParen
    ensures ParseExpression(toks, pos)
         == Outcome(Err(ParseError(toks[ParseExpression(toks, pos + 1).next], ExpectRightParen)),
                    ParseExpression(toks, pos + 1).next)
  {
    PrimaryGrouping(toks, pos);
    assert !MatchAt(toks, pos, UnaryOperators);
    ErrorsPropagate(toks, EqualityLevel, pos);
  }

  /** A token that can start no expression fails with "Expect expression." at that token. */
  lemma {:induction false} NoOperandFails(toks: seq<Token>, pos: nat)
    requires WellFormed(toks) && pos < |toks|
    requires !IsAtom(toks[pos]) && toks[pos].tokenType != TokenTypes.LeftParen
    requires toks[pos].tokenType !in UnaryOperators
    ensures ParseExpression(toks, pos) == Outcome(Err(ParseError(toks[pos], ExpectExpression)), pos)
  {
    PrimaryRejects(toks, pos);
    ErrorsPropagate(toks, EqualityLevel, pos);
  }

  /** Two operators of one level: `a op b op c` is `(a op b) op c`. */
  lemma {:induction false} TwoOperatorsNestLeft(toks: seq<Token>, lvl: Level)
    requires WellFormed(toks) && |toks| == 6
    requires IsAtom(toks[0]) && toks[1].tokenType in Operators(lvl) && IsAtom(toks[2])
    requires toks[3].tokenType in Operators(lvl) && IsAtom(toks[4])
    ensures Parse(toks)
         == Ok(Binary(Binary(Literal(AtomValue(toks[0])), OperatorFrom(toks[1]), Literal(AtomValue(toks[2]))),
                      OperatorFrom(toks[3]), Literal(AtomValue(toks[4]))))
  {
    assert ChainFrom(toks, lvl, 4);
    assert ChainFrom(toks, lvl, 2);
    LevelIsLeftAssociative(toks, lvl);
    assert LeftNest(toks, 2) == Binary(Literal(AtomValue(toks[0])), OperatorFrom(toks[1]), Literal(AtomValue(toks[2])));
  }

  // ------------------------------------------------------------- worked examples

  function Num(text: string): Token { Token(TokenTypes.Number, text, text, 1) }
  function Sym(t: TokenTypes.TokenType, lexeme: string): Token { Token(t, lexeme, "", 1) }
  const EofTok: Token := Token(TokenTypes.Eof, "", "", 1)

  /** `1 - 2 - 3` nests to the left; every number literal becomes `Number(1)`. */
  lemma {:induction false} OneMinusTwoMinusThree()
    ensures Parse([Num("1"), Sym(TokenTypes.Minus, "-"), Num("2"), Sym(TokenTypes.Minus, "-"),
                   Num("3"), EofTok])
         == Ok(Binary(Binary(Literal(Number(1)), Minus, Literal(Number(1))), Minus, Literal(Number(1))))
  {
    TwoOperatorsNestLeft([Num("1"), Sym(TokenTypes.Minus, "-"), Num("2"), Sym(TokenTypes.Minus, "-"),
                          Num("3"), EofTok], TermLevel);
  }

  /** With three different leaves the left nesting shows in the leaves too. */
  lemma {:induction false} TrueMinusFalseMinusNil()
    ensures Parse([Sym(TokenTypes.True, "true"), Sym(TokenTypes.Minus, "-"),
                   Sym(TokenTypes.False, "false"), Sym(TokenTypes.Minus, "-"),
                   Sym(TokenTypes.Nil, "nil"), EofTok])
         == Ok(Binary(Binary(Literal(True), Minus, Literal(False)), Minus, Literal(Nil)))
  {
    TwoOperatorsNestLeft([Sym(TokenTypes.True, "true"), Sym(TokenTypes.Minus, "-"),
                          Sym(TokenTypes.False, "false"), Sym(TokenTypes.Minus, "-"),
                          Sym(TokenTypes.Nil, "nil"), EofTok], TermLevel);
  }

  /** `1 == 2` builds an equality node, and its operator is `Invalid`. */
  lemma {:induction false} EqualityNodesCarryInvalid()
    ensures Parse([Num("1"), Sym(TokenTypes.EqualEqual, "=="), Num("2"), EofTok])
         == Ok(Binary(Literal(Number(1)), Invalid, Literal(Number(1))))
  {
    var toks := [Num("1"), Sym(TokenTypes.EqualEqual, "=="), Num("2"), EofTok];
    assert ChainFrom(toks, EqualityLevel, 2);
    LevelIsLeftAssociative(toks, EqualityLevel);
  }

  /** `1 + 2 * 3` is `1 + (2 * 3)`. */
  lemma {:induction false} OnePlusTwoTimesThree()
    ensures Parse([Num("1"), Sym(TokenTypes.Plus, "+"), Num("2"), Sym(TokenTypes.Star, "*"),
                   Num("3"), EofTok])
         == Ok(Binary(Literal(Number(1)), Plus, Binary(Literal(Number(1)), Times, Literal(Number(1)))))
  {
    TighterInsideLooser([Num("1"), Sym(TokenTypes.Plus, "+"), Num("2"), Sym(TokenTypes.Star, "*"),
                         Num("3"), EofTok], TermLevel, FactorLevel);
  }

  /** `true * false + nil` is `(true * false) + nil`. */
  lemma {:induction false} TrueTimesFalsePlusNil()
    ensures Parse([Sym(TokenTypes.True, "true"), Sym(TokenTypes.Star, "*"),
                   Sym(TokenTypes.False, "false"), Sym(TokenTypes.Plus, "+"),
                   Sym(TokenTypes.Nil, "nil"), EofTok])
         == Ok(Binary(Binary(Literal(True), Times, Literal(False)), Plus, Literal(Nil)))
  {
    TighterBeforeLooser([Sym(TokenTypes.True, "true"), Sym(TokenTypes.Star, "*"),
                         Sym(TokenTypes.False, "false"), Sym(TokenTypes.Plus, "+"),
                         Sym(TokenTypes.Nil, "nil"), EofTok], TermLevel, FactorLevel);
  }

  /** `1 == 2 < 3` is `1 == (2 < 3)`: comparison binds tighter than equality. */
  lemma {:induction false} EqualityOfComparison()
    ensures Parse([Num("1"), Sym(TokenTypes.EqualEqual, "=="), Num("2"), Sym(TokenTypes.Less, "<"),
                   Num("3"), EofTok])
         == Ok(Binary(Literal(Number(1)), Invalid, Binary(Literal(Number(1)), Less, Literal(Number(1)))))
  {
    TighterInsideLooser([Num("1"), Sym(TokenTypes.EqualEqual, "=="), Num("2"), Sym(TokenTypes.Less, "<"),
                         Num("3"), EofTok], EqualityLevel, ComparisonLevel);
  }

  /** `- true * false` is `(- true) * false`: the prefix binds tighter than the product. */
  lemma {:induction false} NegationBeforeProduct()
    ensures Parse([Sym(TokenTypes.Minus, "-"), Sym(TokenTypes.True, "true"), Sym(TokenTypes.Star, "*"),
                   Sym(TokenTypes.False, "false"), EofTok])
         == Ok(Binary(Unary(Minus, Literal(True)), Times, Literal(False)))
  {
    UnaryBeforeBinary([Sym(TokenTypes.Minus, "-"), Sym(TokenTypes.True, "true"), Sym(TokenTypes.Star, "*"),
                       Sym(TokenTypes.False, "false"), EofTok], FactorLevel);
  }

  /** `(true + false) * nil`. */
  lemma {:induction false} GroupedSumTimesNil()
    ensures Parse([Sym(TokenTypes.LeftParen, "("), Sym(TokenTypes.True, "true"),
                   Sym(TokenTypes.Plus, "+"), Sym(TokenTypes.False, "false"),
                   Sym(TokenTypes.RightParen, ")"), Sym(TokenTypes.Star, "*"),
                   Sym(TokenTypes.Nil, "nil"), EofTok])
         == Ok(Binary(Grouping(Binary(Literal(True), Plus, Literal(False))), Times, Literal(Nil)))
  {
    GroupingOverridesPrecedence([Sym(TokenTypes.LeftParen, "("), Sym(TokenTypes.True, "true"),
                                 Sym(TokenTypes.Plus, "+"), Sym(TokenTypes.False, "false"),
                                 Sym(TokenTypes.RightParen, ")"), Sym(TokenTypes.Star, "*"),
                                 Sym(TokenTypes.Nil, "nil"), EofTok]);
  }

  /** `( true + false` with no `)`: the error is at `Eof` and no tree is returned. */
  lemma {:induction false} UnclosedGroupingFails()
    ensures Parse([Sym(TokenTypes.LeftParen, "("), Sym(TokenTypes.True, "true"),
                   Sym(TokenTypes.Plus, "+"), Sym(TokenTypes.False, "false"), EofTok])
         == Err(ParseError(EofTok, ExpectRightParen))
  {
    var toks := [Sym(TokenTypes.LeftParen, "("), Sym(TokenTypes.True, "true"),
                 Sym(TokenTypes.Plus, "+"), Sym(TokenTypes.False, "false"), EofTok];
    OperationAsExpression(toks, TermLevel, 1);
    UnclosedGroupFails(toks, 0);
  }

  /** An empty input has no expression: "Expect expression." at `Eof`. */
  lemma {:induction false} EmptyInputFails()
    ensures Parse([EofTok]) == Err(ParseError(EofTok, ExpectExpression))
  {
    NoOperandFails([EofTok], 0);
  }

  /** `- - true` nests the prefixes to the right. */
  lemma {:induction false} DoubleNegation()
    ensures Parse([Sym(TokenTypes.Minus, "-"), Sym(TokenTypes.Minus, "-"),
                   Sym(TokenTypes.True, "true"), EofTok])
         == Ok(Unary(Minus, Unary(Minus, Literal(True))))
  {
    var toks := [Sym(TokenTypes.Minus, "-"), Sym(TokenTypes.Minus, "-"),
                 Sym(TokenTypes.True, "true"), EofTok];
    var prefix := toks[..2];
    assert prefix == [toks[0], toks[1]];
    PrefixesParseRightNested(toks, prefix);
    assert prefix[1..][1..] == [];
    assert NestUnary(prefix[1..], Literal(True)) == Unary(Minus, Literal(True));
  }

  /**
   * `equality` as written never parses its first operand: on `1` it returns the
   * placeholder and consumes nothing, where the rule gives the literal.
   */
  lemma {:induction false} EqualityAsWrittenSkipsOperand()
    ensures EqualityAsWritten([Num("1"), EofTok], 0) == Outcome(Ok(Expr.Equality), 0)
    ensures ParseLevel([Num("1"), EofTok], EqualityLevel, 0) == Outcome(Ok(Literal(Number(1))), 1)
  {
    AtomAtLevel([Num("1"), EofTok], EqualityLevel, 0);
  }

  // ------------------------------------------------------------ complete trees

  /** A successful expression contains no placeholder node. */
  lemma {:induction false} ExpressionComplete(toks: seq<Token>, pos: nat)
    requires WellFormed(toks) && pos < |toks|
    ensures ParseExpression(toks, pos).result.Ok? ==> Complete(ParseExpression(toks, pos).result.value)
    decreases |toks| - pos, 12
  {
    LevelComplete(toks, EqualityLevel, pos);
  }

  /** A successful level contains no placeholder node. */
  lemma {:induction false} LevelComplete(toks: seq<Token>, lvl: Level, pos: nat)
    requires WellFormed(toks) && pos < |toks|
    ensures ParseLevel(toks, lvl, pos).result.Ok? ==> Complete(ParseLevel(toks, lvl, pos).result.value)
    decreases |toks| - pos, Rank(lvl)
  {
    var first := ParseOperand(toks, lvl, pos);
    OperandComplete(toks, lvl, pos);
    if first.result.Ok? {
      RestComplete(toks, lvl, first.result.value, first.next);
    }
  }

  /** A successful operand contains no placeholder node. */
  lemma {:induction false} OperandComplete(toks: seq<Token>, lvl: Level, pos: nat)
    requires WellFormed(toks) && pos < |toks|
    ensures ParseOperand(toks, lvl, pos).result.Ok? ==> Complete(ParseOperand(toks, lvl, pos).result.value)
    decreases |toks| - pos, Rank(lvl) - 1
  {
    match lvl
    case EqualityLevel => LevelComplete(toks, ComparisonLevel, pos);
    case ComparisonLevel => LevelComplete(toks, TermLevel, pos);
    case TermLevel => LevelComplete(toks, FactorLevel, pos);
    case FactorLevel => UnaryComplete(toks, pos);
  }

  /** The loop of a level folds complete operands onto a complete tree into a complete tree. */
  lemma {:induction false} RestComplete(toks: seq<Token>, lvl: Level, left: Expr, pos: nat)
    requires WellFormed(toks) && pos < |toks| && Complete(left)
    ensures ParseLevelRest(toks, lvl, left, pos).result.Ok? ==> Complete(ParseLevelRest(toks, lvl, left, pos).result.value)
    decreases |toks| - pos, Rank(lvl)
  {
    if MatchAt(toks, pos, Operators(lvl)) {
      var right := ParseOperand(toks, lvl, pos + 1);
      OperandComplete(toks, lvl, pos + 1);
      if right.result.Ok? {
        RestComplete(toks, lvl, Binary(left, OperatorFrom(toks[pos]), right.result.value), right.next);
      }
    }
  }

  /** A successful unary contains no placeholder node. */
  lemma {:induction false} UnaryComplete(toks: seq<Token>, pos: nat)
    requires WellFormed(toks) && pos < |toks|
    ensures ParseUnary(toks, pos).result.Ok? ==> Complete(ParseUnary(toks, pos).result.value)
    decreases |toks| - pos, 2
  {
    if MatchAt(toks, pos, UnaryOperators) {
      UnaryComplete(toks, pos + 1);
    } else {
      PrimaryComplete(toks, pos);
    }
  }

  /** A successful primary is a literal without a nested tree, or a grouping of a complete expression. */
  lemma {:induction false} PrimaryComplete(toks: seq<Token>, pos: nat)
    requires WellFormed(toks) && pos < |toks|
    ensures ParsePrimary(toks, pos).result.Ok? ==> Complete(ParsePrimary(toks, pos).result.value)
    decreases |toks| - pos, 1
  {
    if !MatchAt(toks, pos, [TokenTypes.False]) && !MatchAt(toks, pos, [TokenTypes.True])
       && !MatchAt(toks, pos, [TokenTypes.Nil]) && !MatchAt(toks, pos, [TokenTypes.Number, TokenTypes.String])
       && MatchAt(toks, pos, [TokenTypes.LeftParen])
    {
      ExpressionComplete(toks, pos + 1);
    }
  }

  /** Every tree that `parse` returns is complete. */
  lemma {:induction false} ParseIsComplete(toks: seq<Token>)
    requires WellFormed(toks)
    ensures Parse(toks).Ok? ==> Complete(Parse(toks).value)
  {
    ExpressionComplete(toks, 0);
  }

  /** The loop of a level keeps a placeholder that sits in its left-most leaf. */
  lemma {:induction false} RestKeepsPlaceholder(toks: seq<Token>, lvl: Level, left: Expr, pos: nat)
    requires WellFormed(toks) && pos < |toks| && !Complete(left)
    ensures ParseLevelRest(toks, lvl, left, pos).result.Ok? ==> !Complete(ParseLevelRest(toks, lvl, left, pos).result.value)
    decreases |toks| - pos
  {
    if MatchAt(toks, pos, Operators(lvl)) {
      var right := ParseOperand(toks, lvl, pos + 1);
      if right.result.Ok? {
        RestKeepsPlaceholder(toks, lvl, Binary(left, OperatorFrom(toks[pos]), right.result.value), right.next);
      }
    }
  }

  /** `equality` as written never returns a complete tree: its left-most leaf is the placeholder. */
  lemma {:induction false} EqualityAsWrittenIsIncomplete(toks: seq<Token>, pos: nat)
    requires WellFormed(toks) && pos < |toks|
    ensures EqualityAsWritten(toks, pos).result.Ok? ==> !Complete(EqualityAsWritten(toks, pos).result.value)
  {
    RestKeepsPlaceholder(toks, EqualityLevel, Expr.Equality, pos);
  }
}
