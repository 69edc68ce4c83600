/**
 * The recursive-descent parser: a cursor over an `Eof`-terminated token
 * sequence. Every method leaves the cursor and returns the result that the
 * corresponding function of `Grammar` prescribes.
 */
module Parsing {
  import opened Wrappers
  import TokenTypes
  import opened Tokens
  import Ast
  import opened Grammar

  class Parser {
    const tokens: seq<Token>
    var current: nat

    /** The sequence ends in `Eof` and the cursor is inside it. */
    ghost predicate Valid()
      reads this
    {
      WellFormed(tokens) && current < |tokens|
    }

    constructor (tokens: seq<Token>)
      requires WellFormed(tokens)
      ensures Valid() && this.tokens == tokens && current == 0
    {
      this.tokens := tokens;
      current := 0;
    }

    /** The token under the cursor. */
    function Peek(): (t: Token)
      requires Valid()
      reads this
      ensures t == tokens[current]
    {
      tokens[current]
    }

    /** The token just before the cursor; the cursor must not be at the start. */
    function Previous(): (t: Token)
      requires Valid() && current > 0
      reads this
      ensures t == tokens[current - 1]
    {
      tokens[current - 1]
    }

    /** The cursor is on an `Eof`; it then cannot be advanced. */
    function IsAtEnd(): (r: bool)
      requires Valid()
      reads this
      ensures r <==> tokens[current].tokenType == TokenTypes.Eof
      ensures !r ==> current + 1 < |tokens|
    {
      Peek().tokenType == TokenTypes.Eof
    }

    /** False at `Eof`; otherwise whether the current token has type `t`. */
    function Check(t: TokenTypes.TokenType): (r: bool)
      requires Valid()
      reads this
      ensures r <==> CheckAt(tokens, current, t)
      ensures r ==> tokens[current].tokenType == t && current + 1 < |tokens|
    {
      if IsAtEnd() then false else Peek().tokenType == t
    }

    /**
     * Moves the cursor one token forward unless it is on `Eof`, and returns the
     * token before the cursor. That token exists only if the cursor is past the
     * start afterwards: `previous` subtracts one from an unsigned index.
     */
    method Advance() returns (t: Token)
      requires Valid() && (current > 0 || !IsAtEnd())
      modifies this
      ensures Valid()
      ensures current == if old(IsAtEnd()) then old(current) else old(current) + 1
      ensures t == tokens[current - 1]
    {
      if !IsAtEnd() {
        current := current + 1;
      }
      t := Previous();
    }

    /** Advances past the current token iff one of `types` passes `check`. */
    method Matching(types: seq<TokenTypes.TokenType>) returns (matched: bool)
      requires Valid()
      modifies this
      ensures Valid()
      ensures matched == MatchAt(tokens, old(current), types)
      ensures current == if matched then old(current) + 1 else old(current)
    {
      for i := 0 to |types|
        invariant current == old(current)
        invariant forall j :: 0 <= j < i ==> !CheckAt(tokens, current, types[j])
      {
        if Check(types[i]) {
          var skipped := Advance();
          return true;
        }
      }
      return false;
    }

    /** Consumes a token of type `t`, or fails with `message` at the current token. */
    method Consume(t: TokenTypes.TokenType, message: string) returns (r: Result<Token, ParseError>)
      requires Valid()
      modifies this
      ensures Valid()
      ensures CheckAt(tokens, old(current), t) ==>
        r == Ok(tokens[old(current)]) && current == old(current) + 1
      ensures !CheckAt(tokens, old(current), t) ==>
        r == Err(ParseError(tokens[old(current)], message)) && current == old(current)
    {
      if Check(t) {
        var token := Advance();
        return Ok(token);
      }
      return Err(ParseError(Peek(), message));
    }

    /** Parses one expression from the cursor; the result of the whole parse. */
    method Parse() returns (r: Result<Ast.Expr, ParseError>)
      requires Valid()
      modifies this
      ensures Valid() && old(current) <= current
      ensures Outcome(r, current) == ParseExpression(tokens, old(current))
    {
      r := Expression();
    }

    method Expression() returns (r: Result<Ast.Expr, ParseError>)
      requires Valid()
      modifies this
      ensures Valid() && old(current) <= current
      ensures Outcome(r, current) == ParseExpression(tokens, old(current))
      decreases |tokens| - current, 12
    {
      r := Equality();
    }

    /** equality -> comparison (("!=" | "==") comparison)* */
    method Equality() returns (r: Result<Ast.Expr, ParseError>)
      requires Valid()
      modifies this
      ensures Valid() && old(current) <= current
      ensures Outcome(r, current) == ParseLevel(tokens, EqualityLevel, old(current))
      decreases |tokens| - current, 10
    {
      var first := Comparison();
      if first.Err? {
        return first;
      }
      var expr := first.value;
      while true
        invariant Valid() && old(current) < current
        invariant ParseLevelRest(tokens, EqualityLevel, expr, current)
               == ParseLevel(tokens, EqualityLevel, old(current))
        decreases |tokens| - current
      {
        var matched := Matching([TokenTypes.BangEqual, TokenTypes.EqualEqual]);
        if !matched {
          return Ok(expr);
        }
        var operator := Previous();
        var right := Comparison();
        if right.Err? {
          return Err(right.error);
        }
        expr := Ast.Binary(expr, Ast.OperatorFrom(operator), right.value);
      }
    }

    /** comparison -> term ((">" | ">=" | "<" | "<=") term)* */
    method Comparison() returns (r: Result<Ast.Expr, ParseError>)
      requires Valid()
      modifies this
      ensures Valid() && old(current) <= current
      ensures Outcome(r, current) == ParseLevel(tokens, ComparisonLevel, old(current))
      decreases |tokens| - current, 8
    {
      var first := Term();
      if first.Err? {
        return first;
      }
      var expr := first.value;
      while true
        invariant Valid() && old(current) < current
        invariant ParseLevelRest(tokens, ComparisonLevel, expr, current)
               == ParseLevel(tokens, ComparisonLevel, old(current))
        decreases |tokens| - current
      {
        var matched := Matching([TokenTypes.Greater, TokenTypes.GreaterEqual,
                                 TokenTypes.Less, TokenTypes.LessEqual]);
        if !matched {
          return Ok(expr);
        }
        var operator := Previous();
        var right := Term();
        if right.Err? {
          return Err(right.error);
        }
        expr := Ast.Binary(expr, Ast.OperatorFrom(operator), right.value);
      }
    }

    /** term -> factor (("-" | "+") factor)* */
    method Term() returns (r: Result<Ast.Expr, ParseError>)
      requires Valid()
      modifies this
      ensures Valid() && old(current) <= current
      ensures Outcome(r, current) == ParseLevel(tokens, TermLevel, old(current))
      decreases |tokens| - current, 6
    {
      var first := Factor();
      if first.Err? {
        return first;
      }
      var expr := first.value;
      while true
        invariant Valid() && old(current) < current
        invariant ParseLevelRest(tokens, TermLevel, expr, current)
               == ParseLevel(tokens, TermLevel, old(current))
        decreases |tokens| - current
      {
        var matched := Matching([TokenTypes.Minus, TokenTypes.Plus]);
        if !matched {
          return Ok(expr);
        }
        var operator := Previous();
        var right := Factor();
        if right.Err? {
          return Err(right.error);
        }
        expr := Ast.Binary(expr, Ast.OperatorFrom(operator), right.value);
      }
    }

    /** factor -> unary (("/" | "*") unary)* */
    method Factor() returns (r: Result<Ast.Expr, ParseError>)
      requires Valid()
      modifies this
      ensures Valid() && old(current) <= current
      ensures Outcome(r, current) == ParseLevel(tokens, FactorLevel, old(current))
      decreases |tokens| - current, 4
    {
      var first := Unary();
      if first.Err? {
        return first;
      }
      var expr := first.value;
      while true
        invariant Valid() && old(current) < current
        invariant ParseLevelRest(tokens, FactorLevel, expr, current)
               == ParseLevel(tokens, FactorLevel, old(current))
        decreases |tokens| - current
      {
        var matched := Matching([TokenTypes.Slash, TokenTypes.Star]);
        if !matched {
          return Ok(expr);
        }
        var operator := Previous();
        var right := Unary();
        if right.Err? {
          return Err(right.error);
        }
        expr := Ast.Binary(expr, Ast.OperatorFrom(operator), right.value);
      }
    }

    /** unary -> ("!" | "-") unary | primary */
    method Unary() returns (r: Result<Ast.Expr, ParseError>)
      requires Valid()
      modifies this
      ensures Valid() && old(current) <= current
      ensures Outcome(r, current) == ParseUnary(tokens, old(current))
      decreases |tokens| - current, 2
    {
      var matched := Matching([TokenTypes.Bang, TokenTypes.Minus]);
      if matched {
        var operator := Previous();
        var right := Unary();
        if right.Err? {
          return Err(right.error);
        }
        return Ok(Ast.Unary(Ast.OperatorFrom(operator), right.value));
      }
      r := Primary();
    }

    /** primary -> "false" | "true" | "nil" | NUMBER | STRING | "(" expression ")" */
    method Primary() returns (r: Result<Ast.Expr, ParseError>)
      requires Valid()
      modifies this
      ensures Valid() && old(current) <= current
      ensures Outcome(r, current) == ParsePrimary(tokens, old(current))
      decreases |tokens| - current, 1
    {
      var matched := Matching([TokenTypes.False]);
      if matched {
        return Ok(Ast.Literal(Ast.False));
      }
      matched := Matching([TokenTypes.True]);
      if matched {
        return Ok(Ast.Literal(Ast.True));
      }
      matched := Matching([TokenTypes.Nil]);
      if matched {
        return Ok(Ast.Literal(Ast.Nil));
      }
      matched := Matching([TokenTypes.Number, TokenTypes.String]);
      if matched {
        return Ok(Ast.Literal(Ast.LiteralFrom(Previous().literal)));
      }
      matched := Matching([TokenTypes.LeftParen]);
      if matched {
        var inner := Expression();
        if inner.Err? {
          return inner;
        }
        var closing := Consume(TokenTypes.RightParen, ExpectRightParen);
        if closing.Err? {
          return Err(closing.error);
        }
        return Ok(Ast.Grouping(inner.value));
      }
      return Err(ParseError(Peek(), ExpectExpression));
    }

    /**
     * Error recovery: discards tokens until just after a `;`, just before a
     * `return`, or `Eof`.
     */
    method Synchronize()
      requires Valid() && (current > 0 || !IsAtEnd())
      modifies this
      ensures Valid() && old(current) <= current
      ensures current == Synchronized(tokens, old(current))
    {
      var skipped := Advance();
      while !IsAtEnd()
        invariant Valid() && old(current) <= current && current > 0
        invariant !IsAtEnd() ==> Synchronized(tokens, old(current)) == SyncFrom(tokens, current)
        invariant IsAtEnd() ==> Synchronized(tokens, old(current)) == current
        decreases |tokens| - current
      {
        if Previous().tokenType == TokenTypes.Semicolon {
          return;
        }
        match Peek().tokenType {
          case Return => return;
          case _ =>
        }
        skipped := Advance();
      }
    }
  }
}
