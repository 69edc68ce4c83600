/** A token: its category, the exact source text it came from, its literal text and its line. */
module Tokens {
  import opened TokenTypes

  /** Fields are immutable once built; `line` is unsigned, hence `nat`. */
  datatype Token = Token(tokenType: TokenType, lexeme: string, literal: string, line: nat)

  /** `Token::new`: every argument is stored unchanged in its own field. */
  function NewToken(tokenType: TokenType, lexeme: string, literal: string, line: nat): (t: Token)
    ensures t.tokenType == tokenType && t.lexeme == lexeme
    ensures t.literal == literal && t.line == line
  {
    Token(tokenType, lexeme, literal, line)
  }

  /** Two tokens built from different arguments are different tokens. */
  lemma NewTokenInjective(a1: TokenType, l1: string, v1: string, n1: nat,
                          a2: TokenType, l2: string, v2: string, n2: nat)
    requires NewToken(a1, l1, v1, n1) == NewToken(a2, l2, v2, n2)
    ensures a1 == a2 && l1 == l2 && v1 == v2 && n1 == n2
  {
  }

  /** The text `to_string` returns: the placeholders are part of the string, nothing is filled in. */
  const Unformatted: string := "{self.token_type} {lexeme} {literal}"

  /** `Token::to_string` as written: the same text for every token. */
  function ToString(t: Token): (s: string)
    ensures s == Unformatted
  {
    Unformatted
  }

  /** The name under which a token type is printed. */
  function TypeName(t: TokenType): (s: string)
    ensures |s| > 0
  {
    match t
    case LeftParen => "LeftParen" case RightParen => "RightParen"
    case LeftBrace => "LeftBrace" case RightBrace => "RightBrace"
    case Comma => "Comma" case Dot => "Dot" case Minus => "Minus" case Plus => "Plus"
    case Semicolon => "Semicolon" case Slash => "Slash" case Star => "Star"
    case Bang => "Bang" case BangEqual => "BangEqual" case Equal => "Equal"
    case EqualEqual => "EqualEqual" case Greater => "Greater"
    case GreaterEqual => "GreaterEqual" case Less => "Less" case LessEqual => "LessEqual"
    case Identifier => "Identifier" case String => "String" case Number => "Number"
    case And => "And" case Class => "Class" case Else => "Else" case False => "False"
    case Fun => "Fun" case For => "For" case If => "If" case Nil => "Nil" case Or => "Or"
    case Print => "Print" case Return => "Return" case Super => "Super" case This => "This"
    case True => "True" case Var => "Var" case While => "While" case Eof => "Eof"
  }

  /** The evidently intended `to_string`: type name, lexeme and literal, separated by spaces. */
  function Describe(t: Token): (s: string)
    ensures |s| == |TypeName(t.tokenType)| + 1 + |t.lexeme| + 1 + |t.literal|
    ensures s[..|TypeName(t.tokenType)|] == TypeName(t.tokenType)
    ensures s[|TypeName(t.tokenType)|] == ' ' && s[|TypeName(t.tokenType)| + 1 + |t.lexeme|] == ' '
    ensures s[|TypeName(t.tokenType)| + 1..|TypeName(t.tokenType)| + 1 + |t.lexeme|] == t.lexeme
    ensures s[|s| - |t.literal|..] == t.literal
  {
    TypeName(t.tokenType) + " " + t.lexeme + " " + t.literal
  }

  /** As written, `to_string` cannot tell `+` from `-`. */
  lemma ToStringLosesTheToken()
    ensures ToString(Token(Plus, "+", "", 1)) == ToString(Token(Minus, "-", "", 1))
    ensures Describe(Token(Plus, "+", "", 1)) != Describe(Token(Minus, "-", "", 1))
  {
    assert Describe(Token(Plus, "+", "", 1)) == "Plus + ";
    assert Describe(Token(Minus, "-", "", 1)) == "Minus - ";
  }

  /** The intended description tells apart two tokens of one type and literal whose lexemes differ. */
  lemma DescribeShowsLexeme(a: Token, b: Token)
    requires a.tokenType == b.tokenType && a.literal == b.literal
    requires a.lexeme != b.lexeme
    ensures Describe(a) != Describe(b)
  {
    var n := |TypeName(a.tokenType)|;
    if |a.lexeme| == |b.lexeme| {
      assert Describe(a)[n + 1..n + 1 + |a.lexeme|] == a.lexeme;
      assert Describe(b)[n + 1..n + 1 + |b.lexeme|] == b.lexeme;
    } else {
      assert |Describe(a)| != |Describe(b)|;
    }
  }
}
