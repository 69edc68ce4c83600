/** The syntax tree the parser builds: expressions, literal values and operators. */
module Ast {
  import TokenTypes
  import opened Tokens

  /**
   * An expression owns its children, so every value is a finite tree. The four
   * payload-free variants are placeholders the tree never needs once the levels
   * build `Binary` nodes.
   */
  datatype Expr =
    | Equality
    | Comparison
    | Term
    | Factor
    | Binary(left: Expr, op: Operator, right: Expr)
    | Unary(op: Operator, operand: Expr)
    | Literal(value: Literal)
    | Grouping(inner: Expr)

  /** A literal value; `Number` is an unsigned machine integer in the source. */
  datatype Literal =
    | Number(n: nat)
    | String(s: string)
    | True
    | False
    | Nil
    | Expr(e: Expr)

  /** The operators a token can be converted to; `Invalid` stands for every other token. */
  datatype Operator =
    | Plus | Minus | Times | Divide | Bang | Equal
    | Greater | GreaterEqual | Less | LessEqual
    | Invalid

  /** The ten token types that have an operator of their own. */
  const OperatorTokenTypes: set<TokenTypes.TokenType> := {
    TokenTypes.Plus, TokenTypes.Minus, TokenTypes.Star, TokenTypes.Slash, TokenTypes.Bang,
    TokenTypes.Equal, TokenTypes.Greater, TokenTypes.GreaterEqual, TokenTypes.Less,
    TokenTypes.LessEqual
  }

  /** The token type each proper operator is written with. */
  function SpelledBy(op: Operator): (t: TokenTypes.TokenType)
    requires op != Invalid
    ensures t in OperatorTokenTypes
  {
    match op
    case Plus => TokenTypes.Plus
    case Minus => TokenTypes.Minus
    case Times => TokenTypes.Star
    case Divide => TokenTypes.Slash
    case Bang => TokenTypes.Bang
    case Equal => TokenTypes.Equal
    case Greater => TokenTypes.Greater
    case GreaterEqual => TokenTypes.GreaterEqual
    case Less => TokenTypes.Less
    case LessEqual => TokenTypes.LessEqual
  }

  /**
   * The conversion from a token type to an operator. It is total: the ten
   * operator types map to their operator (the one `SpelledBy` undoes), every
   * other type, `BangEqual` and `EqualEqual` among them, maps to `Invalid`.
   */
  function OperatorOf(t: TokenTypes.TokenType): (op: Operator)
    ensures op == Invalid <==> t !in OperatorTokenTypes
    ensures op != Invalid ==> SpelledBy(op) == t
  {
    match t
    case Plus => Plus
    case Minus => Minus
    case Star => Times
    case Slash => Divide
    case Bang => Bang
    case Equal => Equal
    case Greater => Greater
    case GreaterEqual => GreaterEqual
    case Less => Less
    case LessEqual => LessEqual
    case _ => Invalid
  }

  /** `Operator::from(&Token)`: the conversion of the token's dereferenced type. */
  function OperatorFrom(token: Token): (op: Operator)
    ensures op == OperatorOf(token.tokenType)
  {
    OperatorOf(TokenTypes.Deref(token.tokenType))
  }

  /** Every proper operator comes back from the type that spells it. */
  lemma OperatorRoundTrip(op: Operator)
    requires op != Invalid
    ensures OperatorOf(SpelledBy(op)) == op
  {
  }

  /** The ten operator types map to ten distinct operators. */
  lemma OperatorOfInjective(a: TokenTypes.TokenType, b: TokenTypes.TokenType)
    requires a in OperatorTokenTypes && b in OperatorTokenTypes && a != b
    ensures OperatorOf(a) != OperatorOf(b)
  {
    assert SpelledBy(OperatorOf(a)) == a;
    assert SpelledBy(OperatorOf(b)) == b;
  }

  /** The two equality operators have no operator of their own. */
  lemma EqualityTokensAreInvalid()
    ensures OperatorOf(TokenTypes.BangEqual) == Invalid
    ensures OperatorOf(TokenTypes.EqualEqual) == Invalid
  {
  }

  /** `Literal::from(&str)`: the text is ignored and the value is always the number 1. */
  function LiteralFrom(text: string): (v: Literal)
    ensures v == Number(1)
  {
    Number(1)
  }

  /** Number of nodes in a tree, counting the trees nested in literal values. */
  function Size(e: Expr): (n: nat)
    ensures n >= 1
  {
    match e
    case Binary(l, _, r) => 1 + Size(l) + Size(r)
    case Unary(_, x) => 1 + Size(x)
    case Literal(v) => 1 + LiteralSize(v)
    case Grouping(x) => 1 + Size(x)
    case _ => 1
  }

  function LiteralSize(v: Literal): (n: nat)
  {
    match v
    case Expr(e) => Size(e)
    case _ => 0
  }

  /** Each child of a node is a strictly smaller tree. */
  lemma ChildrenAreSmaller(e: Expr)
    ensures e.Binary? ==> Size(e.left) < Size(e) && Size(e.right) < Size(e)
    ensures e.Unary? ==> Size(e.operand) < Size(e)
    ensures e.Grouping? ==> Size(e.inner) < Size(e)
    ensures e.Literal? && e.value.Expr? ==> Size(e.value.e) < Size(e)
  {
  }

  /**
   * A finished tree: none of its nodes, down through the trees nested in
   * literal values, is one of the four payload-free level placeholders.
   */
  predicate Complete(e: Expr)
  {
    match e
    case Equality => false
    case Comparison => false
    case Term => false
    case Factor => false
    case Binary(l, _, r) => Complete(l) && Complete(r)
    case Unary(_, x) => Complete(x)
    case Literal(v) => !v.Expr? || Complete(v.e)
    case Grouping(x) => Complete(x)
  }
}
