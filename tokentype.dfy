/** The lexical categories of Lox: a closed, payload-free enumeration. */
module TokenTypes {

  datatype TokenType =
    // single-character tokens
    | LeftParen | RightParen | LeftBrace | RightBrace
    | Comma | Dot | Minus | Plus | Semicolon | Slash | Star
    // one- or two-character tokens
    | Bang | BangEqual | Equal | EqualEqual
    | Greater | GreaterEqual | Less | LessEqual
    // literals
    | Identifier | String | Number
    // keywords
    | And | Class | Else | False | Fun | For | If | Nil | Or
    | Print | Return | Super | This | True | Var | While
    // end of input
    | Eof

  /** The five groups the declaration is divided into by its comments. */
  datatype Category = SingleChar | OneOrTwoChar | LiteralKind | Keyword | EndOfInput

  function CategoryOf(t: TokenType): Category
  {
    match t
    case LeftParen | RightParen | LeftBrace | RightBrace
      | Comma | Dot | Minus | Plus | Semicolon | Slash | Star => SingleChar
    case Bang | BangEqual | Equal | EqualEqual
      | Greater | GreaterEqual | Less | LessEqual => OneOrTwoChar
    case Identifier | String | Number => LiteralKind
    case And | Class | Else | False | Fun | For | If | Nil | Or
      | Print | Return | Super | This | True | Var | While => Keyword
    case Eof => EndOfInput
  }

  /** The variant declared at position `i` (0-based). */
  function FromOrdinal(i: nat): TokenType
    requires i < 39
  {
    match i
    case 0 => LeftParen case 1 => RightParen case 2 => LeftBrace case 3 => RightBrace
    case 4 => Comma case 5 => Dot case 6 => Minus case 7 => Plus case 8 => Semicolon
    case 9 => Slash case 10 => Star
    case 11 => Bang case 12 => BangEqual case 13 => Equal case 14 => EqualEqual
    case 15 => Greater case 16 => GreaterEqual case 17 => Less case 18 => LessEqual
    case 19 => Identifier case 20 => String case 21 => Number
    case 22 => And case 23 => Class case 24 => Else case 25 => False case 26 => Fun
    case 27 => For case 28 => If case 29 => Nil case 30 => Or case 31 => Print
    case 32 => Return case 33 => Super case 34 => This case 35 => True case 36 => Var
    case 37 => While
    case _ => Eof
  }

  /** Position of a variant in the declaration. */
  function Ordinal(t: TokenType): (i: nat)
    ensures i < 39 && FromOrdinal(i) == t
  {
    match t
    case LeftParen => 0 case RightParen => 1 case LeftBrace => 2 case RightBrace => 3
    case Comma => 4 case Dot => 5 case Minus => 6 case Plus => 7 case Semicolon => 8
    case Slash => 9 case Star => 10
    case Bang => 11 case BangEqual => 12 case Equal => 13 case EqualEqual => 14
    case Greater => 15 case GreaterEqual => 16 case Less => 17 case LessEqual => 18
    case Identifier => 19 case String => 20 case Number => 21
    case And => 22 case Class => 23 case Else => 24 case False => 25 case Fun => 26
    case For => 27 case If => 28 case Nil => 29 case Or => 30 case Print => 31
    case Return => 32 case Super => 33 case This => 34 case True => 35 case Var => 36
    case While => 37
    case Eof => 38
  }

  /** Numbering the variants and reading them back gives the number started from. */
  lemma OrdinalRoundTrip(i: nat)
    requires i < 39
    ensures Ordinal(FromOrdinal(i)) == i
  {
  }

  /** The enumeration is closed and has exactly 39 variants: ordinals 0..38 name each once. */
  lemma ExactlyThirtyNineVariants(i: nat, j: nat)
    requires i < 39 && j < 39 && i != j
    ensures FromOrdinal(i) != FromOrdinal(j)
  {
    OrdinalRoundTrip(i);
    OrdinalRoundTrip(j);
  }

  /** Number of ordinals below `n` whose variant falls in category `c`. */
  function CountCategory(n: nat, c: Category): (k: nat)
    requires n <= 39
    ensures k <= n
  {
    if n == 0 then 0
    else CountCategory(n - 1, c) + (if CategoryOf(FromOrdinal(n - 1)) == c then 1 else 0)
  }

  /** Counting over a block of ordinals, all of one category, adds the block's length. */
  lemma {:induction false} CountBlock(lo: nat, hi: nat, c: Category)
    requires lo <= hi <= 39
    requires forall i :: lo <= i < hi ==> CategoryOf(FromOrdinal(i)) == c
    ensures CountCategory(hi, c) == CountCategory(lo, c) + (hi - lo)
    decreases hi - lo
  {
    if lo < hi {
      CountBlock(lo, hi - 1, c);
    }
  }

  /** Counting over a block of ordinals, none of category `c`, adds nothing. */
  lemma {:induction false} SkipBlock(lo: nat, hi: nat, c: Category)
    requires lo <= hi <= 39
    requires forall i :: lo <= i < hi ==> CategoryOf(FromOrdinal(i)) != c
    ensures CountCategory(hi, c) == CountCategory(lo, c)
    decreases hi - lo
  {
    if lo < hi {
      SkipBlock(lo, hi - 1, c);
    }
  }

  /** The comments cut the declaration into consecutive blocks [0,11), [11,19), [19,22), [22,38), [38,39). */
  lemma CategoryBlocks(i: nat)
    requires i < 39
    ensures CategoryOf(FromOrdinal(i)) ==
      if i < 11 then SingleChar else if i < 19 then OneOrTwoChar
      else if i < 22 then LiteralKind else if i < 38 then Keyword else EndOfInput
  {
  }

  /** The category comments partition the 39 variants as 11 + 8 + 3 + 16 + 1. */
  lemma CategorySizes()
    ensures CountCategory(39, SingleChar) == 11
    ensures CountCategory(39, OneOrTwoChar) == 8
    ensures CountCategory(39, LiteralKind) == 3
    ensures CountCategory(39, Keyword) == 16
    ensures CountCategory(39, EndOfInput) == 1
  {
    CategorySize(SingleChar, 0, 11);
    CategorySize(OneOrTwoChar, 11, 19);
    CategorySize(LiteralKind, 19, 22);
    CategorySize(Keyword, 22, 38);
    CategorySize(EndOfInput, 38, 39);
  }

  lemma CategorySize(c: Category, lo: nat, hi: nat)
    requires (c, lo, hi) in {(SingleChar, 0, 11), (OneOrTwoChar, 11, 19), (LiteralKind, 19, 22),
                             (Keyword, 22, 38), (EndOfInput, 38, 39)}
    ensures CountCategory(39, c) == hi - lo
  {
    forall i | 0 <= i < 39 { CategoryBlocks(i); }
    BlockSizes(c, lo, hi);
  }

  /** A category that occupies exactly the ordinals [lo, hi) counts hi - lo variants. */
  lemma BlockSizes(c: Category, lo: nat, hi: nat)
    requires lo <= hi <= 39
    requires forall i :: 0 <= i < 39 ==> (CategoryOf(FromOrdinal(i)) == c <==> lo <= i < hi)
    ensures CountCategory(39, c) == hi - lo
  {
    SkipBlock(0, lo, c);
    CountBlock(lo, hi, c);
    SkipBlock(hi, 39, c);
  }

  /** `Eof` is the only variant in the end-of-input category. */
  lemma EofIsTheOnlyTerminal(t: TokenType)
    ensures CategoryOf(t) == EndOfInput <==> t == Eof
  {
  }

  /** `Deref` hands back the value it is applied to. */
  function Deref(t: TokenType): (r: TokenType)
    ensures r == t
  {
    t
  }
}
