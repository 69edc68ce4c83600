/**
 * The scanner: a cursor over the source text that turns each punctuation
 * character into a token and ends the sequence with `Eof`.
 */
module Scanning {
  import opened Wrappers
  import opened TokenTypes
  import opened Tokens

  /** The ten punctuation characters the scanner classifies, in the order it tests them. */
  const PunctuationChars: string := "(){},.-+;*"

  /** The token type of a punctuation character; `None` for every other character. */
  function Punctuation(c: char): Option<TokenType>
  {
    match c
    case '(' => Some(LeftParen)
    case ')' => Some(RightParen)
    case '{' => Some(LeftBrace)
    case '}' => Some(RightBrace)
    case ',' => Some(Comma)
    case '.' => Some(Dot)
    case '-' => Some(Minus)
    case '+' => Some(Plus)
    case ';' => Some(Semicolon)
    case '*' => Some(Star)
    case _ => None
  }

  /** The character that spells a single-character token other than `/`. */
  function Spelling(t: TokenType): char
    requires CategoryOf(t) == SingleChar && t != Slash
  {
    match t
    case LeftParen => '(' case RightParen => ')' case LeftBrace => '{' case RightBrace => '}'
    case Comma => ',' case Dot => '.' case Minus => '-' case Plus => '+'
    case Semicolon => ';' case Star => '*'
  }

  /**
   * Exactly the ten punctuation characters are classified, each as a
   * single-character type other than `/` that is spelled by that character.
   */
  lemma PunctuationClassifies(c: char)
    ensures Punctuation(c).Some? <==> c in PunctuationChars
    ensures Punctuation(c).Some? ==>
      CategoryOf(Punctuation(c).value) == SingleChar && Punctuation(c).value != Slash
    ensures Punctuation(c).Some? ==> Spelling(Punctuation(c).value) == c
  {
  }

  /** Each of the ten token types is recognised from its own character. */
  lemma PunctuationRoundTrip(t: TokenType)
    requires CategoryOf(t) == SingleChar && t != Slash
    ensures Punctuation(Spelling(t)) == Some(t)
  {
  }

  /** The terminal token: empty lexeme and literal, on the scanner's line. */
  function EofToken(line: nat): Token
  {
    NewToken(Eof, "", "", line)
  }

  /**
   * What one step of the scanner emits for character `c`: a token whose lexeme
   * is that one character and whose literal is empty, or nothing at all.
   */
  function TokenFor(c: char, line: nat): (r: seq<Token>)
    ensures |r| <= 1 && (|r| == 1 <==> Punctuation(c).Some?)
    ensures |r| == 1 ==> r[0].tokenType == Punctuation(c).value && r[0].lexeme == [c]
    ensures |r| == 1 ==> r[0].literal == "" && r[0].line == line
  {
    match Punctuation(c)
    case Some(t) => [NewToken(t, [c], "", line)]
    case None => []
  }

  /** The tokens emitted for the characters `s`, before the final `Eof`. */
  function Lex(s: string, line: nat): (r: seq<Token>)
    ensures |r| <= |s|
  {
    if s == [] then [] else Lex(s[..|s| - 1], line) + TokenFor(s[|s| - 1], line)
  }

  /** The scanner has met a character it does not classify, scanning `s` from the left. */
  predicate Unexpected(s: string)
  {
    s != [] && (Unexpected(s[..|s| - 1]) || Punctuation(s[|s| - 1]).None?)
  }

  /** The error flag is set exactly when some character of `s` is not one the scanner classifies. */
  lemma {:induction false} UnexpectedMeansUnclassified(s: string)
    ensures Unexpected(s) <==> exists i :: 0 <= i < |s| && Punctuation(s[i]).None?
  {
    if s != [] {
      var p := s[..|s| - 1];
      UnexpectedMeansUnclassified(p);
      if exists i :: 0 <= i < |p| && Punctuation(p[i]).None? {
        var i :| 0 <= i < |p| && Punctuation(p[i]).None?;
        assert s[i] == p[i];
      }
      if exists i :: 0 <= i < |s| && Punctuation(s[i]).None? {
        var i :| 0 <= i < |s| && Punctuation(s[i]).None?;
        if i < |p| {
          assert p[i] == s[i];
        }
      }
    }
  }

  /** The complete result of scanning `source` with the line counter at `line`. */
  function Scan(source: string, line: nat): (r: seq<Token>)
    ensures 1 <= |r| <= |source| + 1 && r[|r| - 1] == EofToken(line)
    ensures r[..|r| - 1] == Lex(source, line)
  {
    Lex(source, line) + [EofToken(line)]
  }

  /** No character produces an `Eof` token. */
  lemma {:induction false} LexHasNoEof(s: string, line: nat)
    ensures forall i :: 0 <= i < |Lex(s, line)| ==> Lex(s, line)[i].tokenType != Eof
  {
    if s != [] {
      LexHasNoEof(s[..|s| - 1], line);
    }
  }

  /** A scan result ends with exactly one `Eof`, with empty lexeme and literal, on `line`. */
  lemma ScanEndsWithOneEof(source: string, line: nat)
    ensures |Scan(source, line)| >= 1
    ensures Scan(source, line)[|Scan(source, line)| - 1] == Token(Eof, "", "", line)
    ensures forall i :: 0 <= i < |Scan(source, line)| - 1 ==> Scan(source, line)[i].tokenType != Eof
  {
    LexHasNoEof(source, line);
  }

  /**
   * Every emitted token is a punctuation token whose lexeme is one character of `s`,
   * whose literal is empty and whose line is `line`.
   */
  lemma {:induction false} LexTokensAreOneCharacter(s: string, line: nat, i: nat)
    requires i < |Lex(s, line)|
    ensures Lex(s, line)[i].line == line && Lex(s, line)[i].literal == ""
    ensures |Lex(s, line)[i].lexeme| == 1 && Lex(s, line)[i].lexeme[0] in s
    ensures Punctuation(Lex(s, line)[i].lexeme[0]) == Some(Lex(s, line)[i].tokenType)
  {
    var p := s[..|s| - 1];
    if i < |Lex(p, line)| {
      LexTokensAreOneCharacter(p, line, i);
      assert Lex(s, line)[i] == Lex(p, line)[i];
      assert Lex(p, line)[i].lexeme[0] in p;
    }
  }

  /** Every token of a scan result carries the same line, so lines never decrease. */
  lemma ScanLinesAreConstant(source: string, line: nat, i: nat, j: nat)
    requires i <= j < |Scan(source, line)|
    ensures Scan(source, line)[i].line == line
    ensures Scan(source, line)[i].line <= Scan(source, line)[j].line
  {
    var r := Scan(source, line);
    if i < |r| - 1 { LexTokensAreOneCharacter(source, line, i); }
    if j < |r| - 1 { LexTokensAreOneCharacter(source, line, j); }
  }

  /**
   * On a source made only of punctuation, token `i` is the token for `source[i]`,
   * so the result has one token per character plus the final `Eof`.
   */
  lemma {:induction false} LexOfPunctuation(s: string, line: nat)
    requires forall i :: 0 <= i < |s| ==> Punctuation(s[i]).Some?
    ensures |Lex(s, line)| == |s|
    ensures forall i :: 0 <= i < |s| ==>
      Lex(s, line)[i] == Token(Punctuation(s[i]).value, [s[i]], "", line)
  {
    if s != [] {
      var p := s[..|s| - 1];
      var c := s[|s| - 1];
      LexOfPunctuation(p, line);
      var r := Lex(p, line);
      var t := Token(Punctuation(c).value, [c], "", line);
      assert Lex(s, line) == r + [t];
      assert Lex(s, line)[|p|] == t && s[|p|] == c;
      forall i | 0 <= i < |s|
        ensures Lex(s, line)[i] == Token(Punctuation(s[i]).value, [s[i]], "", line)
      {
        if i < |p| {
          assert Lex(s, line)[i] == r[i] && s[i] == p[i];
        } else {
          assert i == |p|;
        }
      }
    }
  }

  lemma ScanOfPunctuation(source: string, line: nat)
    requires forall i :: 0 <= i < |source| ==> Punctuation(source[i]).Some?
    ensures |Scan(source, line)| == |source| + 1
    ensures forall i :: 0 <= i < |source| ==>
      Scan(source, line)[i].tokenType == Punctuation(source[i]).value &&
      Scan(source, line)[i].lexeme == [source[i]]
  {
    LexOfPunctuation(source, line);
  }

  /**
   * Taking one more character of the source appends exactly that character's
   * tokens, and the prefix has an unclassified character iff the shorter one
   * had or the new character is one.
   */
  lemma {:induction false} ScanStep(source: string, k: nat, line: nat)
    requires k < |source|
    ensures Lex(source[..k + 1], line) == Lex(source[..k], line) + TokenFor(source[k], line)
    ensures Unexpected(source[..k + 1]) <==> Unexpected(source[..k]) || Punctuation(source[k]).None?
  {
    var done := source[..k + 1];
    assert done[..k] == source[..k];
    assert done[k] == source[k];
  }

  /** The scanner's cursor state and the tokens it has pushed so far. */
  class Scanner {
    const source: string
    var tokens: seq<Token>
    var start: nat
    var current: nat
    var line: nat
    /** Set when a character no rule classifies is met; stands for the error report. */
    var hadError: bool

    /** The tokens pushed so far are those of the characters before the cursor. */
    ghost predicate Valid()
      reads this
    {
      && start <= current <= |source|
      && line >= 1
      && tokens == Lex(source[..current], line)
      && hadError == Unexpected(source[..current])
    }

    constructor (source: string)
      ensures Valid()
      ensures this.source == source && tokens == []
      ensures start == 0 && current == 0 && line == 1 && !hadError
    {
      this.source := source;
      tokens := [];
      start := 0;
      current := 0;
      line := 1;
      hadError := false;
    }

    function IsAtEnd(): (r: bool)
      reads this
      ensures r <==> current >= |source|
    {
      current >= |source|
    }

    /** Consumes the character under the cursor and returns it. */
    method Advance() returns (c: char)
      requires current < |source|
      modifies this`current
      ensures current == old(current) + 1
      ensures c == source[old(current)]
    {
      current := current + 1;
      c := source[current - 1];
    }

    /** Pushes a token whose lexeme is the source text from `start` to `current`. */
    method AddToken(tokenType: TokenType, literal: string)
      requires start <= current <= |source|
      modifies this`tokens
      ensures tokens == old(tokens) + [Token(tokenType, source[start..current], literal, line)]
    {
      var text := source[start..current];
      tokens := tokens + [NewToken(tokenType, text, literal, line)];
    }

    /** Classifies one character; an unclassified one raises the error flag and emits nothing. */
    method ScanToken()
      requires Valid() && start == current && current < |source|
      modifies this`current, this`tokens, this`hadError
      ensures Valid()
      ensures current == old(current) + 1
      ensures tokens == old(tokens) + TokenFor(source[old(current)], line)
      ensures hadError == (old(hadError) || Punctuation(source[old(current)]).None?)
    {
      var c := Advance();
      match Punctuation(c) {
        case Some(t) =>
          assert source[start..current] == [c];
          AddToken(t, "");
        case None => hadError := true;
      }
      ScanStep(source, old(current), line);
    }

    /** Scans the rest of the source and returns the complete, `Eof`-terminated token sequence. */
    method ScanTokens() returns (result: seq<Token>)
      requires Valid()
      modifies this`start, this`current, this`tokens, this`hadError
      ensures result == tokens == Scan(source, line)
      ensures current == |source| && start <= current
      ensures hadError == Unexpected(source)
    {
      while !IsAtEnd()
        invariant Valid()
        decreases |source| - current
      {
        start := current;
        ScanToken();
      }
      assert source[..current] == source;
      tokens := tokens + [EofToken(line)];
      result := tokens;
    }
  }

  /**
   * `scan_tokens` as written, whose loop runs while the cursor IS at the end.
   * Below the end the loop is skipped and only `Eof` is pushed; at the end its
   * body reads the character under the cursor, which does not exist (`None`).
   */
  function ScanAsWritten(source: string, current: nat, tokens: seq<Token>, line: nat): (r: Option<seq<Token>>)
    ensures r.Some? <==> current < |source|
    ensures r.Some? ==> |r.value| == |tokens| + 1 && r.value[..|tokens|] == tokens
    ensures r.Some? ==> r.value[|tokens|] == EofToken(line)
  {
    if current >= |source| then None else Some(tokens + [EofToken(line)])
  }

  /** On a fresh scanner over "(" the written loop loses the parenthesis; over "" it fails. */
  lemma ScanAsWrittenLosesTokens()
    ensures Scan("(", 1) == [Token(LeftParen, "(", "", 1), EofToken(1)]
    ensures ScanAsWritten("(", 0, [], 1) == Some([EofToken(1)])
    ensures Scan("", 1) == [EofToken(1)] && ScanAsWritten("", 0, [], 1) == None
  {
    assert "("[..0] == [];
    assert [] + [EofToken(1)] == [EofToken(1)];
  }
}
