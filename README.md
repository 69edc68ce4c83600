# Lox front end: scanner and expression parser

This project models the front end of a Lox interpreter written in Rust. It
verifies the model in Dafny. The four parts are:

- `TokenType`: a closed enumeration of 39 lexical categories.
- `Token`: a category, a lexeme, a literal text and a line.
- `Scanner`: a cursor over the source text. It turns each of ten punctuation
  characters into a token and ends the sequence with `Eof`.
- `Parser`: a recursive-descent parser over the token sequence. It builds
  `Expr` trees through six levels: equality, comparison, term, factor, unary
  and primary.

Files and modules:

- `wrappers.dfy` (`Wrappers`): `Option` and `Result`.
- `tokentype.dfy` (`TokenTypes`): the enumeration, its numbering, its five
  commented categories and `Deref`.
- `token.dfy` (`Tokens`): the token record, `Token::new` and `to_string`.
- `expr.dfy` (`Ast`): the `Expr`, `Literal` and `Operator` datatypes, and the
  two `From` conversions.
- `scanner.dfy` (`Scanning`): a specification of what the scanner emits
  (`Lex`, `Scan`) and the imperative `Scanner` class. The class has the
  source's fields (`source`, `tokens`, `start`, `current`, `line`) and is proved
  to produce `Scan(source, line)`.
- `grammar.dfy` (`Grammar`): the grammar as pure functions of a token sequence
  and a cursor position. Each function returns the tree or the syntax error,
  and the position after it. `synchronize` is modelled there too.
- `parser.dfy` (`Parsing`): the imperative `Parser` class. It has a token
  sequence and a mutable `current` cursor. Every method is proved to leave the
  cursor where the matching `Grammar` function says, and to return the same
  result.
- `grammar_facts.dfy` (`GrammarFacts`): theorems about the grammar. They cover
  left associativity at every binary level, right-nested unary prefixes,
  precedence between every pair of binary levels and of a prefix over every
  binary level, grouping, error messages and positions, and worked examples on
  concrete token sequences.

The Rust source is unfinished, and several functions in the parser and the
scanner would not compile. The model follows the evident intent and records
each deviation:

- `scan_tokens` loops `while self.is_at_end()` (src/scanner.rs:24). The model
  loops while the cursor is *not* at the end, as the body requires. The
  as-written loop is kept as `ScanAsWritten`; see Findings.
- The `match` of `scan_token` covers only ten characters (src/scanner.rs:39-50).
  This model assumes that any other character emits no token, that scanning
  goes on, and that it raises the `hadError` flag. The flag stands for the
  error report.
- `equality` starts from `Expr::new()` (src/parser.rs:40). Its loop parses
  each right operand with `self.comparison()` (src/parser.rs:44), and every
  other level starts from the level its loop uses. The model's `Equality`
  starts from `comparison`. The as-written `EqualityAsWritten` is in
  Findings.
- `factor` has no final `expr` (src/parser.rs:87). The model's `Factor` returns
  the folded tree, as the other levels do.
- `matching` takes a list, but `comparison`, `term`, `factor`, `unary` and
  `primary` pass separate arguments (src/parser.rs:54-59). Every caller in the
  model passes a sequence of types.
- `advance` updates `current` through `&self` (src/parser.rs:159). In the model
  `current` is a mutable field of the class, and the methods declare
  `modifies this`.
- `parse` returns the error where an `Expr` is expected (src/parser.rs:24).
  Every parsing method of the model returns `Result<Expr, ParseError>`. An
  error aborts the whole parse.
- `consume` has no error path (src/parser.rs:138-147). The model returns
  `Err(ParseError(peek(), message))`, which is the error `primary` gives to
  `expect` for a missing `)`.

Two places where this code is narrower than the usual Lox front end, and the
model follows the code:

- The usual Lox scanner also handles comments, strings, numbers, identifiers
  and two-character operators such as `!=` and `<=`. This scanner classifies
  only the ten punctuation characters, and so does the model.
- The usual `Literal::from` keeps the number or string it is given. This one
  maps every text to `Number(1)`, and there is no floating-point number.

## Model

| member | source | states |
|---|---|---|
| TokenTypes.Ordinal | src/tokentype.rs:6-51 | every variant has a position below 39 in the declaration that names it back, so the enumeration is closed |
| TokenTypes.OrdinalRoundTrip | src/tokentype.rs:6-51 | numbering the variant at position `i` gives back `i` |
| TokenTypes.ExactlyThirtyNineVariants | src/tokentype.rs:6-51 | positions 0..38 name 39 pairwise distinct variants |
| TokenTypes.CategoryBlocks | src/tokentype.rs:7-50 | the five category comments cut the declaration into the consecutive blocks [0,11), [11,19), [19,22), [22,38) and [38,39) |
| TokenTypes.CategorySizes | src/tokentype.rs:7-50 | counting the variants of each category gives 11 single-character, 8 one-or-two-character, 3 literal, 16 keyword and 1 end-of-input variant |
| TokenTypes.EofIsTheOnlyTerminal | src/tokentype.rs:49-50 | a variant is in the end-of-input category iff it is `Eof` |
| TokenTypes.Deref | src/tokentype.rs:53-58 | `deref` is the identity |
| Tokens.NewToken | src/token.rs:15-22 | `Token::new` stores each argument unchanged in its own field |
| Tokens.NewTokenInjective | src/token.rs:15-22 | two tokens built from different arguments are different, so no field is lost or shared |
| Tokens.ToString | src/token.rs:24-26 | `to_string` as written returns the same uninterpolated text for every token |
| Tokens.ToStringLosesTheToken | src/token.rs:24-26 | as written, `+` and `-` get the same string, while the intended description tells them apart |
| Tokens.Describe | src/token.rs:24-26 | the intended text: the type's name, a space, the lexeme, a space and the literal, in this order. The length is the sum of the parts plus two, and the two separators sit right after the name and right after the lexeme |
| Tokens.DescribeShowsLexeme | src/token.rs:24-26 | the intended text of two tokens with the same type and literal but different lexemes differs |
| Ast.SpelledBy | src/expr.rs:68-77 | each of the ten proper operators has the token type it is converted from |
| Ast.OperatorOf | src/expr.rs:65-80 | the conversion is total: `Invalid` exactly for the token types outside the ten listed, and otherwise the operator that `SpelledBy` maps back to the type |
| Ast.OperatorFrom | src/expr.rs:65-67 | converting a token converts its dereferenced type |
| Ast.OperatorRoundTrip | src/expr.rs:68-77 | every proper operator comes back from the type that spells it |
| Ast.OperatorOfInjective | src/expr.rs:68-77 | the ten listed types map to ten distinct operators |
| Ast.EqualityTokensAreInvalid | src/expr.rs:78 | `BangEqual` and `EqualEqual` fall through to `Invalid` |
| Ast.LiteralFrom | src/expr.rs:41-48 | every text becomes `Number(1)` |
| Ast.Size | src/expr.rs:18-37 | every tree, with the trees nested in literal values, has a finite node count of at least one |
| Ast.ChildrenAreSmaller | src/expr.rs:23-27 | every child of a `Binary`, `Unary`, `Grouping` or nested literal is a strictly smaller tree |
| Scanning.Punctuation | src/scanner.rs:39-50 | the ten match arms, and `None` for every other character; `PunctuationClassifies` states its properties |
| Scanning.PunctuationClassifies | src/scanner.rs:39-50 | exactly the ten characters `( ) { } , . - + ; *` are classified, each as a single-character type other than `/`, whose spelling is that character |
| Scanning.PunctuationRoundTrip | src/scanner.rs:40-49 | each of the ten types is recognised from its own character |
| Scanning.TokenFor | src/scanner.rs:37-50 | one character yields at most one token, and exactly one iff it is classified. That token has the character's type, the character as its lexeme, an empty literal and the scanner's line |
| Scanning.Lex | src/scanner.rs:23-27 | the scan emits at most one token per character |
| Scanning.UnexpectedMeansUnclassified | src/scanner.rs:37-50 | the error flag's condition holds iff some character of the source is none of the ten |
| Scanning.Scan | src/scanner.rs:23-31 | the result is the emitted tokens followed by one final `Eof` token at the scanner's line; it has at most one token per character plus that `Eof` |
| Scanning.ScanStep | src/scanner.rs:24-27 | one turn of the loop extends the emitted tokens by exactly the token of the next character. The error condition becomes true iff it was true before or that character is unclassified |
| Scanning.LexHasNoEof | src/scanner.rs:40-49 | no character produces an `Eof` token |
| Scanning.ScanEndsWithOneEof | src/scanner.rs:29 | a scan result ends with exactly one `Eof` token, whose lexeme and literal are empty and whose line is the scanner's line |
| Scanning.LexTokensAreOneCharacter | src/scanner.rs:58-60 | every emitted token has an empty literal, the scanner's line and, as its lexeme, the one character of the source it was classified from |
| Scanning.ScanLinesAreConstant | src/scanner.rs:58-60 | every token of a scan result carries the same line, so lines never decrease |
| Scanning.LexOfPunctuation | src/scanner.rs:37-50 | on a source whose every character is classified, there is one token per character, and token `i` is the token of character `i` |
| Scanning.ScanOfPunctuation | src/scanner.rs:23-31 | on such a source the result has one token per character plus `Eof`, and token `i` has the type and lexeme of character `i` |
| Scanning.ScanAsWritten | src/scanner.rs:23-31 | the loop as written (`while self.is_at_end()`) has a result iff the cursor starts before the end of the source. The result is then the old tokens plus one `Eof`, and no character is scanned |
| Scanning.ScanAsWrittenLosesTokens | src/scanner.rs:24 | the as-written loop turns `(` into `Eof` alone and has no result on the empty source, where the intended scan gives `( Eof` and `Eof` |
| Scanning.Scanner.constructor | src/scanner.rs:13-21 | a new scanner has no tokens, both cursors at 0 and line 1 |
| Scanning.Scanner.IsAtEnd | src/scanner.rs:33-35 | at the end iff `current >= |source|` |
| Scanning.Scanner.Advance | src/scanner.rs:53-56 | returns the character at the old cursor and moves the cursor by exactly one |
| Scanning.Scanner.AddToken | src/scanner.rs:58-61 | pushes one token whose lexeme is `source[start..current]`, with the given type and literal and the scanner's line, and changes nothing else |
| Scanning.Scanner.ScanToken | src/scanner.rs:37-51 | consumes one character and appends exactly the token that `TokenFor` prescribes for it; an unclassified character raises the error flag |
| Scanning.Scanner.ScanTokens | src/scanner.rs:23-31 | the loop terminates with the cursor at the end of the source and returns `Scan(source, line)`; the error flag is set iff some character is unclassified |
| Grammar.CheckNeverAtEof | src/parser.rs:149-155 | `check` is false at `Eof`, so a successful check is never of `Eof` and leaves a token after the cursor |
| Grammar.MatchIsSomeCheck | src/parser.rs:127-136 | `matching` succeeds iff `check` succeeds for some listed type |
| Grammar.Parse | src/parser.rs:21-26 | a failed parse reports a token of the input and one of the two messages (`ParseIsComplete` covers the successful parse) |
| Grammar.ParseExpression | src/parser.rs:28-30 | the cursor stays on the sequence and never moves back; a success consumes a token; an error is reported at the token under the cursor with one of the two messages |
| Grammar.ParseLevel | src/parser.rs:51-88 | the same for each binary level: one operand of the next tighter level, then the level's loop |
| Grammar.ParseOperand | src/parser.rs:51-88 | each binary level takes its operands from the next tighter level, and factor takes them from unary; the same progress guarantee holds |
| Grammar.ParseLevelRest | src/parser.rs:54-63 | the loop of a level never moves the cursor back, and its errors are reported at the cursor |
| Grammar.ParseUnary | src/parser.rs:90-98 | the progress guarantee for `unary` |
| Grammar.ParsePrimary | src/parser.rs:101-125 | the progress guarantee for `primary` |
| Grammar.EqualityAsWritten | src/parser.rs:39-49 | `equality` as written never moves the cursor back, and with no `!=` or `==` under the cursor it returns the placeholder and consumes nothing |
| Grammar.SyncFrom | src/parser.rs:189-207 | the loop of `synchronize` stops on the sequence, at or after where it starts, at a position that is `Eof`, follows a `;` or holds `return` |
| Grammar.SyncFromFindsFirstBoundary | src/parser.rs:189-207 | no such position lies between the start and where the loop stops, so it stops at the first one |
| Grammar.Synchronized | src/parser.rs:186-208 | `synchronize` stays on the sequence and never moves back; off `Eof`, it moves at least one token |
| Grammar.SynchronizeStopsAtBoundary | src/parser.rs:186-208 | `synchronize` stays put at `Eof`. Elsewhere it moves at least one token and stops at the first boundary after the start |
| GrammarFacts.PrimaryOfAtom | src/parser.rs:102-113 | `false`, `true`, `nil`, numbers and strings become their literal and consume exactly one token |
| GrammarFacts.PrimaryRejects | src/parser.rs:124 | every other token except `(`, `Eof` included, fails with "Expect expression." at that token |
| GrammarFacts.PrimaryGrouping | src/parser.rs:114-122 | `(` followed by an expression and `)` becomes a `Grouping`; without the `)` the error "Expected ')' after expression" is at the token where it was expected |
| GrammarFacts.AtomAtLevel | src/parser.rs:51-98 | an atom followed by a token that this level and the tighter ones do not fold parses at that level as its literal |
| GrammarFacts.AtomAsOperand | src/parser.rs:51-98 | the same for the operand of a level; only the tighter levels' operators matter |
| GrammarFacts.LooserLevelsAgree | src/parser.rs:42-48 | a level's result followed by `Eof`, `)` or any other token that no level folds is also the result of every looser level |
| GrammarFacts.RestContinues | src/parser.rs:71-75 | one turn of a level's loop: an operator and a successful operand become a new `Binary` root over the tree so far |
| GrammarFacts.RestStops | src/parser.rs:71-77 | the loop stops at the first token that is not one of the level's operators and returns the tree so far |
| GrammarFacts.OperatorsAreSeparate | src/parser.rs:42-87 | no level's operator is `Eof` or an operator of a tighter level, and only `-` is both binary and prefix |
| GrammarFacts.TighterLevelsNest | src/parser.rs:51-88 | a token that no level tighter than `outer` folds is neither an operator of a tighter level `inner` nor folded by a level tighter than `inner` |
| GrammarFacts.EofIsNoOperator | src/parser.rs:42-87 | no level folds `Eof` |
| GrammarFacts.ChainOperand | src/parser.rs:51-87 | the start of a chain is an atom, and the token after it is not an operator of a tighter level |
| GrammarFacts.ChainStep | src/parser.rs:71-75 | one turn of a level's loop over a chain adds the next atom to the left-nested tree |
| GrammarFacts.ChainAtItsLevel | src/parser.rs:51-87 | a chain `atom (op atom)* Eof` of one level's operators is parsed whole by that level, into the left-nested tree of all its atoms |
| GrammarFacts.LevelIsLeftAssociative | src/parser.rs:51-87 | the same chain is the whole parse and the result of `parse`: repeated operators of one level associate to the left, for chains of any length and at every binary level |
| GrammarFacts.TwoOperatorsNestLeft | src/parser.rs:68-77 | `a op b op c` is `(a op b) op c` |
| GrammarFacts.UnaryNestsRight | src/parser.rs:90-98 | prefix operators before an atom nest to the right, the first one outermost |
| GrammarFacts.PrefixesParseRightNested | src/parser.rs:90-98 | the parse of `prefix atom Eof` is that right-nested tree |
| GrammarFacts.ErrorsPropagate | src/parser.rs:80-98 | a failing `unary` makes every binary level fail with the same error at the same position |
| GrammarFacts.SingleOperation | src/parser.rs:80-87 | `a op b`, followed by a token the level does not fold, is one `Binary` node of that level |
| GrammarFacts.TighterLevelIsOperand | src/parser.rs:51-88 | the result of a tighter level is also the operand of a looser one, when the token after it is not an operator of any level between them |
| GrammarFacts.AtomThenOperand | src/parser.rs:51-88 | `a op x`, with `x` the operand parsed after `op` and followed by a token no level folds, is the whole parse `a op x` |
| GrammarFacts.OperandThenAtomAtLevel | src/parser.rs:51-88 | `x op a`, with `x` the first operand of the level and `op` of that level, followed by a token this level and the tighter ones do not fold, is one node at that level |
| GrammarFacts.OperandThenAtom | src/parser.rs:51-88 | `x op a Eof` is the whole parse `x op a` |
| GrammarFacts.TighterInsideLooser | src/parser.rs:51-88 | precedence for every pair of binary levels: in `a op1 b op2 c` with `op2` of the tighter level, the tree is `a op1 (b op2 c)` |
| GrammarFacts.TighterBeforeLooser | src/parser.rs:51-88 | the mirror, for every pair of binary levels: in `a op2 b op1 c` with `op2` of the tighter level, the tree is `(a op2 b) op1 c` |
| GrammarFacts.UnaryBeforeBinary | src/parser.rs:80-98 | a prefix binds tighter than every binary level: `- a op b` and `! a op b` are `(- a) op b` and `(! a) op b` |
| GrammarFacts.OperationAsExpression | src/parser.rs:28-88 | `a op b` before `Eof` or `)` is a whole expression, whatever the level of `op` |
| GrammarFacts.GroupedOperation | src/parser.rs:114-122 | `( a op b )` is a factor operand: the grouping of that node |
| GrammarFacts.GroupingOverridesPrecedence | src/parser.rs:80-122 | `(a + b) * c` makes the grouped sum the left operand of the product |
| GrammarFacts.UnclosedGroupFails | src/parser.rs:114-120 | a `(` whose inner expression is not followed by `)` makes the whole expression fail with "Expected ')' after expression" at the token after the inner expression |
| GrammarFacts.NoOperandFails | src/parser.rs:124 | a token that can start no expression makes the whole expression fail with "Expect expression." at that token |
| GrammarFacts.OneMinusTwoMinusThree | src/parser.rs:68-77 | `1 - 2 - 3` parses to `(1 - 2) - 3`, and every number is `Number(1)` |
| GrammarFacts.TrueMinusFalseMinusNil | src/parser.rs:68-77 | `true - false - nil` parses to `(true - false) - nil` |
| GrammarFacts.EqualityNodesCarryInvalid | src/parser.rs:42-45 | `1 == 2` parses to a `Binary` node whose operator is `Invalid` |
| GrammarFacts.OnePlusTwoTimesThree | src/parser.rs:68-88 | `1 + 2 * 3` parses to `1 + (2 * 3)` |
| GrammarFacts.TrueTimesFalsePlusNil | src/parser.rs:68-88 | `true * false + nil` parses to `(true * false) + nil` |
| GrammarFacts.EqualityOfComparison | src/parser.rs:39-66 | `1 == 2 < 3` parses to `1 == (2 < 3)` |
| GrammarFacts.NegationBeforeProduct | src/parser.rs:80-98 | `- true * false` parses to `(- true) * false` |
| GrammarFacts.GroupedSumTimesNil | src/parser.rs:114-122 | `(true + false) * nil` parses to the grouped sum times `nil` |
| GrammarFacts.UnclosedGroupingFails | src/parser.rs:117-120 | `( true + false` fails with "Expected ')' after expression" at `Eof` |
| GrammarFacts.EmptyInputFails | src/parser.rs:124 | the empty input fails with "Expect expression." at `Eof` |
| GrammarFacts.DoubleNegation | src/parser.rs:90-95 | `- - true` parses to `-(-true)` |
| GrammarFacts.EqualityAsWrittenSkipsOperand | src/parser.rs:39-49 | on `1`, `equality` as written returns the placeholder and consumes nothing, while the rule gives the literal and consumes it |
| GrammarFacts.ExpressionComplete | src/parser.rs:28-30 | a successful expression contains none of the four placeholder nodes |
| GrammarFacts.LevelComplete | src/parser.rs:51-88 | a successful binary level contains no placeholder node |
| GrammarFacts.OperandComplete | src/parser.rs:51-88 | the operand a level parses is free of placeholders when it succeeds |
| GrammarFacts.RestComplete | src/parser.rs:54-63 | the loop of a level, folding complete operands onto a complete tree, yields a complete tree |
| GrammarFacts.UnaryComplete | src/parser.rs:90-98 | a successful unary contains no placeholder node |
| GrammarFacts.PrimaryComplete | src/parser.rs:101-124 | a successful primary is a literal without a nested tree or a grouping of a complete expression |
| GrammarFacts.ParseIsComplete | src/parser.rs:21-26 | every tree `parse` returns is complete: no node of it is `Equality`, `Comparison`, `Term` or `Factor` |
| GrammarFacts.RestKeepsPlaceholder | src/parser.rs:41-47 | a loop that starts from a tree with a placeholder returns a tree that still has it |
| GrammarFacts.EqualityAsWrittenIsIncomplete | src/parser.rs:39-49 | `equality` as written never returns a complete tree, because its fold starts from the placeholder |
| Parsing.Parser.constructor | src/parser.rs:17-19 | a new parser is at position 0 of the given sequence |
| Parsing.Parser.Peek | src/parser.rs:169-171 | the token under the cursor |
| Parsing.Parser.Previous | src/parser.rs:173-175 | the token before the cursor. It needs a cursor past the start, and every call site proves that |
| Parsing.Parser.IsAtEnd | src/parser.rs:165-167 | true iff the current token is `Eof`; if not, there is a next token |
| Parsing.Parser.Check | src/parser.rs:149-155 | false at `Eof`, otherwise true iff the current token has the given type |
| Parsing.Parser.Advance | src/parser.rs:157-163 | moves the cursor by exactly one unless it is on `Eof`, so it never passes the final `Eof`. It returns the token before the cursor |
| Parsing.Parser.Matching | src/parser.rs:127-136 | true, and one token consumed, iff some listed type passes `check`; otherwise false and the cursor unchanged |
| Parsing.Parser.Consume | src/parser.rs:138-147 | consumes and returns a token of the given type. Otherwise it fails with the given message at the current token, without moving |
| Parsing.Parser.Parse | src/parser.rs:21-26 | the result and the cursor are those of `ParseExpression` from the old cursor |
| Parsing.Parser.Expression | src/parser.rs:28-30 | the same, delegating to `equality` |
| Parsing.Parser.Equality | src/parser.rs:39-49 | the result and the cursor are those of the equality level from the old cursor, with the first operand parsed by `comparison` |
| Parsing.Parser.Comparison | src/parser.rs:51-66 | the result and the cursor are those of the comparison level; the loop invariant ties the tree folded so far to the level's function |
| Parsing.Parser.Term | src/parser.rs:68-78 | the same for the term level |
| Parsing.Parser.Factor | src/parser.rs:80-88 | the same for the factor level |
| Parsing.Parser.Unary | src/parser.rs:90-98 | the result and the cursor are those of `ParseUnary` |
| Parsing.Parser.Primary | src/parser.rs:101-125 | the result and the cursor are those of `ParsePrimary`, including both error messages |
| Parsing.Parser.Synchronize | src/parser.rs:186-208 | the cursor ends where `Synchronized` says: after one advance, at the first boundary |

## Left out

- src/lox.rs, src/lib.rs and src/interpreter.rs are not part of this model. They hold file and console I/O, process exit, argument handling and an evaluator stub.
- `Parser::error` and `Lox::error` (src/parser.rs:177-184): the report to the console and its made-up line 0 are I/O. The model returns a `ParseError` value that holds the token and the message.
- Scanning.Scanner.ScanToken: the report for an unclassified character is I/O. It is reduced to the `hadError` flag.
- The source is `&str`, indexed by byte length but read by `char_at`. The model takes the source as a sequence of characters, so UTF-8 widths are not modelled.
- Scanning.Scanner: the `u32` cursors `start` and `current` (src/scanner.rs:7-8) are modelled as unbounded naturals, so the model assumes the source has fewer than 2^32 characters. On a longer source, `self.current += 1` (src/scanner.rs:54) would overflow: a panic in a debug build, a wrap-around in a release build. Below that size the cursors stay at or below the source length, and no wrap-around occurs.
- Parsing.Parser: the `usize` cursor is modelled as a natural. It stays below the token count, so it cannot wrap.
- Parsing.Parser.Advance: requires the cursor to be past the start unless it can move. Otherwise `previous` would compute `0 - 1` on `usize`, which panics in the source. The callers `matching` and `consume` advance only after a successful `check`.
- Parsing.Parser.Synchronize: has the same requirement, because it begins with an unconditional `advance`.
- Rust lifetimes, borrowing and the `Deref` mechanics are not modelled; `Deref` is the identity function.
- `Literal::new(false)`, `Literal::new(true)` and `Literal::new("null")` (src/parser.rs:103-109) have no definition in the source. They are modelled as `Literal(False)`, `Literal(True)` and `Literal(Nil)`. `Literal::new(previous().literal)` is modelled as `Literal::from` of the token's literal.
- `Binary::new`, `Unary::new` and `Grouping::new` have no definition in the source. They are modelled as the `Expr` constructors, with the operator token converted by `Operator::from`.
- The payload-free `Expr` variants `Equality`, `Comparison`, `Term` and `Factor` are kept in the datatype. `ParseIsComplete` proves that no parse contains one, and `EqualityAsWrittenIsIncomplete` that every tree of the as-written `equality` does.
- Floating-point numbers do not appear: `Literal::Number` holds an unsigned integer, which is always 1.

## Findings

| source | as written | input that shows it | evidently intended | confidence | as-written member | corrected member |
|---|---|---|---|---|---|---|
| src/scanner.rs:24 | the loop runs `while self.is_at_end()` | the source `(` gives only `Eof`, and the empty source reads past the end | loop `while !self.is_at_end()` | not executed | Scanning.ScanAsWrittenLosesTokens | Scanning.Scanner.ScanTokens |
| src/parser.rs:40 | `equality` starts from `Expr::new()` and never parses its first operand | the tokens `1 Eof` give the placeholder and consume nothing | start from `self.comparison()`, the level that the loop already uses for its right operand (src/parser.rs:44), as every other level starts from the level it uses in its loop; the rule comment at src/parser.rs:36 also puts an operand first | not executed | GrammarFacts.EqualityAsWrittenSkipsOperand | Parsing.Parser.Equality |
| src/token.rs:25 | `to_string` returns the format text itself, without interpolation | the tokens `+` and `-` get the same string | the type, lexeme and literal separated by spaces | not executed | Tokens.ToStringLosesTheToken | Tokens.DescribeShowsLexeme |
