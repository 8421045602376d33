# A verified model of the COmpiler.py front end

`COmpiler.py` is a small compiler front end with two parts:

- **Tokenizer.** It scans a source string once, left to right.
  - It skips whitespace.
  - It reads identifiers (a letter or `_`, then letters, digits or `_`) and integers (decimal digits), each as long as possible.
  - It emits a one-character token for each of `= ; + - * / ( )`.
  - It raises an error at the first character it does not recognise.
- **`RecursivePredictiveParser`.** It recognises one assignment statement by LL(1) recursive descent over the token list, using this grammar:

      statement  -> assignment
      assignment -> IDENTIFIER '=' expression ';'
      expression -> term { ('+' | '-') term }
      term       -> factor { ('*' | '/') factor }
      factor     -> IDENTIFIER | INTEGER | '(' expression ')'

  Its only state is a cursor into the immutable token list. `_match` is the only operation that moves the cursor. `parse` accepts only when a statement is recognised and the cursor is then at the end.

The model keeps both parts in their imperative form and proves them against declarative definitions.

| file | module | contents |
|---|---|---|
| `results.dfy` | `Results` | `Option`, `Result` and `Outcome`: the raised exceptions become values |
| `tokens.dfy` | `Tokens` | Token kinds, tokens as (kind, lexeme), the kind sequence of a token list |
| `lexing.dfy` | `Lexing` | Character classes, the reference scan `Scan`/`Lex`, its properties, and class `Tokenizer` |
| `grammar.dfy` | `Grammar` | Derivation trees of the grammar and the kind sequence each tree derives |
| `parsing.dfy` | `Parsing` | One reference function per parser routine, the error-reporting lemmas, and class `Parser` |
| `recognition.dfy` | `Recognition` | Soundness and completeness of the routines against the grammar; the accepted language; unambiguity |
| `diagnosis.dfy` | `Diagnosis` | Where a rejected parse stops: the error point is the first token no statement can have there |
| `scenarios.dfy` | `Scenarios` | The strings the repository feeds its pipeline, plus a few edge cases, worked out end to end |

**Tokenizer.** Class `Lexing.Tokenizer` holds the source, the `position` cursor and the `tokens` result.

- `Tokenize` is the scan loop. `ReadToken` is one pass through its non-whitespace branches. `ReadRun` is the inner longest-match loop: the identifier loop and the integer loop differ only in their character class, so one method models both.
- The constructor and `Tokenize` are proved equal to the reference function `Lex`. `ReadRun` is proved to stop at `RunEnd`, the end of the longest run of its character class. `ReadToken` is proved to take one step of the scan, as the predicate `ScansTo` states it. `Lex` projects `Scan`, which also records where each token starts. The lemmas about `Scan` then give the tokenizer's guarantees.

**Parser.** Class `Parsing.Parser` has the field `tokenIndex` and one method per routine. Each routine method is proved to return the outcome and leave the cursor where its reference function (`ParseAssignment` … `ParseFactor`, `ParseFrom`) says.

- A reference function gives either the derivation tree and the next position, or the syntax error and the cursor position when it was raised.
- The `Recognition` lemmas relate the reference functions to the grammar.
- The `Diagnosis` lemmas locate a rejection. The tokens before the error point still begin some statement, followed by any kind the failing routine expected. The token at the error point makes the prefix one that no statement begins with.

## Model

| member | source | states |
|---|---|---|
| Lexing.ScanBounds | COmpiler.py:7-54 | The reference scan `Scan`, which also records where each token starts, yields at most one token per character from `i`. A lexical error is at a position inside the scanned text. |
| Lexing.LexBounds | COmpiler.py:7-54 | The token list `tokenize` returns (`Lex`): the same bounds as `Scan`, on tokens without positions. |
| Lexing.ScanOne | COmpiler.py:14-51 | One pass of the scan loop at a recognised character that is not whitespace. It emits a well-formed, maximal token that starts there and spans at least one character, all of them recognised and none whitespace. The scan then continues after that token. |
| Lexing.RunEnd | COmpiler.py:16-18 | The longest-match loop stops at the first position from `i` whose character cannot continue the run, or at the end of input. Every character it passes can continue the run. |
| Lexing.RunEndUnique | COmpiler.py:16-25 | Those properties determine the stopping position. So any maximal run found by hand is the one the loop finds. |
| Lexing.ScanIsValid | COmpiler.py:14-51 | Every token of a successful scan is one of the following, and tokens appear in input order without overlap. An identifier is non-empty, starts with a letter or `_`, has only letters, digits or `_`, and is not followed by such a character. An integer is a non-empty run of digits not followed by a digit. An operator is the one character of its kind. Each lexeme is the input text at its start position. |
| Lexing.ScanReconstructs | COmpiler.py:7-54 | The lexemes of a successful scan, concatenated, are the input with its whitespace removed. |
| Lexing.ScanFailsAtFirstUnrecognized | COmpiler.py:52-53 | The scan fails exactly when some character is not whitespace, a letter, a digit, `_` or one of `= ; + - * / ( )`. It then reports the first such character and its position. |
| Lexing.LexContract | COmpiler.py:7-54 | The tokenizer's contract on a whole input. It fails exactly when an unrecognised character is present, and reports the first one. Otherwise its tokens are well formed and spell the input without whitespace. |
| Lexing.Tokenizer.constructor | COmpiler.py:2-5 | Construction runs the scan from position 0. `tokens` is `Lex(source, 0)`. The cursor ends at the end of input, or at the offending character. |
| Lexing.Tokenizer.ReadRun | COmpiler.py:15-25 | The inner loop advances the cursor to the end of the maximal run. The lexeme it builds is exactly the text passed over. |
| Lexing.Tokenizer.ReadToken | COmpiler.py:14-53 | At a non-space character it reads the token the scan defines there and moves the cursor strictly forward past it. For a one-character token the move is by exactly 1. At an unrecognised character it reads nothing and leaves the cursor in place. |
| Lexing.Tokenizer.Tokenize | COmpiler.py:7-54 | The scan loop returns `Lex(source, position)`. The cursor ends at the end of input, or on the offending character when the scan fails. The loop variant is the distance to the end of input. |
| Parsing.ExpectMatchesOneToken | COmpiler.py:66-75 | `_match` on the token list (`Expect`). It succeeds exactly when the token under the cursor has the expected kind; it then returns that token and moves on by exactly one. Otherwise it fails at the cursor with the expected kind and the token found, or end of input. |
| Parsing.ParseAssignment | COmpiler.py:89-95 | `assignment` either succeeds having consumed at least one token, staying within the input, or fails with the cursor within the input. |
| Parsing.ParseExpr | COmpiler.py:97-103 | `expression` either succeeds having consumed at least one token or fails within the input. |
| Parsing.ParseExprTail | COmpiler.py:100-102 | The `+`/`-` loop of `expression` never moves the cursor back or past the end. |
| Parsing.ParseTerm | COmpiler.py:105-111 | `term` either succeeds having consumed at least one token or fails within the input. |
| Parsing.ParseTermTail | COmpiler.py:108-110 | The `*`/`/` loop of `term` never moves the cursor back or past the end. |
| Parsing.ParseFactor | COmpiler.py:113-126 | `factor` either succeeds having consumed at least one token or fails within the input. |
| Parsing.ParseFrom | COmpiler.py:128-136 | The verdict of `parse` from cursor `i`. An accepted input has at least four tokens from `i`, since the shortest statement is `x=1;`. |
| Parsing.FactorRejectsExactlyNonFactors | COmpiler.py:113-125 | `factor` fails without consuming a token exactly when the lookahead is not an identifier, an integer or `(`. End of input counts as such a lookahead. The error then names that lookahead. |
| Parsing.AssignmentReports | COmpiler.py:66-75 | When `assignment` fails, the error describes the token under the cursor at that moment: the kind `_match` expected and the token it found, or end of input. That token is not of the expected kind. The error is never a leftover-token error, which only `parse` raises. |
| Parsing.ExprReports | COmpiler.py:97-103 | The same for `expression`. |
| Parsing.ExprTailReports | COmpiler.py:100-102 | The same for the `+`/`-` loop. |
| Parsing.TermReports | COmpiler.py:105-111 | The same for `term`. |
| Parsing.TermTailReports | COmpiler.py:108-110 | The same for the `*`/`/` loop. |
| Parsing.FactorReports | COmpiler.py:113-125 | The same for `factor`. Its own error names a lookahead that cannot start a factor. |
| Parsing.ParseFromReports | COmpiler.py:128-136 | A rejected parse reports the token under the cursor where `statement` stopped. That is the token `statement` failed on, or end of input. When a statement was recognised with tokens left over, it is the first token left over. |
| Parsing.Parser.constructor | COmpiler.py:57-59 | A new parser holds the tokens with its cursor at 0. |
| Parsing.Parser.CurrentToken | COmpiler.py:61-64 | There is a current token exactly when the cursor is before the end, and it is the token at the cursor. |
| Parsing.Parser.Match | COmpiler.py:66-75 | If the current token exists and has the expected kind, `_match` returns it and advances the cursor by exactly 1. Otherwise it fails with the expected kind and the current token (or end of input) and leaves the cursor unchanged. The cursor never passes the end. |
| Parsing.Parser.Statement | COmpiler.py:84-87 | `statement` has the outcome and final cursor of `ParseAssignment` from the initial cursor. |
| Parsing.Parser.Assignment | COmpiler.py:89-95 | `assignment` has the outcome and final cursor of `ParseAssignment`. |
| Parsing.Parser.Expression | COmpiler.py:97-103 | `expression`, with its loop, has the outcome and final cursor of `ParseExpr`. The loop invariant says that the rest of the loop decides the result. |
| Parsing.Parser.Term | COmpiler.py:105-111 | `term`, with its loop, has the outcome and final cursor of `ParseTerm`. |
| Parsing.Parser.Factor | COmpiler.py:113-126 | `factor` has the outcome and final cursor of `ParseFactor`. |
| Parsing.Parser.Parse | COmpiler.py:128-136 | `parse` gives `ParseFrom` of the initial cursor: accepted only when a statement is recognised and no token is left over. The cursor ends where `statement` stopped: after the statement, or at the token it failed on. |
| Recognition.AssignmentSound | COmpiler.py:89-95 | When `assignment` succeeds, the tokens it consumed are exactly the kinds the returned derivation tree derives. |
| Recognition.ExprSound | COmpiler.py:97-103 | The same for `expression`. |
| Recognition.ExprTailSound | COmpiler.py:100-102 | The same for the `+`/`-` loop. |
| Recognition.TermSound | COmpiler.py:105-111 | The same for `term`. |
| Recognition.TermTailSound | COmpiler.py:108-110 | The same for the `*`/`/` loop. |
| Recognition.FactorSound | COmpiler.py:113-126 | The same for `factor`. |
| Recognition.AssignmentComplete | COmpiler.py:89-95 | On tokens whose kinds are derived by a tree, `assignment` succeeds with that tree and consumes exactly those tokens. |
| Recognition.ExprComplete | COmpiler.py:97-103 | `expression` succeeds with that tree on the tree's kinds, if the next token is not an operator the loops would continue on. |
| Recognition.ExprTailComplete | COmpiler.py:100-102 | The same for the `+`/`-` loop. |
| Recognition.TermComplete | COmpiler.py:105-111 | The same for `term`, if the next token is not `*` or `/`. |
| Recognition.TermTailComplete | COmpiler.py:108-110 | The same for the `*`/`/` loop. |
| Recognition.FactorComplete | COmpiler.py:113-126 | `factor` succeeds with a factor tree on exactly the kinds it derives. |
| Recognition.ParseAcceptsExactlyDerivable | COmpiler.py:77-82 | A fresh parse accepts a token list if and only if the grammar derives its kind sequence. |
| Recognition.ParseFindsTheDerivation | COmpiler.py:84-126 | On a derivable token list, `assignment` returns the derivation and stops exactly at the end. |
| Recognition.Unambiguous | COmpiler.py:77-82 | The grammar is unambiguous: two derivation trees of the same kind sequence are equal. |
| Diagnosis.ErrorPointIsViable | COmpiler.py:66-136 | For a rejected fresh parse, the kinds of the tokens before the error point begin some statement. Followed by any kind the failing routine would have accepted (the kind `_match` expected, or any start of a factor), they still do. When the error is a token left over, the tokens before it are a whole statement. |
| Diagnosis.ErrorPointIsEarliest | COmpiler.py:84-136 | For a rejected fresh parse, no statement begins with the kinds of the tokens up to and including the one at the error point. The parser rejects at the first token that cannot be there. |
| Diagnosis.AssignmentContinues | COmpiler.py:89-95 | When `assignment` fails, some assignment's kinds begin with the tokens it read, followed by any kind the failing routine would have accepted. |
| Diagnosis.ExprContinues | COmpiler.py:97-103 | The same for `expression`. |
| Diagnosis.ExprTailContinues | COmpiler.py:100-102 | The same for the `+`/`-` loop. |
| Diagnosis.TermContinues | COmpiler.py:105-111 | The same for `term`. |
| Diagnosis.TermTailContinues | COmpiler.py:108-110 | The same for the `*`/`/` loop. |
| Diagnosis.FactorContinues | COmpiler.py:113-126 | The same for `factor`. |
| Diagnosis.AssignmentLocal | COmpiler.py:89-95 | `assignment` reads no token past its final cursor. Two token lists that agree up to and including that position give the same result. |
| Diagnosis.ExprLocal | COmpiler.py:97-103 | The same for `expression`. |
| Diagnosis.ExprTailLocal | COmpiler.py:100-102 | The same for the `+`/`-` loop, whose last read is the lookahead that ends it. |
| Diagnosis.TermLocal | COmpiler.py:105-111 | The same for `term`. |
| Diagnosis.TermTailLocal | COmpiler.py:108-110 | The same for the `*`/`/` loop. |
| Diagnosis.FactorLocal | COmpiler.py:113-126 | The same for `factor`. |
| Scenarios.Copy | COmpiler.py:139 | `"x=y;"` lexes and is accepted. |
| Scenarios.IntegerAssignment | COmpiler.py:140 | `"count=10;"` lexes and is accepted. |
| Scenarios.Sum | COmpiler.py:141 | `"result = a + b;"` lexes and is accepted. |
| Scenarios.ParenthesisedProduct | COmpiler.py:142 | `"value = (10 * 2);"` lexes and is accepted. |
| Scenarios.MissingOperand | COmpiler.py:143 | `"err = ;"` lexes. `factor` then rejects it at the `;`. |
| Scenarios.UnderscoreIdentifier | COmpiler.py:144 | `"no_semicolon = 5;"` lexes with `no_semicolon` as one identifier and is accepted. |
| Scenarios.Hyphen | COmpiler.py:145 | `"invalid-char = 3;"` lexes, since `-` is a MINUS token. It is rejected where `=` is expected and `-` is found. |
| Scenarios.TrailingTokens | COmpiler.py:131-134 | `"a = b; c"` is rejected because of the extra token `c`. |
| Scenarios.DigitsThenLetters | COmpiler.py:21-27 | `"1a"` lexes as the integer `1` followed by the identifier `a`. |
| Scenarios.EmptyInput | COmpiler.py:66-75 | The empty input lexes to no tokens and is rejected, expecting an identifier at end of input. |
| Scenarios.UnknownCharacter | COmpiler.py:52-53 | `"x = 3 $ 4;"` fails to lex at the `$`, position 6. |

## Left out

- The `print` trace lines and the formatted exception messages are not modelled. A failure is a value that carries what the message reports: the unexpected character; the expected kind and the token found; or the first extra token. The lexical error also carries the position of the unexpected character, and `NotAFactor` carries the lookahead. The messages show neither (COmpiler.py:53, 125).
- The `try`/`except` in `parse` is modelled as the `Verdict` result: `Accepted` or `Rejected` with the error. An exception raised while constructing a `Tokenizer` is modelled as an `Err` in its `tokens` field.
- Python's `isspace`, `isalpha`, `isdigit` and `isalnum` are modelled on ASCII only. Whitespace is space, tab through carriage return, and 0x1C to 0x1F. Python also accepts non-ASCII letters, digits and spaces (for example `é`, `²` or a no-break space). The model reports those characters as unexpected.
- The example harness (COmpiler.py:138-187) is not modelled as a program. The inputs it feeds the pipeline are the `Scenarios` lemmas.
- Derivation trees record kinds only, not the lexemes of identifiers and integers. The parser is a recogniser and builds no tree of its own, so the trees exist only to state what it recognises.
- Parsing.Parser.Parse is stated from the parser's current cursor. The language theorem is about a fresh parser (cursor 0). A second call on the same parser starts where the first one stopped, as in the source; the final-cursor clause of its contract says where that is.
- Recognition.ParseAcceptsExactlyDerivable: the model has no recursion limit. In the source, each level of parentheses adds three nested calls (`factor` to `expression` to `term` to `factor`, COmpiler.py:99, 107, 122). Python stops at about 1000 frames, so nesting deeper than about 330 levels raises `RecursionError`. That is an `Exception`, so `parse` reports it as a parsing error (COmpiler.py:135-136). The model accepts such input when the grammar derives it.
