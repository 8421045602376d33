/**
 * The front end on concrete inputs: what tokenizing and then parsing each
 * string gives. The strings include those the repository feeds its pipeline.
 */
module Scenarios {
  import opened Results
  import opened Tokens
  import opened Lexing
  import opened Grammar
  import opened Parsing
  import opened Recognition

  /** Tokenize `text`, then parse the tokens from the start. */
  function Front(text: string): Result<Verdict, LexicalError>
  {
    match Lex(text, 0)
    case Ok(ts) => Ok(ParseFrom(ts, 0))
    case Err(e) => Err(e)
  }

  /** Input that lexes to the yield of some assignment is accepted. */
  lemma AcceptedByDerivation(text: string, ts: seq<Token>, a: Assignment)
    requires Lex(text, 0) == Ok(ts) && Kinds(ts) == AssignmentYield(a)
    ensures Front(text) == Ok(Accepted)
  {
    ParseFindsTheDerivation(ts, a);
  }

  // One step of the scan at a time, for working out `Lex` on a literal.

  lemma LexEnd(s: string)
    ensures Lex(s, |s|) == Ok([])
  {
    assert TokensOf([]) == [];
  }

  lemma LexSpace(s: string, i: nat, ts: seq<Token>)
    requires i < |s| && IsSpace(s[i]) && Lex(s, i + 1) == Ok(ts)
    ensures Lex(s, i) == Ok(ts)
  {
  }

  lemma TokensOfCons(x: Located, ls: seq<Located>)
    ensures TokensOf([x] + ls) == [x.token] + TokensOf(ls)
  {
  }

  lemma LexPunct(s: string, i: nat, t: Token, ts: seq<Token>)
    requires i < |s| && PunctKind(s[i]) == Some(t.kind) && t.lexeme == [s[i]]
    requires Lex(s, i + 1) == Ok(ts)
    ensures Lex(s, i) == Ok([t] + ts)
  {
    TokensOfCons(Located(t, i), Scan(s, i + 1).value);
  }

  /** A ';' that ends the input lexes to the last token. */
  lemma LexFinalSemicolon(s: string)
    requires |s| > 0 && s[|s| - 1] == ';'
    ensures Lex(s, |s| - 1) == Ok([Token(Semicolon, ";")])
  {
    LexEnd(s);
    LexPunct(s, |s| - 1, Token(Semicolon, ";"), []);
    assert [Token(Semicolon, ";")] + [] == [Token(Semicolon, ";")];
  }

  /** An input that ends in " = d;" for one digit d lexes, from that blank, to '=', the integer d and ';'. */
  lemma LexAssignDigit(s: string, i: nat)
    requires i + 5 == |s| && s[i] == ' ' && s[i + 1] == '=' && s[i + 2] == ' '
    requires IsDigit(s[i + 3]) && s[i + 4] == ';'
    ensures Lex(s, i) == Ok([Token(Equal, "="), Token(Integer, [s[i + 3]]), Token(Semicolon, ";")])
  {
    LexFinalSemicolon(s);
    var r: seq<Token> := [Token(Semicolon, ";")];
    assert s[i + 3..i + 4] == [s[i + 3]];
    LexWord(s, i + 3, i + 4, Token(Integer, [s[i + 3]]), r);
    r := [Token(Integer, [s[i + 3]])] + r;
    LexSpace(s, i + 2, r);
    LexPunct(s, i + 1, Token(Equal, "="), r);
    r := [Token(Equal, "=")] + r;
    LexSpace(s, i, r);
    assert r == [Token(Equal, "="), Token(Integer, [s[i + 3]]), Token(Semicolon, ";")];
  }

  /** A maximal identifier or integer at `i..j` is one token, and the scan goes on at `j`. */
  lemma LexWord(s: string, i: nat, j: nat, t: Token, ts: seq<Token>)
    requires i < j <= |s| && t.lexeme == s[i..j]
    requires t.kind == Identifier ==>
      IsIdentStart(s[i]) && (forall k :: i <= k < j ==> IsIdentChar(s[k])) && (j == |s| || !IsIdentChar(s[j]))
    requires t.kind == Integer ==>
      IsDigit(s[i]) && (forall k :: i <= k < j ==> IsDigit(s[k])) && (j == |s| || !IsDigit(s[j]))
    requires t.kind == Identifier || t.kind == Integer
    requires Lex(s, j) == Ok(ts)
    ensures Lex(s, i) == Ok([t] + ts)
  {
    RunEndUnique(s, i, j, if t.kind == Identifier then IdentRun else DigitRun);
    TokensOfCons(Located(t, i), Scan(s, j).value);
  }

  lemma CopyTokensFrom2(s: string)
    requires s == "x=y;"
    ensures Lex(s, 2) == Ok([Token(Identifier, "y"), Token(Semicolon, ";")])
  {
    LexEnd(s);
    var r: seq<Token> := [];
    LexPunct(s, 3, Token(Semicolon, ";"), r);
    r := [Token(Semicolon, ";")] + r;
    LexWord(s, 2, 3, Token(Identifier, "y"), r);
    r := [Token(Identifier, "y")] + r;
    assert r == [Token(Identifier, "y"), Token(Semicolon, ";")];
  }

  lemma CopyTokens(s: string)
    requires s == "x=y;"
    ensures Lex(s, 0) == Ok([
        Token(Identifier, "x"), Token(Equal, "="), Token(Identifier, "y"),
        Token(Semicolon, ";")])
  {
    CopyTokensFrom2(s);
    var r: seq<Token> := [Token(Identifier, "y"), Token(Semicolon, ";")];
    LexPunct(s, 1, Token(Equal, "="), r);
    r := [Token(Equal, "=")] + r;
    LexWord(s, 0, 1, Token(Identifier, "x"), r);
    r := [Token(Identifier, "x")] + r;
    assert r == [
      Token(Identifier, "x"), Token(Equal, "="), Token(Identifier, "y"),
      Token(Semicolon, ";")];
  }

  /** An identifier assigned to an identifier is a statement. */
  lemma Copy(text: string)
    requires text == "x=y;"
    ensures Front(text) == Ok(Accepted)
  {
    CopyTokens(text);
    var ts := [
      Token(Identifier, "x"), Token(Equal, "="), Token(Identifier, "y"),
      Token(Semicolon, ";")];
    var a := Assignment(Expr(Term(Var, TNil), ENil));
    assert Kinds(ts) == [Identifier, Equal, Identifier, Semicolon] == AssignmentYield(a);
    AcceptedByDerivation(text, ts, a);
  }

  lemma IntegerAssignmentTokensFrom5(s: string)
    requires s == "count=10;"
    ensures Lex(s, 5) == Ok([Token(Equal, "="), Token(Integer, "10"), Token(Semicolon, ";")])
  {
    LexFinalSemicolon(s);
    var r: seq<Token> := [Token(Semicolon, ";")];
    LexWord(s, 6, 8, Token(Integer, "10"), r);
    r := [Token(Integer, "10")] + r;
    LexPunct(s, 5, Token(Equal, "="), r);
    r := [Token(Equal, "=")] + r;
    assert r == [Token(Equal, "="), Token(Integer, "10"), Token(Semicolon, ";")];
  }

  lemma IntegerAssignmentTokens(s: string)
    requires s == "count=10;"
    ensures Lex(s, 0) == Ok([
        Token(Identifier, "count"), Token(Equal, "="), Token(Integer, "10"),
        Token(Semicolon, ";")])
  {
    IntegerAssignmentTokensFrom5(s);
    var r: seq<Token> := [Token(Equal, "="), Token(Integer, "10"), Token(Semicolon, ";")];
    LexWord(s, 0, 5, Token(Identifier, "count"), r);
    r := [Token(Identifier, "count")] + r;
    assert r == [
      Token(Identifier, "count"), Token(Equal, "="), Token(Integer, "10"),
      Token(Semicolon, ";")];
  }

  /** An integer assigned to an identifier is a statement. */
  lemma IntegerAssignment(text: string)
    requires text == "count=10;"
    ensures Front(text) == Ok(Accepted)
  {
    IntegerAssignmentTokens(text);
    var ts := [
      Token(Identifier, "count"), Token(Equal, "="), Token(Integer, "10"),
      Token(Semicolon, ";")];
    var a := Assignment(Expr(Term(Num, TNil), ENil));
    assert Kinds(ts) == [Identifier, Equal, Integer, Semicolon] == AssignmentYield(a);
    AcceptedByDerivation(text, ts, a);
  }

  lemma SumTokensFrom10(s: string)
    requires s == "result = a + b;"
    ensures Lex(s, 10) == Ok([Token(Plus, "+"), Token(Identifier, "b"), Token(Semicolon, ";")])
  {
    LexFinalSemicolon(s);
    var r: seq<Token> := [Token(Semicolon, ";")];
    LexWord(s, 13, 14, Token(Identifier, "b"), r);
    r := [Token(Identifier, "b")] + r;
    LexSpace(s, 12, r);
    LexPunct(s, 11, Token(Plus, "+"), r);
    r := [Token(Plus, "+")] + r;
    LexSpace(s, 10, r);
    assert r == [Token(Plus, "+"), Token(Identifier, "b"), Token(Semicolon, ";")];
  }

  lemma SumTokensFrom6(s: string)
    requires s == "result = a + b;"
    ensures Lex(s, 6) == Ok([
        Token(Equal, "="), Token(Identifier, "a"), Token(Plus, "+"),
        Token(Identifier, "b"), Token(Semicolon, ";")])
  {
    SumTokensFrom10(s);
    var r: seq<Token> := [Token(Plus, "+"), Token(Identifier, "b"), Token(Semicolon, ";")];
    LexWord(s, 9, 10, Token(Identifier, "a"), r);
    r := [Token(Identifier, "a")] + r;
    LexSpace(s, 8, r);
    LexPunct(s, 7, Token(Equal, "="), r);
    r := [Token(Equal, "=")] + r;
    LexSpace(s, 6, r);
    assert r == [
      Token(Equal, "="), Token(Identifier, "a"), Token(Plus, "+"),
      Token(Identifier, "b"), Token(Semicolon, ";")];
  }

  lemma SumTokens(s: string)
    requires s == "result = a + b;"
    ensures Lex(s, 0) == Ok([
        Token(Identifier, "result"), Token(Equal, "="), Token(Identifier, "a"),
        Token(Plus, "+"), Token(Identifier, "b"), Token(Semicolon, ";")])
  {
    SumTokensFrom6(s);
    var r: seq<Token> := [
      Token(Equal, "="), Token(Identifier, "a"), Token(Plus, "+"),
      Token(Identifier, "b"), Token(Semicolon, ";")];
    LexWord(s, 0, 6, Token(Identifier, "result"), r);
    r := [Token(Identifier, "result")] + r;
    assert r == [
      Token(Identifier, "result"), Token(Equal, "="), Token(Identifier, "a"),
      Token(Plus, "+"), Token(Identifier, "b"), Token(Semicolon, ";")];
  }

  /** A sum of two identifiers is an expression. */
  lemma Sum(text: string)
    requires text == "result = a + b;"
    ensures Front(text) == Ok(Accepted)
  {
    SumTokens(text);
    var ts := [
      Token(Identifier, "result"), Token(Equal, "="), Token(Identifier, "a"),
      Token(Plus, "+"), Token(Identifier, "b"), Token(Semicolon, ";")];
    var a := Assignment(Expr(Term(Var, TNil), ECons(Add, Term(Var, TNil), ENil)));
    assert Kinds(ts) == [Identifier, Equal, Identifier, Plus, Identifier, Semicolon] == AssignmentYield(a);
    AcceptedByDerivation(text, ts, a);
  }

  lemma ParenthesisedProductTokensFrom13(s: string)
    requires s == "value = (10 * 2);"
    ensures Lex(s, 13) == Ok([Token(Integer, "2"), Token(RParen, ")"), Token(Semicolon, ";")])
  {
    LexFinalSemicolon(s);
    var r: seq<Token> := [Token(Semicolon, ";")];
    LexPunct(s, 15, Token(RParen, ")"), r);
    r := [Token(RParen, ")")] + r;
    LexWord(s, 14, 15, Token(Integer, "2"), r);
    r := [Token(Integer, "2")] + r;
    LexSpace(s, 13, r);
    assert r == [Token(Integer, "2"), Token(RParen, ")"), Token(Semicolon, ";")];
  }

  lemma ParenthesisedProductTokensFrom9(s: string)
    requires s == "value = (10 * 2);"
    ensures Lex(s, 9) == Ok([
        Token(Integer, "10"), Token(Multiply, "*"), Token(Integer, "2"),
        Token(RParen, ")"), Token(Semicolon, ";")])
  {
    ParenthesisedProductTokensFrom13(s);
    var r: seq<Token> := [Token(Integer, "2"), Token(RParen, ")"), Token(Semicolon, ";")];
    LexPunct(s, 12, Token(Multiply, "*"), r);
    r := [Token(Multiply, "*")] + r;
    LexSpace(s, 11, r);
    LexWord(s, 9, 11, Token(Integer, "10"), r);
    r := [Token(Integer, "10")] + r;
    assert r == [
      Token(Integer, "10"), Token(Multiply, "*"), Token(Integer, "2"),
      Token(RParen, ")"), Token(Semicolon, ";")];
  }

  lemma ParenthesisedProductTokensFrom5(s: string)
    requires s == "value = (10 * 2);"
    ensures Lex(s, 5) == Ok([
        Token(Equal, "="), Token(LParen, "("), Token(Integer, "10"), Token(Multiply, "*"),
        Token(Integer, "2"), Token(RParen, ")"), Token(Semicolon, ";")])
  {
    ParenthesisedProductTokensFrom9(s);
    var r: seq<Token> := [
      Token(Integer, "10"), Token(Multiply, "*"), Token(Integer, "2"),
      Token(RParen, ")"), Token(Semicolon, ";")];
    LexPunct(s, 8, Token(LParen, "("), r);
    r := [Token(LParen, "(")] + r;
    LexSpace(s, 7, r);
    LexPunct(s, 6, Token(Equal, "="), r);
    r := [Token(Equal, "=")] + r;
    LexSpace(s, 5, r);
    assert r == [
      Token(Equal, "="), Token(LParen, "("), Token(Integer, "10"), Token(Multiply, "*"),
      Token(Integer, "2"), Token(RParen, ")"), Token(Semicolon, ";")];
  }

  lemma ParenthesisedProductTokens(s: string)
    requires s == "value = (10 * 2);"
    ensures Lex(s, 0) == Ok([
        Token(Identifier, "value"), Token(Equal, "="), Token(LParen, "("),
        Token(Integer, "10"), Token(Multiply, "*"), Token(Integer, "2"),
        Token(RParen, ")"), Token(Semicolon, ";")])
  {
    ParenthesisedProductTokensFrom5(s);
    var r: seq<Token> := [
      Token(Equal, "="), Token(LParen, "("), Token(Integer, "10"), Token(Multiply, "*"),
      Token(Integer, "2"), Token(RParen, ")"), Token(Semicolon, ";")];
    LexWord(s, 0, 5, Token(Identifier, "value"), r);
    r := [Token(Identifier, "value")] + r;
    assert r == [
      Token(Identifier, "value"), Token(Equal, "="), Token(LParen, "("),
      Token(Integer, "10"), Token(Multiply, "*"), Token(Integer, "2"),
      Token(RParen, ")"), Token(Semicolon, ";")];
  }

  /** A parenthesised product is a factor. */
  lemma ParenthesisedProduct(text: string)
    requires text == "value = (10 * 2);"
    ensures Front(text) == Ok(Accepted)
  {
    ParenthesisedProductTokens(text);
    var ts := [
      Token(Identifier, "value"), Token(Equal, "="), Token(LParen, "("),
      Token(Integer, "10"), Token(Multiply, "*"), Token(Integer, "2"),
      Token(RParen, ")"), Token(Semicolon, ";")];
    var a := Assignment(Expr(Term(Paren(Expr(Term(Num, TCons(Mul, Num, TNil)), ENil)), TNil), ENil));
    assert Kinds(ts) == [Identifier, Equal, LParen, Integer, Multiply, Integer, RParen, Semicolon] == AssignmentYield(a);
    AcceptedByDerivation(text, ts, a);
  }

  lemma MissingOperandTokensFrom5(s: string)
    requires s == "err = ;"
    ensures Lex(s, 5) == Ok([Token(Semicolon, ";")])
  {
    LexEnd(s);
    var r: seq<Token> := [];
    LexPunct(s, 6, Token(Semicolon, ";"), r);
    r := [Token(Semicolon, ";")] + r;
    LexSpace(s, 5, r);
    assert r == [Token(Semicolon, ";")];
  }

  lemma MissingOperandTokens(s: string)
    requires s == "err = ;"
    ensures Lex(s, 0) == Ok([Token(Identifier, "err"), Token(Equal, "="), Token(Semicolon, ";")])
  {
    MissingOperandTokensFrom5(s);
    var r: seq<Token> := [Token(Semicolon, ";")];
    LexPunct(s, 4, Token(Equal, "="), r);
    r := [Token(Equal, "=")] + r;
    LexSpace(s, 3, r);
    LexWord(s, 0, 3, Token(Identifier, "err"), r);
    r := [Token(Identifier, "err")] + r;
    assert r == [Token(Identifier, "err"), Token(Equal, "="), Token(Semicolon, ";")];
  }

  /** With no operand after '=', `factor` meets the ';' and rejects. */
  lemma MissingOperand(text: string)
    requires text == "err = ;"
    ensures Front(text) == Ok(Rejected(NotAFactor(Some(Token(Semicolon, ";")))))
  {
    MissingOperandTokens(text);
  }

  lemma UnderscoreIdentifierTokens(s: string)
    requires s == "no_semicolon = 5;"
    ensures Lex(s, 0) == Ok([
        Token(Identifier, "no_semicolon"), Token(Equal, "="), Token(Integer, "5"),
        Token(Semicolon, ";")])
  {
    LexAssignDigit(s, 12);
    var r: seq<Token> := [Token(Equal, "="), Token(Integer, "5"), Token(Semicolon, ";")];
    LexWord(s, 0, 12, Token(Identifier, "no_semicolon"), r);
    r := [Token(Identifier, "no_semicolon")] + r;
    assert r == [
      Token(Identifier, "no_semicolon"), Token(Equal, "="), Token(Integer, "5"),
      Token(Semicolon, ";")];
  }

  /** An underscore may appear inside an identifier. */
  lemma UnderscoreIdentifier(text: string)
    requires text == "no_semicolon = 5;"
    ensures Front(text) == Ok(Accepted)
  {
    UnderscoreIdentifierTokens(text);
    var ts := [
      Token(Identifier, "no_semicolon"), Token(Equal, "="), Token(Integer, "5"),
      Token(Semicolon, ";")];
    var a := Assignment(Expr(Term(Num, TNil), ENil));
    assert Kinds(ts) == [Identifier, Equal, Integer, Semicolon] == AssignmentYield(a);
    AcceptedByDerivation(text, ts, a);
  }

  lemma HyphenTokensFrom7(s: string)
    requires s == "invalid-char = 3;"
    ensures Lex(s, 7) == Ok([
        Token(Minus, "-"), Token(Identifier, "char"), Token(Equal, "="),
        Token(Integer, "3"), Token(Semicolon, ";")])
  {
    LexAssignDigit(s, 12);
    var r: seq<Token> := [Token(Equal, "="), Token(Integer, "3"), Token(Semicolon, ";")];
    LexWord(s, 8, 12, Token(Identifier, "char"), r);
    r := [Token(Identifier, "char")] + r;
    LexPunct(s, 7, Token(Minus, "-"), r);
    r := [Token(Minus, "-")] + r;
    assert r == [
      Token(Minus, "-"), Token(Identifier, "char"), Token(Equal, "="),
      Token(Integer, "3"), Token(Semicolon, ";")];
  }

  lemma HyphenTokens(s: string)
    requires s == "invalid-char = 3;"
    ensures Lex(s, 0) == Ok([
        Token(Identifier, "invalid"), Token(Minus, "-"), Token(Identifier, "char"),
        Token(Equal, "="), Token(Integer, "3"), Token(Semicolon, ";")])
  {
    HyphenTokensFrom7(s);
    var r: seq<Token> := [
      Token(Minus, "-"), Token(Identifier, "char"), Token(Equal, "="),
      Token(Integer, "3"), Token(Semicolon, ";")];
    LexWord(s, 0, 7, Token(Identifier, "invalid"), r);
    r := [Token(Identifier, "invalid")] + r;
    assert r == [
      Token(Identifier, "invalid"), Token(Minus, "-"), Token(Identifier, "char"),
      Token(Equal, "="), Token(Integer, "3"), Token(Semicolon, ";")];
  }

  /** '-' is a MINUS token, so the input lexes; the parser then expects '=' where it finds '-'. */
  lemma Hyphen(text: string)
    requires text == "invalid-char = 3;"
    ensures Front(text) == Ok(Rejected(Unexpected(Equal, Some(Token(Minus, "-")))))
  {
    HyphenTokens(text);
  }

  lemma TrailingTokensTokensFrom6(s: string)
    requires s == "a = b; c"
    ensures Lex(s, 6) == Ok([Token(Identifier, "c")])
  {
    LexEnd(s);
    var r: seq<Token> := [];
    LexWord(s, 7, 8, Token(Identifier, "c"), r);
    r := [Token(Identifier, "c")] + r;
    LexSpace(s, 6, r);
    assert r == [Token(Identifier, "c")];
  }

  lemma TrailingTokensTokensFrom3(s: string)
    requires s == "a = b; c"
    ensures Lex(s, 3) == Ok([Token(Identifier, "b"), Token(Semicolon, ";"), Token(Identifier, "c")])
  {
    TrailingTokensTokensFrom6(s);
    var r: seq<Token> := [Token(Identifier, "c")];
    LexPunct(s, 5, Token(Semicolon, ";"), r);
    r := [Token(Semicolon, ";")] + r;
    LexWord(s, 4, 5, Token(Identifier, "b"), r);
    r := [Token(Identifier, "b")] + r;
    LexSpace(s, 3, r);
    assert r == [Token(Identifier, "b"), Token(Semicolon, ";"), Token(Identifier, "c")];
  }

  lemma TrailingTokensTokens(s: string)
    requires s == "a = b; c"
    ensures Lex(s, 0) == Ok([
        Token(Identifier, "a"), Token(Equal, "="), Token(Identifier, "b"),
        Token(Semicolon, ";"), Token(Identifier, "c")])
  {
    TrailingTokensTokensFrom3(s);
    var r: seq<Token> := [Token(Identifier, "b"), Token(Semicolon, ";"), Token(Identifier, "c")];
    LexPunct(s, 2, Token(Equal, "="), r);
    r := [Token(Equal, "=")] + r;
    LexSpace(s, 1, r);
    LexWord(s, 0, 1, Token(Identifier, "a"), r);
    r := [Token(Identifier, "a")] + r;
    assert r == [
      Token(Identifier, "a"), Token(Equal, "="), Token(Identifier, "b"),
      Token(Semicolon, ";"), Token(Identifier, "c")];
  }

  /** A complete statement followed by more tokens is rejected at the first extra token. */
  lemma TrailingTokens(text: string)
    requires text == "a = b; c"
    ensures Front(text) == Ok(Rejected(ExtraTokens(Token(Identifier, "c"))))
  {
    TrailingTokensTokens(text);
  }

  /** "1a" is an integer followed by an identifier, not an error. */
  lemma DigitsThenLetters()
    ensures Lex("1a", 0) == Ok([Token(Integer, "1"), Token(Identifier, "a")])
  {
    var s := "1a";
    LexEnd(s);
    var r: seq<Token> := [];
    LexWord(s, 1, 2, Token(Identifier, "a"), r);
    r := [Token(Identifier, "a")] + r;
    LexWord(s, 0, 1, Token(Integer, "1"), r);
    r := [Token(Integer, "1")] + r;
    assert r == [Token(Integer, "1"), Token(Identifier, "a")];
  }

  /** The empty input lexes to no tokens and is rejected where an identifier is expected. */
  lemma EmptyInput()
    ensures Lex("", 0) == Ok([])
    ensures Front("") == Ok(Rejected(Unexpected(Identifier, None)))
  {
    LexEnd("");
  }

  /** An unknown character stops the scan, reported with its position. */
  lemma UnknownCharacter(text: string)
    requires text == "x = 3 $ 4;"
    ensures Front(text) == Err(UnexpectedChar('$', 6))
  {
    ScanFailsAtFirstUnrecognized(text, 0);
    assert !Recognized(text[6]);
    assert forall p :: 0 <= p < 6 ==> Recognized(text[p]);
  }
}
