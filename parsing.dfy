/**
 * The predictive parser: recursive descent with one token of lookahead over
 * an immutable token sequence, with a cursor as its only state.
 *
 * The functions `ParseAssignment` ... `ParseFactor` are the reference
 * definition of each routine: from a cursor position they give either the
 * derivation tree recognised and the position after it, or the syntax error
 * and the position of the cursor when it was raised. The class `Parser` is
 * the routines as the source writes them, methods that advance a field.
 */
module Parsing {
  import opened Results
  import opened Tokens
  import opened Grammar

  /** The syntax errors of the parser; `found` is the current token, or None at end of input. */
  datatype SyntaxError =
    | Unexpected(expected: Kind, found: Option<Token>)  // from matching one token
    | NotAFactor(found: Option<Token>)                  // from `factor`'s dispatch
    | ExtraTokens(extra: Token)                         // from `parse`: input left over

  /** A routine's outcome: a tree and the next position, or an error and the cursor position. */
  datatype Parsed<T> = Done(tree: T, next: nat) | Stuck(error: SyntaxError, at: nat)

  /** The verdict of a whole parse. */
  datatype Verdict = Accepted | Rejected(error: SyntaxError)

  /** The token under the cursor, or None at end of input. */
  function Lookahead(ts: seq<Token>, i: nat): Option<Token>
  {
    if i < |ts| then Some(ts[i]) else None
  }

  predicate IsFactorStart(k: Kind)
  {
    k == Identifier || k == Integer || k == LParen
  }

  /**
   * An error raised with the cursor at `at` names the token under the cursor,
   * and that token is not one the routine could have accepted.
   */
  predicate Reports(ts: seq<Token>, e: SyntaxError, at: nat)
  {
    match e
    case Unexpected(k, found) =>
      found == Lookahead(ts, at) && (found.None? || found.value.kind != k)
    case NotAFactor(found) =>
      found == Lookahead(ts, at) && (found.None? || !IsFactorStart(found.value.kind))
    case ExtraTokens(t) =>
      at < |ts| && t == ts[at]
  }

  /** Matching one token of kind `k` at position `i`. */
  function Expect(ts: seq<Token>, i: nat, k: Kind): Parsed<Token>
  {
    if i < |ts| && ts[i].kind == k then Done(ts[i], i + 1)
    else Stuck(Unexpected(k, Lookahead(ts, i)), i)
  }

  /**
   * Matching consumes exactly the token under the cursor when that token has
   * kind `k`, and otherwise fails at the cursor, reporting the token found there.
   */
  lemma ExpectMatchesOneToken(ts: seq<Token>, i: nat, k: Kind)
    ensures var r := Expect(ts, i, k); r.Done? <==> i < |ts| && ts[i].kind == k
    ensures var r := Expect(ts, i, k); r.Done? ==> r.tree == ts[i] && r.next == i + 1
    ensures var r := Expect(ts, i, k); r.Stuck? ==> r.at == i && Reports(ts, r.error, i) && r.error.expected == k
  {
  }

  /** assignment -> IDENTIFIER '=' expression ';' */
  function ParseAssignment(ts: seq<Token>, i: nat): (r: Parsed<Assignment>)
    requires i <= |ts|
    ensures r.Done? ==> i < r.next <= |ts|
    ensures r.Stuck? ==> i <= r.at <= |ts|
  {
    match Expect(ts, i, Identifier)
    case Stuck(e, at) => Stuck(e, at)
    case Done(_, i1) =>
      match Expect(ts, i1, Equal)
      case Stuck(e, at) => Stuck(e, at)
      case Done(_, i2) =>
        match ParseExpr(ts, i2)
        case Stuck(e, at) => Stuck(e, at)
        case Done(rhs, i3) =>
          match Expect(ts, i3, Semicolon)
          case Stuck(e, at) => Stuck(e, at)
          case Done(_, i4) => Done(Assignment(rhs), i4)
  }

  /** expression -> term { ('+' | '-') term } */
  function ParseExpr(ts: seq<Token>, i: nat): (r: Parsed<Expr>)
    requires i <= |ts|
    ensures r.Done? ==> i < r.next <= |ts|
    ensures r.Stuck? ==> i <= r.at <= |ts|
    decreases |ts| - i, 2
  {
    match ParseTerm(ts, i)
    case Stuck(e, at) => Stuck(e, at)
    case Done(head, j) =>
      match ParseExprTail(ts, j)
      case Stuck(e, at) => Stuck(e, at)
      case Done(tail, k) => Done(Expr(head, tail), k)
  }

  /** The repetition of `expression`: taken while the lookahead is '+' or '-'. */
  function ParseExprTail(ts: seq<Token>, i: nat): (r: Parsed<ExprTail>)
    requires i <= |ts|
    ensures r.Done? ==> i <= r.next <= |ts|
    ensures r.Stuck? ==> i <= r.at <= |ts|
    decreases |ts| - i, 0
  {
    if i < |ts| && (ts[i].kind == Plus || ts[i].kind == Minus) then
      var op := if ts[i].kind == Plus then Add else Sub;
      match ParseTerm(ts, i + 1)
      case Stuck(e, at) => Stuck(e, at)
      case Done(operand, j) =>
        match ParseExprTail(ts, j)
        case Stuck(e, at) => Stuck(e, at)
        case Done(rest, k) => Done(ECons(op, operand, rest), k)
    else
      Done(ENil, i)
  }

  /** term -> factor { ('*' | '/') factor } */
  function ParseTerm(ts: seq<Token>, i: nat): (r: Parsed<Term>)
    requires i <= |ts|
    ensures r.Done? ==> i < r.next <= |ts|
    ensures r.Stuck? ==> i <= r.at <= |ts|
    decreases |ts| - i, 1
  {
    match ParseFactor(ts, i)
    case Stuck(e, at) => Stuck(e, at)
    case Done(head, j) =>
      match ParseTermTail(ts, j)
      case Stuck(e, at) => Stuck(e, at)
      case Done(tail, k) => Done(Term(head, tail), k)
  }

  /** The repetition of `term`: taken while the lookahead is '*' or '/'. */
  function ParseTermTail(ts: seq<Token>, i: nat): (r: Parsed<TermTail>)
    requires i <= |ts|
    ensures r.Done? ==> i <= r.next <= |ts|
    ensures r.Stuck? ==> i <= r.at <= |ts|
    decreases |ts| - i, 0
  {
    if i < |ts| && (ts[i].kind == Multiply || ts[i].kind == Divide) then
      var op := if ts[i].kind == Multiply then Mul else Div;
      match ParseFactor(ts, i + 1)
      case Stuck(e, at) => Stuck(e, at)
      case Done(operand, j) =>
        match ParseTermTail(ts, j)
        case Stuck(e, at) => Stuck(e, at)
        case Done(rest, k) => Done(TCons(op, operand, rest), k)
    else
      Done(TNil, i)
  }

  /** factor -> IDENTIFIER | INTEGER | '(' expression ')' */
  function ParseFactor(ts: seq<Token>, i: nat): (r: Parsed<Factor>)
    requires i <= |ts|
    ensures r.Done? ==> i < r.next <= |ts|
    ensures r.Stuck? ==> i <= r.at <= |ts|
    decreases |ts| - i, 0
  {
    var la := Lookahead(ts, i);
    if la.Some? && la.value.kind == Identifier then Done(Var, i + 1)
    else if la.Some? && la.value.kind == Integer then Done(Num, i + 1)
    else if la.Some? && la.value.kind == LParen then
      match ParseExpr(ts, i + 1)
      case Stuck(e, at) => Stuck(e, at)
      case Done(inner, j) =>
        match Expect(ts, j, RParen)
        case Stuck(e, at) => Stuck(e, at)
        case Done(_, k) => Done(Paren(inner), k)
    else
      Stuck(NotAFactor(la), i)
  }

  /**
   * The whole parse from cursor `i`: a statement that must end exactly at the
   * end of the input. A statement is at least four tokens long, so an accepted
   * input has at least four tokens from `i`.
   */
  function ParseFrom(ts: seq<Token>, i: nat): (v: Verdict)
    requires i <= |ts|
    ensures v == Accepted ==> i + 4 <= |ts|
  {
    match ParseAssignment(ts, i)
    case Stuck(e, at) => Rejected(e)
    case Done(_, j) => if j == |ts| then Accepted else Rejected(ExtraTokens(ts[j]))
  }


  /** The outcome a routine reports to its caller. */
  function OutcomeOf<T>(p: Parsed<T>): Outcome<SyntaxError>
  {
    match p
    case Done(_, _) => Pass
    case Stuck(e, _) => Fail(e)
  }

  /** Where a routine leaves the cursor. */
  function CursorOf<T>(p: Parsed<T>): nat
  {
    match p
    case Done(_, j) => j
    case Stuck(_, at) => at
  }

  /**
   * `factor` fails without consuming a token exactly when the lookahead is
   * not an identifier, an integer or '(' (end of input included), and then
   * the error names that lookahead.
   */
  lemma FactorRejectsExactlyNonFactors(ts: seq<Token>, i: nat)
    requires i <= |ts|
    ensures (ParseFactor(ts, i).Stuck? && ParseFactor(ts, i).at == i) <==>
      (i == |ts| || !IsFactorStart(ts[i].kind))
    ensures (i == |ts| || !IsFactorStart(ts[i].kind)) ==>
      ParseFactor(ts, i) == Stuck(NotAFactor(Lookahead(ts, i)), i)
  {
  }

  // Every error a routine raises describes the token under the cursor when it is raised;
  // only `parse` itself reports tokens left over.

  lemma {:induction false} AssignmentReports(ts: seq<Token>, i: nat)
    requires i <= |ts|
    ensures var r := ParseAssignment(ts, i); r.Stuck? ==> Reports(ts, r.error, r.at) && !r.error.ExtraTokens?
  {
    if i + 2 <= |ts| {
      ExprReports(ts, i + 2);
    }
  }

  lemma {:induction false} ExprReports(ts: seq<Token>, i: nat)
    requires i <= |ts|
    ensures var r := ParseExpr(ts, i); r.Stuck? ==> Reports(ts, r.error, r.at) && !r.error.ExtraTokens?
    decreases |ts| - i, 2
  {
    TermReports(ts, i);
    if ParseTerm(ts, i).Done? {
      ExprTailReports(ts, ParseTerm(ts, i).next);
    }
  }

  lemma {:induction false} ExprTailReports(ts: seq<Token>, i: nat)
    requires i <= |ts|
    ensures var r := ParseExprTail(ts, i); r.Stuck? ==> Reports(ts, r.error, r.at) && !r.error.ExtraTokens?
    decreases |ts| - i, 0
  {
    if i < |ts| && (ts[i].kind == Plus || ts[i].kind == Minus) {
      TermReports(ts, i + 1);
      if ParseTerm(ts, i + 1).Done? {
        ExprTailReports(ts, ParseTerm(ts, i + 1).next);
      }
    }
  }

  lemma {:induction false} TermReports(ts: seq<Token>, i: nat)
    requires i <= |ts|
    ensures var r := ParseTerm(ts, i); r.Stuck? ==> Reports(ts, r.error, r.at) && !r.error.ExtraTokens?
    decreases |ts| - i, 1
  {
    FactorReports(ts, i);
    if ParseFactor(ts, i).Done? {
      TermTailReports(ts, ParseFactor(ts, i).next);
    }
  }

  lemma {:induction false} TermTailReports(ts: seq<Token>, i: nat)
    requires i <= |ts|
    ensures var r := ParseTermTail(ts, i); r.Stuck? ==> Reports(ts, r.error, r.at) && !r.error.ExtraTokens?
    decreases |ts| - i, 0
  {
    if i < |ts| && (ts[i].kind == Multiply || ts[i].kind == Divide) {
      FactorReports(ts, i + 1);
      if ParseFactor(ts, i + 1).Done? {
        TermTailReports(ts, ParseFactor(ts, i + 1).next);
      }
    }
  }

  lemma {:induction false} FactorReports(ts: seq<Token>, i: nat)
    requires i <= |ts|
    ensures var r := ParseFactor(ts, i); r.Stuck? ==> Reports(ts, r.error, r.at) && !r.error.ExtraTokens?
    decreases |ts| - i, 0
  {
    if i < |ts| && ts[i].kind == LParen {
      ExprReports(ts, i + 1);
    }
  }

  /**
   * A rejected parse reports the token under the cursor where `statement`
   * stopped: the token it failed on, or the first token left over after it.
   */
  lemma ParseFromReports(ts: seq<Token>, i: nat)
    requires i <= |ts|
    ensures ParseFrom(ts, i).Rejected? ==>
      Reports(ts, ParseFrom(ts, i).error, CursorOf(ParseAssignment(ts, i)))
  {
    AssignmentReports(ts, i);
  }

  /**
   * One round of the `expression` loop, given the outcome `r` and final
   * cursor `j` of its term: the loop ends there if the term failed, and
   * otherwise goes on from `j`.
   */
  lemma ExprTailRound(ts: seq<Token>, i: nat, r: Outcome<SyntaxError>, j: nat)
    requires i < |ts| && (ts[i].kind == Plus || ts[i].kind == Minus)
    requires r == OutcomeOf(ParseTerm(ts, i + 1)) && j == CursorOf(ParseTerm(ts, i + 1))
    ensures r.Fail? ==> OutcomeOf(ParseExprTail(ts, i)) == r && CursorOf(ParseExprTail(ts, i)) == j
    ensures r.Pass? ==>
      i < j <= |ts| &&
      OutcomeOf(ParseExprTail(ts, i)) == OutcomeOf(ParseExprTail(ts, j)) &&
      CursorOf(ParseExprTail(ts, i)) == CursorOf(ParseExprTail(ts, j))
  {
  }

  /** One round of the `term` loop: its outcome and cursor are the factor's if that fails, else the rest of the loop's. */
  lemma TermTailRound(ts: seq<Token>, i: nat)
    requires i < |ts| && (ts[i].kind == Multiply || ts[i].kind == Divide)
    ensures var f := ParseFactor(ts, i + 1);
      if f.Stuck? then
        OutcomeOf(ParseTermTail(ts, i)) == OutcomeOf(f) && CursorOf(ParseTermTail(ts, i)) == CursorOf(f)
      else
        OutcomeOf(ParseTermTail(ts, i)) == OutcomeOf(ParseTermTail(ts, f.next)) &&
        CursorOf(ParseTermTail(ts, i)) == CursorOf(ParseTermTail(ts, f.next))
  {
  }

  /** A parser over one token sequence; `tokenIndex` is its cursor. */
  class Parser {
    const tokens: seq<Token>
    var tokenIndex: nat

    constructor (tokens: seq<Token>)
      ensures this.tokens == tokens && tokenIndex == 0
    {
      this.tokens := tokens;
      tokenIndex := 0;
    }

    /** The cursor never passes the end of the token sequence. */
    ghost predicate Valid()
      reads this`tokenIndex
    {
      tokenIndex <= |tokens|
    }

    /** The token under the cursor, or None at end of input. */
    function CurrentToken(): (t: Option<Token>)
      reads this`tokenIndex
      ensures t.Some? <==> tokenIndex < |tokens|
      ensures t.Some? ==> t.value == tokens[tokenIndex]
    {
      Lookahead(tokens, tokenIndex)
    }

    /** The single point that advances the cursor: consume one token of kind `expected`. */
    method Match(expected: Kind) returns (r: Result<Token, SyntaxError>)
      requires Valid()
      modifies this`tokenIndex
      ensures Valid()
      ensures old(CurrentToken()).Some? && old(CurrentToken()).value.kind == expected ==>
        r == Ok(old(CurrentToken()).value) && tokenIndex == old(tokenIndex) + 1
      ensures !(old(CurrentToken()).Some? && old(CurrentToken()).value.kind == expected) ==>
        r == Err(Unexpected(expected, old(CurrentToken()))) && tokenIndex == old(tokenIndex)
    {
      var current := CurrentToken();
      if current.Some? && current.value.kind == expected {
        tokenIndex := tokenIndex + 1;
        return Ok(current.value);
      } else {
        return Err(Unexpected(expected, current));
      }
    }

    method Statement() returns (r: Outcome<SyntaxError>)
      requires Valid()
      modifies this`tokenIndex
      ensures Valid()
      ensures r == OutcomeOf(ParseAssignment(tokens, old(tokenIndex)))
      ensures tokenIndex == CursorOf(ParseAssignment(tokens, old(tokenIndex)))
    {
      r := Assignment();
    }

    method Assignment() returns (r: Outcome<SyntaxError>)
      requires Valid()
      modifies this`tokenIndex
      ensures Valid()
      ensures r == OutcomeOf(ParseAssignment(tokens, old(tokenIndex)))
      ensures tokenIndex == CursorOf(ParseAssignment(tokens, old(tokenIndex)))
    {
      var m := Match(Identifier);
      if m.Err? { return Fail(m.error); }
      m := Match(Equal);
      if m.Err? { return Fail(m.error); }
      r := Expression();
      if r.Fail? { return; }
      m := Match(Semicolon);
      if m.Err? { return Fail(m.error); }
      return Pass;
    }

    method Expression() returns (r: Outcome<SyntaxError>)
      requires Valid()
      modifies this`tokenIndex
      ensures Valid()
      ensures r == OutcomeOf(ParseExpr(tokens, old(tokenIndex)))
      ensures tokenIndex == CursorOf(ParseExpr(tokens, old(tokenIndex)))
      decreases |tokens| - tokenIndex, 2
    {
      ghost var start := tokenIndex;
      r := Term();
      if r.Fail? { return; }
      while CurrentToken().Some? && (CurrentToken().value.kind == Plus || CurrentToken().value.kind == Minus)
        invariant start < tokenIndex <= |tokens|
        invariant OutcomeOf(ParseExpr(tokens, start)) == OutcomeOf(ParseExprTail(tokens, tokenIndex))
        invariant CursorOf(ParseExpr(tokens, start)) == CursorOf(ParseExprTail(tokens, tokenIndex))
        decreases |tokens| - tokenIndex
      {
        ghost var round := tokenIndex;
        var op := Match(CurrentToken().value.kind);
        r := Term();
        ExprTailRound(tokens, round, r, tokenIndex);
        if r.Fail? { return; }
      }
      r := Pass;
    }

    method Term() returns (r: Outcome<SyntaxError>)
      requires Valid()
      modifies this`tokenIndex
      ensures Valid()
      ensures r == OutcomeOf(ParseTerm(tokens, old(tokenIndex)))
      ensures tokenIndex == CursorOf(ParseTerm(tokens, old(tokenIndex)))
      decreases |tokens| - tokenIndex, 1
    {
      ghost var start := tokenIndex;
      r := Factor();
      if r.Fail? { return; }
      while CurrentToken().Some? && (CurrentToken().value.kind == Multiply || CurrentToken().value.kind == Divide)
        invariant start < tokenIndex <= |tokens|
        invariant OutcomeOf(ParseTerm(tokens, start)) == OutcomeOf(ParseTermTail(tokens, tokenIndex))
        invariant CursorOf(ParseTerm(tokens, start)) == CursorOf(ParseTermTail(tokens, tokenIndex))
        decreases |tokens| - tokenIndex
      {
        TermTailRound(tokens, tokenIndex);
        var op := Match(CurrentToken().value.kind);
        r := Factor();
        if r.Fail? { return; }
      }
      r := Pass;
    }

    method Factor() returns (r: Outcome<SyntaxError>)
      requires Valid()
      modifies this`tokenIndex
      ensures Valid()
      ensures r == OutcomeOf(ParseFactor(tokens, old(tokenIndex)))
      ensures tokenIndex == CursorOf(ParseFactor(tokens, old(tokenIndex)))
      decreases |tokens| - tokenIndex, 0
    {
      var token := CurrentToken();
      if token.Some? && token.value.kind == Identifier {
        var m := Match(Identifier);
      } else if token.Some? && token.value.kind == Integer {
        var m := Match(Integer);
      } else if token.Some? && token.value.kind == LParen {
        var m := Match(LParen);
        r := Expression();
        if r.Fail? { return; }
        m := Match(RParen);
        if m.Err? { return Fail(m.error); }
      } else {
        return Fail(NotAFactor(token));
      }
      r := Pass;
    }

    /** Parse a statement from the cursor and require that no token is left over. */
    method Parse() returns (v: Verdict)
      requires Valid()
      modifies this`tokenIndex
      ensures Valid()
      ensures v == ParseFrom(tokens, old(tokenIndex))
      ensures tokenIndex == CursorOf(ParseAssignment(tokens, old(tokenIndex)))
    {
      var r := Statement();
      if r.Fail? { return Rejected(r.error); }
      var current := CurrentToken();
      if current.None? {
        v := Accepted;
      } else {
        v := Rejected(ExtraTokens(current.value));
      }
    }
  }
}
