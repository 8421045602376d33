/**
 * The grammar the parser recognises, as derivation trees and the kind
 * sequences they derive:
 *
 *   statement  -> assignment
 *   assignment -> IDENTIFIER '=' expression ';'
 *   expression -> term { ('+' | '-') term }
 *   term       -> factor { ('*' | '/') factor }
 *   factor     -> IDENTIFIER | INTEGER | '(' expression ')'
 *
 * A repetition `{ op x }` is a list of (operator, operand) pairs.
 */
module Grammar {
  import opened Tokens

  datatype AddOp = Add | Sub
  datatype MulOp = Mul | Div

  datatype Assignment = Assignment(rhs: Expr)
  datatype Expr = Expr(head: Term, tail: ExprTail)
  datatype ExprTail = ENil | ECons(op: AddOp, operand: Term, rest: ExprTail)
  datatype Term = Term(head: Factor, tail: TermTail)
  datatype TermTail = TNil | TCons(op: MulOp, operand: Factor, rest: TermTail)
  datatype Factor = Var | Num | Paren(inner: Expr)

  function AddKind(op: AddOp): Kind
  {
    match op
    case Add => Plus
    case Sub => Minus
  }

  function MulKind(op: MulOp): Kind
  {
    match op
    case Mul => Multiply
    case Div => Divide
  }

  /** The token kinds an assignment derives. */
  function AssignmentYield(a: Assignment): seq<Kind>
  {
    [Identifier, Equal] + ExprYield(a.rhs) + [Semicolon]
  }

  function ExprYield(e: Expr): seq<Kind>
    decreases e
  {
    TermYield(e.head) + ExprTailYield(e.tail)
  }

  function ExprTailYield(t: ExprTail): seq<Kind>
    decreases t
  {
    match t
    case ENil => []
    case ECons(op, x, rest) => [AddKind(op)] + TermYield(x) + ExprTailYield(rest)
  }

  function TermYield(t: Term): seq<Kind>
    decreases t
  {
    FactorYield(t.head) + TermTailYield(t.tail)
  }

  function TermTailYield(t: TermTail): seq<Kind>
    decreases t
  {
    match t
    case TNil => []
    case TCons(op, x, rest) => [MulKind(op)] + FactorYield(x) + TermTailYield(rest)
  }

  function FactorYield(f: Factor): seq<Kind>
    decreases f
  {
    match f
    case Var => [Identifier]
    case Num => [Integer]
    case Paren(e) => [LParen] + ExprYield(e) + [RParen]
  }

  /** The kind sequences the grammar derives from `statement`. */
  ghost predicate Derivable(ks: seq<Kind>)
  {
    exists a :: AssignmentYield(a) == ks
  }
}
