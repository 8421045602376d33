/**
 * Where a rejected parse stops. With one token of lookahead and no
 * backtracking, the parser raises its error at the first token that no
 * statement can have there:
 *
 * - the tokens before the error point begin some statement, and so do those
 *   tokens followed by any kind the failing routine would have accepted;
 * - the tokens up to and including the one at the error point begin none.
 *
 * The error point is `CursorOf(ParseAssignment(ts, 0))`, the cursor where
 * `statement` stopped.
 */
module Diagnosis {
  import opened Tokens
  import opened Grammar
  import opened Parsing
  import opened Recognition

  /** The kind sequences some statement begins with. */
  ghost predicate ViablePrefix(ks: seq<Kind>)
  {
    exists a :: ks <= AssignmentYield(a)
  }

  /** `k` is a kind the routine that raised `e` would have accepted at the cursor. */
  predicate Admits(e: SyntaxError, k: Kind)
  {
    match e
    case Unexpected(expected, _) => k == expected
    case NotAFactor(_) => IsFactorStart(k)
    case ExtraTokens(_) => false
  }

  /** The tokens from `i` up to `at` spell the start of `y`, and the next kind of `y` is `k`. */
  predicate Continues(ts: seq<Token>, i: nat, at: nat, y: seq<Kind>, k: Kind)
  {
    i <= at && at - i < |y| && KindsAt(ts, i, y[..at - i]) && y[at - i] == k
  }

  /** The tokens up to and including position `n` are the same in `ts` and `us`. */
  predicate AgreeThrough(ts: seq<Token>, us: seq<Token>, n: nat)
  {
    n < |ts| && n < |us| && forall p :: 0 <= p <= n ==> us[p] == ts[p]
  }

  // ---------------------------------------------------------------------
  // Building a continuation piece by piece

  lemma ContinuesHere(ts: seq<Token>, i: nat, y: seq<Kind>, k: Kind)
    requires i <= |ts| && |y| > 0 && y[0] == k
    ensures Continues(ts, i, i, y, k)
  {
    assert y[..0] == [];
  }

  /** Tokens that spell `hy`, followed by a continuation of `ty`, continue `hy + ty`. */
  lemma ContinuesAfter(ts: seq<Token>, i: nat, hy: seq<Kind>, ty: seq<Kind>, at: nat, k: Kind)
    requires KindsAt(ts, i, hy) && Continues(ts, i + |hy|, at, ty, k)
    ensures Continues(ts, i, at, hy + ty, k)
  {
    var n := at - (i + |hy|);
    assert (hy + ty)[..at - i] == hy + ty[..n];
    KindsAtAppend(ts, i, hy, ty[..n]);
  }

  /** A continuation of `hy` is one of `hy + ty`. */
  lemma ContinuesBefore(ts: seq<Token>, i: nat, at: nat, hy: seq<Kind>, ty: seq<Kind>, k: Kind)
    requires Continues(ts, i, at, hy, k)
    ensures Continues(ts, i, at, hy + ty, k)
  {
    assert (hy + ty)[..at - i] == hy[..at - i];
  }

  /** An operator token followed by a continuation of `y` continues `[opk] + y + z`. */
  lemma OperatorThenContinues(ts: seq<Token>, i: nat, at: nat, opk: Kind, y: seq<Kind>, z: seq<Kind>, k: Kind)
    requires i < |ts| && ts[i].kind == opk && Continues(ts, i + 1, at, y, k)
    ensures Continues(ts, i, at, [opk] + y + z, k)
  {
    assert KindsAt(ts, i, [opk]) by { assert ts[i + 0].kind == opk; }
    ContinuesAfter(ts, i, [opk], y, at, k);
    ContinuesBefore(ts, i, at, [opk] + y, z, k);
  }

  /** An operator token and tokens spelling `y`, followed by a continuation of `z`, continue `[opk] + y + z`. */
  lemma OperatorOperandThenContinues(ts: seq<Token>, i: nat, j: nat, at: nat, opk: Kind, y: seq<Kind>, z: seq<Kind>, k: Kind)
    requires i < |ts| && ts[i].kind == opk && KindsAt(ts, i + 1, y) && j == i + 1 + |y| && Continues(ts, j, at, z, k)
    ensures Continues(ts, i, at, [opk] + y + z, k)
  {
    assert KindsAt(ts, i, [opk]) by { assert ts[i + 0].kind == opk; }
    KindsAtAppend(ts, i, [opk], y);
    ContinuesAfter(ts, i, [opk] + y, z, at, k);
  }

  // ---------------------------------------------------------------------
  // Every error point can be continued with what the failing routine expected

  /** An identifier at `i` continues any assignment with '=' at `i + 1`. */
  lemma IdentifierThenContinues(ts: seq<Token>, i: nat, a: Assignment)
    requires i < |ts| && ts[i].kind == Identifier
    ensures Continues(ts, i, i + 1, AssignmentYield(a), Equal)
  {
    assert AssignmentYield(a)[..1] == [Identifier];
    assert KindsAt(ts, i, [Identifier]) by { assert ts[i + 0].kind == Identifier; }
  }

  /** `IDENTIFIER '='`, followed by a continuation of `y`, continues `[Identifier, Equal] + y + z`. */
  lemma LeadThenContinues(ts: seq<Token>, i: nat, at: nat, y: seq<Kind>, z: seq<Kind>, k: Kind)
    requires i + 1 < |ts| && ts[i].kind == Identifier && ts[i + 1].kind == Equal
    requires Continues(ts, i + 2, at, y, k)
    ensures Continues(ts, i, at, [Identifier, Equal] + y + z, k)
  {
    var lead := [Identifier, Equal];
    assert KindsAt(ts, i, lead) by {
      assert ts[i + 0].kind == lead[0] && ts[i + 1].kind == lead[1];
    }
    ContinuesAfter(ts, i, lead, y, at, k);
    ContinuesBefore(ts, i, at, lead + y, z, k);
  }

  /** `IDENTIFIER '='` and tokens spelling `y` continue `[Identifier, Equal] + y + [Semicolon]` with ';'. */
  lemma LeadRhsThenSemicolon(ts: seq<Token>, i: nat, at: nat, y: seq<Kind>)
    requires i + 1 < |ts| && ts[i].kind == Identifier && ts[i + 1].kind == Equal
    requires KindsAt(ts, i + 2, y) && at == i + 2 + |y| && at <= |ts|
    ensures Continues(ts, i, at, [Identifier, Equal] + y + [Semicolon], Semicolon)
  {
    var lead := [Identifier, Equal];
    assert KindsAt(ts, i, lead) by {
      assert ts[i + 0].kind == lead[0] && ts[i + 1].kind == lead[1];
    }
    KindsAtAppend(ts, i, lead, y);
    ContinuesHere(ts, at, [Semicolon], Semicolon);
    ContinuesAfter(ts, i, lead + y, [Semicolon], at, Semicolon);
  }

  lemma {:induction false} AssignmentContinues(ts: seq<Token>, i: nat, k: Kind) returns (a: Assignment)
    requires i <= |ts| && ParseAssignment(ts, i).Stuck? && Admits(ParseAssignment(ts, i).error, k)
    ensures Continues(ts, i, ParseAssignment(ts, i).at, AssignmentYield(a), k)
  {
    var at := ParseAssignment(ts, i).at;
    if Expect(ts, i, Identifier).Stuck? {
      a := Assignment(Expr(Term(Var, TNil), ENil));
      assert at == i && k == Identifier;
      ContinuesHere(ts, i, AssignmentYield(a), k);
    } else if Expect(ts, i + 1, Equal).Stuck? {
      a := Assignment(Expr(Term(Var, TNil), ENil));
      assert at == i + 1 && k == Equal && ts[i].kind == Identifier;
      IdentifierThenContinues(ts, i, a);
    } else if ParseExpr(ts, i + 2).Stuck? {
      assert at == ParseExpr(ts, i + 2).at && ParseAssignment(ts, i).error == ParseExpr(ts, i + 2).error;
      var x := ExprContinues(ts, i + 2, k);
      a := Assignment(x);
      LeadThenContinues(ts, i, at, ExprYield(x), [Semicolon], k);
    } else {
      var rhs := ParseExpr(ts, i + 2).tree;
      assert at == ParseExpr(ts, i + 2).next && k == Semicolon;
      a := Assignment(rhs);
      ExprSound(ts, i + 2);
      LeadRhsThenSemicolon(ts, i, at, ExprYield(rhs));
    }
  }


  lemma {:induction false} ExprContinues(ts: seq<Token>, i: nat, k: Kind) returns (x: Expr)
    requires i <= |ts| && ParseExpr(ts, i).Stuck? && Admits(ParseExpr(ts, i).error, k)
    ensures Continues(ts, i, ParseExpr(ts, i).at, ExprYield(x), k)
    decreases |ts| - i, 2
  {
    var at := ParseExpr(ts, i).at;
    if ParseTerm(ts, i).Stuck? {
      var t := TermContinues(ts, i, k);
      x := Expr(t, ENil);
      ContinuesBefore(ts, i, at, TermYield(t), [], k);
    } else {
      var head := ParseTerm(ts, i).tree;
      TermSound(ts, i);
      var tail := ExprTailContinues(ts, ParseTerm(ts, i).next, k);
      x := Expr(head, tail);
      ContinuesAfter(ts, i, TermYield(head), ExprTailYield(tail), at, k);
    }
  }

  lemma {:induction false} ExprTailContinues(ts: seq<Token>, i: nat, k: Kind) returns (x: ExprTail)
    requires i <= |ts| && ParseExprTail(ts, i).Stuck? && Admits(ParseExprTail(ts, i).error, k)
    ensures Continues(ts, i, ParseExprTail(ts, i).at, ExprTailYield(x), k)
    decreases |ts| - i, 0
  {
    var at := ParseExprTail(ts, i).at;
    assert i < |ts| && (ts[i].kind == Plus || ts[i].kind == Minus);
    var op := if ts[i].kind == Plus then Add else Sub;
    if ParseTerm(ts, i + 1).Stuck? {
      assert at == ParseTerm(ts, i + 1).at && ParseExprTail(ts, i).error == ParseTerm(ts, i + 1).error;
      var t := TermContinues(ts, i + 1, k);
      x := ECons(op, t, ENil);
      OperatorThenContinues(ts, i, at, AddKind(op), TermYield(t), ExprTailYield(ENil), k);
    } else {
      var operand := ParseTerm(ts, i + 1).tree;
      var j := ParseTerm(ts, i + 1).next;
      assert ParseExprTail(ts, j).Stuck? && at == ParseExprTail(ts, j).at && ParseExprTail(ts, i).error == ParseExprTail(ts, j).error;
      TermSound(ts, i + 1);
      var rest := ExprTailContinues(ts, j, k);
      x := ECons(op, operand, rest);
      OperatorOperandThenContinues(ts, i, j, at, AddKind(op), TermYield(operand), ExprTailYield(rest), k);
    }
  }

  lemma {:induction false} TermContinues(ts: seq<Token>, i: nat, k: Kind) returns (x: Term)
    requires i <= |ts| && ParseTerm(ts, i).Stuck? && Admits(ParseTerm(ts, i).error, k)
    ensures Continues(ts, i, ParseTerm(ts, i).at, TermYield(x), k)
    decreases |ts| - i, 1
  {
    var at := ParseTerm(ts, i).at;
    if ParseFactor(ts, i).Stuck? {
      var f := FactorContinues(ts, i, k);
      x := Term(f, TNil);
      ContinuesBefore(ts, i, at, FactorYield(f), [], k);
    } else {
      var head := ParseFactor(ts, i).tree;
      FactorSound(ts, i);
      var tail := TermTailContinues(ts, ParseFactor(ts, i).next, k);
      x := Term(head, tail);
      ContinuesAfter(ts, i, FactorYield(head), TermTailYield(tail), at, k);
    }
  }

  lemma {:induction false} TermTailContinues(ts: seq<Token>, i: nat, k: Kind) returns (x: TermTail)
    requires i <= |ts| && ParseTermTail(ts, i).Stuck? && Admits(ParseTermTail(ts, i).error, k)
    ensures Continues(ts, i, ParseTermTail(ts, i).at, TermTailYield(x), k)
    decreases |ts| - i, 0
  {
    var at := ParseTermTail(ts, i).at;
    assert i < |ts| && (ts[i].kind == Multiply || ts[i].kind == Divide);
    var op := if ts[i].kind == Multiply then Mul else Div;
    if ParseFactor(ts, i + 1).Stuck? {
      assert at == ParseFactor(ts, i + 1).at && ParseTermTail(ts, i).error == ParseFactor(ts, i + 1).error;
      var f := FactorContinues(ts, i + 1, k);
      x := TCons(op, f, TNil);
      OperatorThenContinues(ts, i, at, MulKind(op), FactorYield(f), TermTailYield(TNil), k);
    } else {
      var operand := ParseFactor(ts, i + 1).tree;
      var j := ParseFactor(ts, i + 1).next;
      assert ParseTermTail(ts, j).Stuck? && at == ParseTermTail(ts, j).at && ParseTermTail(ts, i).error == ParseTermTail(ts, j).error;
      FactorSound(ts, i + 1);
      var rest := TermTailContinues(ts, j, k);
      x := TCons(op, operand, rest);
      OperatorOperandThenContinues(ts, i, j, at, MulKind(op), FactorYield(operand), TermTailYield(rest), k);
    }
  }


  lemma {:induction false} FactorContinues(ts: seq<Token>, i: nat, k: Kind) returns (x: Factor)
    requires i <= |ts| && ParseFactor(ts, i).Stuck? && Admits(ParseFactor(ts, i).error, k)
    ensures Continues(ts, i, ParseFactor(ts, i).at, FactorYield(x), k)
    decreases |ts| - i, 0
  {
    var at := ParseFactor(ts, i).at;
    if i == |ts| || !IsFactorStart(ts[i].kind) {
      x := if k == Identifier then Var else if k == Integer then Num else Paren(Expr(Term(Var, TNil), ENil));
      ContinuesHere(ts, i, FactorYield(x), k);
    } else {
      assert KindsAt(ts, i, [LParen]) by { assert ts[i + 0].kind == LParen; }
      if ParseExpr(ts, i + 1).Stuck? {
        var e := ExprContinues(ts, i + 1, k);
        x := Paren(e);
        ContinuesAfter(ts, i, [LParen], ExprYield(e), at, k);
        ContinuesBefore(ts, i, at, [LParen] + ExprYield(e), [RParen], k);
      } else {
        var inner := ParseExpr(ts, i + 1).tree;
        x := Paren(inner);
        ExprSound(ts, i + 1);
        KindsAtAppend(ts, i, [LParen], ExprYield(inner));
        ContinuesHere(ts, at, [RParen], k);
        ContinuesAfter(ts, i, [LParen] + ExprYield(inner), [RParen], at, k);
      }
    }
  }

  // ---------------------------------------------------------------------
  // A routine reads nothing past its final cursor

  lemma {:induction false} AssignmentLocal(ts: seq<Token>, us: seq<Token>, i: nat)
    requires i <= |ts| && AgreeThrough(ts, us, CursorOf(ParseAssignment(ts, i)))
    ensures ParseAssignment(us, i) == ParseAssignment(ts, i)
  {
    if i + 1 < |ts| && ts[i].kind == Identifier && ts[i + 1].kind == Equal {
      ExprLocal(ts, us, i + 2);
    }
  }

  lemma {:induction false} ExprLocal(ts: seq<Token>, us: seq<Token>, i: nat)
    requires i <= |ts| && AgreeThrough(ts, us, CursorOf(ParseExpr(ts, i)))
    ensures ParseExpr(us, i) == ParseExpr(ts, i)
    decreases |ts| - i, 2
  {
    TermLocal(ts, us, i);
    if ParseTerm(ts, i).Done? {
      ExprTailLocal(ts, us, ParseTerm(ts, i).next);
    }
  }

  lemma {:induction false} ExprTailLocal(ts: seq<Token>, us: seq<Token>, i: nat)
    requires i <= |ts| && AgreeThrough(ts, us, CursorOf(ParseExprTail(ts, i)))
    ensures ParseExprTail(us, i) == ParseExprTail(ts, i)
    decreases |ts| - i, 0
  {
    assert us[i] == ts[i];
    if i < |ts| && (ts[i].kind == Plus || ts[i].kind == Minus) {
      TermLocal(ts, us, i + 1);
      if ParseTerm(ts, i + 1).Done? {
        ExprTailLocal(ts, us, ParseTerm(ts, i + 1).next);
      }
    }
  }

  lemma {:induction false} TermLocal(ts: seq<Token>, us: seq<Token>, i: nat)
    requires i <= |ts| && AgreeThrough(ts, us, CursorOf(ParseTerm(ts, i)))
    ensures ParseTerm(us, i) == ParseTerm(ts, i)
    decreases |ts| - i, 1
  {
    FactorLocal(ts, us, i);
    if ParseFactor(ts, i).Done? {
      TermTailLocal(ts, us, ParseFactor(ts, i).next);
    }
  }

  lemma {:induction false} TermTailLocal(ts: seq<Token>, us: seq<Token>, i: nat)
    requires i <= |ts| && AgreeThrough(ts, us, CursorOf(ParseTermTail(ts, i)))
    ensures ParseTermTail(us, i) == ParseTermTail(ts, i)
    decreases |ts| - i, 0
  {
    assert us[i] == ts[i];
    if i < |ts| && (ts[i].kind == Multiply || ts[i].kind == Divide) {
      FactorLocal(ts, us, i + 1);
      if ParseFactor(ts, i + 1).Done? {
        TermTailLocal(ts, us, ParseFactor(ts, i + 1).next);
      }
    }
  }

  lemma {:induction false} FactorLocal(ts: seq<Token>, us: seq<Token>, i: nat)
    requires i <= |ts| && AgreeThrough(ts, us, CursorOf(ParseFactor(ts, i)))
    ensures ParseFactor(us, i) == ParseFactor(ts, i)
    decreases |ts| - i, 0
  {
    assert us[i] == ts[i];
    if ts[i].kind == LParen {
      ExprLocal(ts, us, i + 1);
    }
  }

  // ---------------------------------------------------------------------
  // The error point of a rejected parse

  /** The kinds of the first `|ks|` tokens are `ks`. */
  lemma KindsOfPrefix(ts: seq<Token>, ks: seq<Kind>)
    requires KindsAt(ts, 0, ks)
    ensures Kinds(ts[..|ks|]) == ks
  {
    forall p | 0 <= p < |ks| ensures Kinds(ts[..|ks|])[p] == ks[p] {
      assert ts[0 + p].kind == ks[p];
    }
  }

  /**
   * The tokens before the error point begin a statement, and so do they
   * followed by any kind the failing routine would have accepted. When the
   * error is a token left over, the tokens before it are a whole statement.
   */
  lemma ErrorPointIsViable(ts: seq<Token>)
    requires ParseFrom(ts, 0).Rejected?
    ensures var at, e := CursorOf(ParseAssignment(ts, 0)), ParseFrom(ts, 0).error;
      at <= |ts| && ViablePrefix(Kinds(ts[..at])) &&
      (forall k :: Admits(e, k) ==> ViablePrefix(Kinds(ts[..at]) + [k])) &&
      (e.ExtraTokens? ==> Derivable(Kinds(ts[..at])))
  {
    var r := ParseAssignment(ts, 0);
    var at := CursorOf(r);
    if r.Stuck? {
      forall k | Admits(r.error, k) ensures ViablePrefix(Kinds(ts[..at]) + [k]) {
        var a := AssignmentContinues(ts, 0, k);
        var y := AssignmentYield(a);
        KindsOfPrefix(ts, y[..at]);
        assert Kinds(ts[..at]) + [k] == y[..at + 1];
        assert Kinds(ts[..at]) + [k] <= y;
      }
      AssignmentReports(ts, 0);
      var k := if r.error.Unexpected? then r.error.expected else Identifier;
      assert Admits(r.error, k);
      var a :| Kinds(ts[..at]) + [k] <= AssignmentYield(a);
      assert Kinds(ts[..at]) <= AssignmentYield(a);
    } else {
      AssignmentSound(ts, 0);
      KindsOfPrefix(ts, AssignmentYield(r.tree));
      assert Kinds(ts[..at]) <= AssignmentYield(r.tree);
    }
  }

  /**
   * No statement begins with the tokens up to and including the one at the
   * error point: the parser rejects at the first token that cannot be there.
   */
  lemma ErrorPointIsEarliest(ts: seq<Token>)
    requires ParseFrom(ts, 0).Rejected?
    ensures var at := CursorOf(ParseAssignment(ts, 0));
      at < |ts| ==> !ViablePrefix(Kinds(ts[..at + 1]))
  {
    var at := CursorOf(ParseAssignment(ts, 0));
    if at < |ts| && ViablePrefix(Kinds(ts[..at + 1])) {
      var a :| Kinds(ts[..at + 1]) <= AssignmentYield(a);
      var y := AssignmentYield(a);
      var rest := seq(|y| - (at + 1), p requires 0 <= p < |y| - (at + 1) => Token(y[at + 1 + p], ""));
      var us := ts[..at + 1] + rest;
      forall p | 0 <= p < |us| ensures Kinds(us)[p] == y[p] {
        if p <= at {
          assert us[p] == ts[..at + 1][p];
          assert Kinds(ts[..at + 1])[p] == y[p];
        } else {
          assert us[p] == rest[p - (at + 1)];
        }
      }
      assert Kinds(us) == y;
      ParseFindsTheDerivation(us, a);
      assert AgreeThrough(ts, us, at);
      AssignmentLocal(ts, us, 0);
    }
  }
}
