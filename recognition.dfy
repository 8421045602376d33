/**
 * What the parser recognises: exactly the token sequences whose kinds the
 * grammar derives, each by one derivation only.
 *
 * Soundness: a routine that succeeds has read tokens whose kinds are the
 * yield of the tree it returns. Completeness: on tokens whose kinds are the
 * yield of a tree, followed by a token the routine's loops do not continue
 * on, the routine succeeds with that very tree.
 */
module Recognition {
  import opened Tokens
  import opened Grammar
  import opened Parsing

  // ---------------------------------------------------------------------
  // Soundness

  lemma {:induction false} AssignmentSound(ts: seq<Token>, i: nat)
    requires i <= |ts|
    ensures ParseAssignment(ts, i).Done? ==>
      var r := ParseAssignment(ts, i);
      r.next == i + |AssignmentYield(r.tree)| && KindsAt(ts, i, AssignmentYield(r.tree))
  {
    if ParseAssignment(ts, i).Done? {
      var a := ParseAssignment(ts, i).tree;
      var y := ExprYield(a.rhs);
      ExprSound(ts, i + 2);
      var j := i + 2 + |y|;
      assert ts[i].kind == Identifier && ts[i + 1].kind == Equal && ts[j].kind == Semicolon;
      assert KindsAt(ts, i, [Identifier, Equal]);
      KindsAtAppend(ts, i, [Identifier, Equal], y);
      assert KindsAt(ts, j, [Semicolon]);
      KindsAtAppend(ts, i, [Identifier, Equal] + y, [Semicolon]);
    }
  }

  lemma {:induction false} ExprSound(ts: seq<Token>, i: nat)
    requires i <= |ts|
    ensures ParseExpr(ts, i).Done? ==>
      var r := ParseExpr(ts, i);
      r.next == i + |ExprYield(r.tree)| && KindsAt(ts, i, ExprYield(r.tree))
    decreases |ts| - i, 2
  {
    if ParseExpr(ts, i).Done? {
      TermSound(ts, i);
      var j := ParseTerm(ts, i).next;
      ExprTailSound(ts, j);
      var e := ParseExpr(ts, i).tree;
      KindsAtAppend(ts, i, TermYield(e.head), ExprTailYield(e.tail));
    }
  }

  lemma {:induction false} ExprTailSound(ts: seq<Token>, i: nat)
    requires i <= |ts|
    ensures ParseExprTail(ts, i).Done? ==>
      var r := ParseExprTail(ts, i);
      r.next == i + |ExprTailYield(r.tree)| && KindsAt(ts, i, ExprTailYield(r.tree))
    decreases |ts| - i, 0
  {
    var r := ParseExprTail(ts, i);
    if r.Done? && r.tree.ECons? {
      TermSound(ts, i + 1);
      var j := ParseTerm(ts, i + 1).next;
      ExprTailSound(ts, j);
      var t := r.tree;
      assert KindsAt(ts, i, [AddKind(t.op)]);
      KindsAtAppend(ts, i, [AddKind(t.op)], TermYield(t.operand));
      KindsAtAppend(ts, i, [AddKind(t.op)] + TermYield(t.operand), ExprTailYield(t.rest));
    }
  }

  lemma {:induction false} TermSound(ts: seq<Token>, i: nat)
    requires i <= |ts|
    ensures ParseTerm(ts, i).Done? ==>
      var r := ParseTerm(ts, i);
      r.next == i + |TermYield(r.tree)| && KindsAt(ts, i, TermYield(r.tree))
    decreases |ts| - i, 1
  {
    if ParseTerm(ts, i).Done? {
      FactorSound(ts, i);
      var j := ParseFactor(ts, i).next;
      TermTailSound(ts, j);
      var t := ParseTerm(ts, i).tree;
      KindsAtAppend(ts, i, FactorYield(t.head), TermTailYield(t.tail));
    }
  }

  lemma {:induction false} TermTailSound(ts: seq<Token>, i: nat)
    requires i <= |ts|
    ensures ParseTermTail(ts, i).Done? ==>
      var r := ParseTermTail(ts, i);
      r.next == i + |TermTailYield(r.tree)| && KindsAt(ts, i, TermTailYield(r.tree))
    decreases |ts| - i, 0
  {
    var r := ParseTermTail(ts, i);
    if r.Done? && r.tree.TCons? {
      FactorSound(ts, i + 1);
      var j := ParseFactor(ts, i + 1).next;
      TermTailSound(ts, j);
      var t := r.tree;
      assert KindsAt(ts, i, [MulKind(t.op)]);
      KindsAtAppend(ts, i, [MulKind(t.op)], FactorYield(t.operand));
      KindsAtAppend(ts, i, [MulKind(t.op)] + FactorYield(t.operand), TermTailYield(t.rest));
    }
  }

  lemma {:induction false} FactorSound(ts: seq<Token>, i: nat)
    requires i <= |ts|
    ensures ParseFactor(ts, i).Done? ==>
      var r := ParseFactor(ts, i);
      r.next == i + |FactorYield(r.tree)| && KindsAt(ts, i, FactorYield(r.tree))
    decreases |ts| - i, 0
  {
    var r := ParseFactor(ts, i);
    if r.Done? {
      if r.tree.Paren? {
        ExprSound(ts, i + 1);
        var y := ExprYield(r.tree.inner);
        var j := i + 1 + |y|;
        assert ts[i].kind == LParen && ts[j].kind == RParen;
        assert KindsAt(ts, i, [LParen]);
        KindsAtAppend(ts, i, [LParen], y);
        assert KindsAt(ts, j, [RParen]);
        KindsAtAppend(ts, i, [LParen] + y, [RParen]);
      } else {
        assert KindsAt(ts, i, FactorYield(r.tree));
      }
    }
  }

  // ---------------------------------------------------------------------
  // Completeness

  /** What may follow an expression: the end, or a token that is no operator. */
  predicate EndsExpr(ts: seq<Token>, j: nat)
  {
    j >= |ts| || ts[j].kind !in {Plus, Minus, Multiply, Divide}
  }

  /** What may follow a term: the end, or a token that is no '*' or '/'. */
  predicate EndsTerm(ts: seq<Token>, j: nat)
  {
    j >= |ts| || ts[j].kind !in {Multiply, Divide}
  }

  lemma {:induction false} AssignmentComplete(ts: seq<Token>, i: nat, a: Assignment)
    requires KindsAt(ts, i, AssignmentYield(a))
    ensures ParseAssignment(ts, i) == Done(a, i + |AssignmentYield(a)|)
  {
    var y := ExprYield(a.rhs);
    KindsAtAppend(ts, i, [Identifier, Equal] + y, [Semicolon]);
    KindsAtAppend(ts, i, [Identifier, Equal], y);
    var j := i + 2 + |y|;
    assert ts[j].kind == Semicolon by { assert ts[j + 0].kind == [Semicolon][0]; }
    ExprComplete(ts, i + 2, a.rhs);
    var head := [Identifier, Equal];
    assert ts[i + 0].kind == head[0] && ts[i + 1].kind == head[1];
  }

  lemma {:induction false} ExprComplete(ts: seq<Token>, i: nat, e: Expr)
    requires KindsAt(ts, i, ExprYield(e)) && EndsExpr(ts, i + |ExprYield(e)|)
    ensures ParseExpr(ts, i) == Done(e, i + |ExprYield(e)|)
    decreases e, 2
  {
    var hy, ty := TermYield(e.head), ExprTailYield(e.tail);
    KindsAtAppend(ts, i, hy, ty);
    var j := i + |hy|;
    if e.tail.ECons? {
      assert ts[j + 0].kind == ty[0] == AddKind(e.tail.op);
    }
    TermComplete(ts, i, e.head);
    ExprTailComplete(ts, j, e.tail);
  }

  /** The tokens of one round of the `expression` loop, piece by piece. */
  lemma SplitECons(ts: seq<Token>, i: nat, t: ExprTail)
    requires t.ECons? && KindsAt(ts, i, ExprTailYield(t))
    ensures i < |ts| && ts[i].kind == AddKind(t.op)
    ensures KindsAt(ts, i + 1, TermYield(t.operand))
    ensures KindsAt(ts, i + 1 + |TermYield(t.operand)|, ExprTailYield(t.rest))
    ensures |ExprTailYield(t)| == 1 + |TermYield(t.operand)| + |ExprTailYield(t.rest)|
  {
    var oy, xy, ry := [AddKind(t.op)], TermYield(t.operand), ExprTailYield(t.rest);
    KindsAtAppend(ts, i, oy + xy, ry);
    KindsAtAppend(ts, i, oy, xy);
    assert ts[i + 0].kind == oy[0];
  }

  /** The tokens of one round of the `term` loop, piece by piece. */
  lemma SplitTCons(ts: seq<Token>, i: nat, t: TermTail)
    requires t.TCons? && KindsAt(ts, i, TermTailYield(t))
    ensures i < |ts| && ts[i].kind == MulKind(t.op)
    ensures KindsAt(ts, i + 1, FactorYield(t.operand))
    ensures KindsAt(ts, i + 1 + |FactorYield(t.operand)|, TermTailYield(t.rest))
    ensures |TermTailYield(t)| == 1 + |FactorYield(t.operand)| + |TermTailYield(t.rest)|
  {
    var oy, xy, ry := [MulKind(t.op)], FactorYield(t.operand), TermTailYield(t.rest);
    KindsAtAppend(ts, i, oy + xy, ry);
    KindsAtAppend(ts, i, oy, xy);
    assert ts[i + 0].kind == oy[0];
  }

  /** One round of the `expression` loop: an operator, a term, then the rest of the loop. */
  lemma ExprTailStep(ts: seq<Token>, i: nat, op: AddOp, x: Term, j: nat, rest: ExprTail, k: nat)
    requires i < |ts| && ts[i].kind == AddKind(op)
    requires ParseTerm(ts, i + 1) == Done(x, j) && ParseExprTail(ts, j) == Done(rest, k)
    ensures ParseExprTail(ts, i) == Done(ECons(op, x, rest), k)
  {
  }

  /** One round of the `term` loop: an operator, a factor, then the rest of the loop. */
  lemma TermTailStep(ts: seq<Token>, i: nat, op: MulOp, x: Factor, j: nat, rest: TermTail, k: nat)
    requires i < |ts| && ts[i].kind == MulKind(op)
    requires ParseFactor(ts, i + 1) == Done(x, j) && ParseTermTail(ts, j) == Done(rest, k)
    ensures ParseTermTail(ts, i) == Done(TCons(op, x, rest), k)
  {
  }

  lemma {:induction false} ExprTailComplete(ts: seq<Token>, i: nat, t: ExprTail)
    requires KindsAt(ts, i, ExprTailYield(t)) && EndsExpr(ts, i + |ExprTailYield(t)|)
    ensures ParseExprTail(ts, i) == Done(t, i + |ExprTailYield(t)|)
    decreases t, 0
  {
    if t.ECons? {
      var xy, ry := TermYield(t.operand), ExprTailYield(t.rest);
      SplitECons(ts, i, t);
      var j := i + 1 + |xy|;
      assert EndsTerm(ts, j) by {
        if t.rest.ECons? {
          assert ts[j + 0].kind == ry[0] == AddKind(t.rest.op);
        }
      }
      TermComplete(ts, i + 1, t.operand);
      ExprTailComplete(ts, j, t.rest);
      ExprTailStep(ts, i, t.op, t.operand, j, t.rest, j + |ry|);
    }
  }

  lemma {:induction false} TermComplete(ts: seq<Token>, i: nat, t: Term)
    requires KindsAt(ts, i, TermYield(t)) && EndsTerm(ts, i + |TermYield(t)|)
    ensures ParseTerm(ts, i) == Done(t, i + |TermYield(t)|)
    decreases t, 1
  {
    var hy, ty := FactorYield(t.head), TermTailYield(t.tail);
    KindsAtAppend(ts, i, hy, ty);
    FactorComplete(ts, i, t.head);
    TermTailComplete(ts, i + |hy|, t.tail);
  }

  lemma {:induction false} TermTailComplete(ts: seq<Token>, i: nat, t: TermTail)
    requires KindsAt(ts, i, TermTailYield(t)) && EndsTerm(ts, i + |TermTailYield(t)|)
    ensures ParseTermTail(ts, i) == Done(t, i + |TermTailYield(t)|)
    decreases t, 0
  {
    if t.TCons? {
      var xy, ry := FactorYield(t.operand), TermTailYield(t.rest);
      SplitTCons(ts, i, t);
      var j := i + 1 + |xy|;
      FactorComplete(ts, i + 1, t.operand);
      TermTailComplete(ts, j, t.rest);
      TermTailStep(ts, i, t.op, t.operand, j, t.rest, j + |ry|);
    }
  }

  lemma {:induction false} FactorComplete(ts: seq<Token>, i: nat, f: Factor)
    requires KindsAt(ts, i, FactorYield(f))
    ensures ParseFactor(ts, i) == Done(f, i + |FactorYield(f)|)
    decreases f, 0
  {
    assert ts[i + 0].kind == FactorYield(f)[0];
    if f.Paren? {
      var y := ExprYield(f.inner);
      KindsAtAppend(ts, i, [LParen] + y, [RParen]);
      KindsAtAppend(ts, i, [LParen], y);
      var j := i + 1 + |y|;
      assert ts[j].kind == RParen by { assert ts[j + 0].kind == [RParen][0]; }
      ExprComplete(ts, i + 1, f.inner);
    }
  }

  // ---------------------------------------------------------------------
  // The language recognised

  /** `parse` accepts a token sequence exactly when the grammar derives its kinds. */
  lemma ParseAcceptsExactlyDerivable(ts: seq<Token>)
    ensures ParseFrom(ts, 0) == Accepted <==> Derivable(Kinds(ts))
  {
    if ParseFrom(ts, 0) == Accepted {
      AssignmentSound(ts, 0);
      var a := ParseAssignment(ts, 0).tree;
      KindsAtWhole(ts, AssignmentYield(a));
    }
    if Derivable(Kinds(ts)) {
      var a :| AssignmentYield(a) == Kinds(ts);
      KindsAtWhole(ts, AssignmentYield(a));
      AssignmentComplete(ts, 0, a);
    }
  }

  /** On a derivable sequence the parser finds the derivation, so no sequence has two. */
  lemma ParseFindsTheDerivation(ts: seq<Token>, a: Assignment)
    requires Kinds(ts) == AssignmentYield(a)
    ensures ParseAssignment(ts, 0) == Done(a, |ts|)
  {
    KindsAtWhole(ts, AssignmentYield(a));
    AssignmentComplete(ts, 0, a);
  }

  /** The grammar is unambiguous: a kind sequence has at most one derivation. */
  lemma Unambiguous(a1: Assignment, a2: Assignment)
    requires AssignmentYield(a1) == AssignmentYield(a2)
    ensures a1 == a2
  {
    var ks := AssignmentYield(a1);
    var ts := seq(|ks|, k requires 0 <= k < |ks| => Token(ks[k], ""));
    assert Kinds(ts) == ks;
    ParseFindsTheDerivation(ts, a1);
    ParseFindsTheDerivation(ts, a2);
  }
}
