/** The token contract shared by the tokenizer and the parser. */
module Tokens {

  /** The closed set of token kinds. */
  datatype Kind =
    | Identifier | Integer
    | Equal | Semicolon
    | Plus | Minus | Multiply | Divide
    | LParen | RParen

  /** A token is a (kind, lexeme) pair, the lexeme being the matched text. */
  datatype Token = Token(kind: Kind, lexeme: string)

  /** The kinds of a token sequence, in order. */
  function Kinds(ts: seq<Token>): (ks: seq<Kind>)
    ensures |ks| == |ts|
    ensures forall k :: 0 <= k < |ts| ==> ks[k] == ts[k].kind
  {
    seq(|ts|, k requires 0 <= k < |ts| => ts[k].kind)
  }

  /** The tokens starting at index `i` of `ts` have, in order, the kinds `ks`. */
  predicate KindsAt(ts: seq<Token>, i: nat, ks: seq<Kind>)
  {
    i + |ks| <= |ts| && forall k :: 0 <= k < |ks| ==> ts[i + k].kind == ks[k]
  }

  /** Matching a concatenation of kinds is matching its two halves one after the other. */
  lemma KindsAtAppend(ts: seq<Token>, i: nat, ks1: seq<Kind>, ks2: seq<Kind>)
    ensures KindsAt(ts, i, ks1 + ks2) <==> KindsAt(ts, i, ks1) && KindsAt(ts, i + |ks1|, ks2)
  {
    var ks := ks1 + ks2;
    if KindsAt(ts, i, ks1) && KindsAt(ts, i + |ks1|, ks2) {
      forall k | 0 <= k < |ks| ensures ts[i + k].kind == ks[k] {
        if k >= |ks1| {
          assert ts[(i + |ks1|) + (k - |ks1|)].kind == ks2[k - |ks1|];
        }
      }
    }
    if KindsAt(ts, i, ks) {
      forall k | 0 <= k < |ks1| ensures ts[i + k].kind == ks1[k] {
        assert ks[k] == ks1[k];
      }
      forall k | 0 <= k < |ks2| ensures ts[i + |ks1| + k].kind == ks2[k] {
        assert ts[i + (|ks1| + k)].kind == ks[|ks1| + k];
      }
    }
  }

  /** A whole token sequence matches `ks` from index 0 exactly when its kinds are `ks`. */
  lemma KindsAtWhole(ts: seq<Token>, ks: seq<Kind>)
    requires |ks| == |ts|
    ensures KindsAt(ts, 0, ks) <==> Kinds(ts) == ks
  {
    if KindsAt(ts, 0, ks) {
      forall k | 0 <= k < |ts| ensures Kinds(ts)[k] == ks[k] {
        assert ts[0 + k].kind == ks[k];
      }
    }
  }
}
