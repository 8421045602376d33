/**
 * The tokenizer: one left-to-right scan that skips whitespace, reads maximal
 * identifiers and integers, emits one token per operator or punctuation mark
 * and stops at the first character it does not recognise.
 *
 * `Scan` is the reference definition of the scan; it also records where each
 * token starts, so that the lemmas below can say where in the input a lexeme
 * was found. The class `Tokenizer` is the scan as the source writes it: a
 * cursor field advanced by nested loops.
 */
module Lexing {
  import opened Results
  import opened Tokens

  // Character classes. The source asks Python's str.isspace, str.isalpha,
  // str.isdigit and str.isalnum; these are their ASCII parts.

  /** ASCII whitespace as Python sees it: space, tab through carriage return, and 0x1C-0x1F. */
  predicate IsSpace(c: char)
  {
    c == ' ' || '\U{9}' <= c <= '\U{D}' || '\U{1C}' <= c <= '\U{1F}'
  }

  predicate IsAlpha(c: char)
  {
    'a' <= c <= 'z' || 'A' <= c <= 'Z'
  }

  predicate IsDigit(c: char)
  {
    '0' <= c <= '9'
  }

  predicate IsAlnum(c: char)
  {
    IsAlpha(c) || IsDigit(c)
  }

  /** A character that may start an identifier. */
  predicate IsIdentStart(c: char)
  {
    IsAlpha(c) || c == '_'
  }

  /** A character that may continue an identifier. */
  predicate IsIdentChar(c: char)
  {
    IsAlnum(c) || c == '_'
  }

  /** The kind of a one-character operator or punctuation mark, if `c` is one. */
  function PunctKind(c: char): Option<Kind>
  {
    match c
    case '=' => Some(Equal)
    case ';' => Some(Semicolon)
    case '+' => Some(Plus)
    case '-' => Some(Minus)
    case '*' => Some(Multiply)
    case '/' => Some(Divide)
    case '(' => Some(LParen)
    case ')' => Some(RParen)
    case _ => None
  }

  /** A character the tokenizer accepts: anything else is a lexical error. */
  predicate Recognized(c: char)
  {
    IsSpace(c) || IsIdentStart(c) || IsDigit(c) || PunctKind(c).Some?
  }

  /** The unexpected character and the scan position at which it was met. */
  datatype LexicalError = UnexpectedChar(ch: char, pos: nat)

  /** A token together with the input position of its first character. */
  datatype Located = Located(token: Token, start: nat)

  /** The position just after the lexeme of `l`. */
  function End(l: Located): nat
  {
    l.start + |l.token.lexeme|
  }

  /** The two longest-match scans: identifier characters, or decimal digits. */
  datatype Run = IdentRun | DigitRun

  predicate InRun(run: Run, c: char)
  {
    match run
    case IdentRun => IsIdentChar(c)
    case DigitRun => IsDigit(c)
  }

  /** Where the longest run of `run` characters starting at `i` ends. */
  function RunEnd(s: string, i: nat, run: Run): (j: nat)
    requires i <= |s|
    ensures i <= j <= |s|
    ensures forall k :: i <= k < j ==> InRun(run, s[k])
    ensures j == |s| || !InRun(run, s[j])
    decreases |s| - i
  {
    if i < |s| && InRun(run, s[i]) then RunEnd(s, i + 1, run) else i
  }

  /** The run end is the only position with both properties of `RunEnd`'s contract. */
  lemma {:induction false} RunEndUnique(s: string, i: nat, j: nat, run: Run)
    requires i <= j <= |s|
    requires forall k :: i <= k < j ==> InRun(run, s[k])
    requires j == |s| || !InRun(run, s[j])
    ensures RunEnd(s, i, run) == j
    decreases j - i
  {
    if i < j {
      RunEndUnique(s, i + 1, j, run);
    }
  }

  /** The tokens `done` followed by the outcome of scanning the rest. */
  function Prepend(done: seq<Located>, r: Result<seq<Located>, LexicalError>): Result<seq<Located>, LexicalError>
  {
    match r
    case Ok(rest) => Ok(done + rest)
    case Err(e) => Err(e)
  }

  lemma PrependTwice(done: seq<Located>, x: Located, r: Result<seq<Located>, LexicalError>)
    ensures Prepend(done, Prepend([x], r)) == Prepend(done + [x], r)
    ensures TokensOf(done + [x]) == TokensOf(done) + [x.token]
  {
    if r.Ok? {
      assert done + ([x] + r.value) == (done + [x]) + r.value;
    }
  }

  /** The token at `i` of `s` is `t`, and the scan goes on at `j`. */
  ghost predicate ScansTo(s: string, i: nat, t: Token, j: nat)
  {
    i < j <= |s| && !IsSpace(s[i]) &&
    if IsIdentStart(s[i]) then t == Token(Identifier, s[i..j]) && j == RunEnd(s, i, IdentRun)
    else if IsDigit(s[i]) then t == Token(Integer, s[i..j]) && j == RunEnd(s, i, DigitRun)
    else PunctKind(s[i]) == Some(t.kind) && t.lexeme == [s[i]] && j == i + 1
  }

  /** Scanning `s` from position `i`: the reference definition of the tokenizer loop. */
  function Scan(s: string, i: nat): Result<seq<Located>, LexicalError>
    requires i <= |s|
    decreases |s| - i
  {
    if i == |s| then Ok([])
    else
      var c := s[i];
      if IsSpace(c) then Scan(s, i + 1)
      else if IsIdentStart(c) then
        var j := RunEnd(s, i, IdentRun);
        Prepend([Located(Token(Identifier, s[i..j]), i)], Scan(s, j))
      else if IsDigit(c) then
        var j := RunEnd(s, i, DigitRun);
        Prepend([Located(Token(Integer, s[i..j]), i)], Scan(s, j))
      else
        match PunctKind(c)
        case Some(k) => Prepend([Located(Token(k, [c]), i)], Scan(s, i + 1))
        case None => Err(UnexpectedChar(c, i))
  }

  /**
   * Every token takes up at least one character, so there are at most as many
   * tokens as characters; an error is met within the scanned text.
   */
  lemma {:induction false} ScanBounds(s: string, i: nat)
    requires i <= |s|
    ensures Scan(s, i).Ok? ==> |Scan(s, i).value| <= |s| - i
    ensures Scan(s, i).Err? ==> i <= Scan(s, i).error.pos < |s|
    decreases |s| - i
  {
    if i < |s| {
      var c := s[i];
      if IsSpace(c) {
        ScanBounds(s, i + 1);
      } else if IsIdentStart(c) {
        ScanBounds(s, RunEnd(s, i, IdentRun));
      } else if IsDigit(c) {
        ScanBounds(s, RunEnd(s, i, DigitRun));
      } else if PunctKind(c).Some? {
        ScanBounds(s, i + 1);
      }
    }
  }

  /** The scan emits the token `ScansTo` describes and carries on after it. */
  lemma ScanStep(s: string, i: nat, t: Token, j: nat)
    requires ScansTo(s, i, t, j)
    ensures Scan(s, i) == Prepend([Located(t, i)], Scan(s, j))
  {
  }

  /** The tokens of a located sequence. */
  function TokensOf(ls: seq<Located>): seq<Token>
  {
    seq(|ls|, k requires 0 <= k < |ls| => ls[k].token)
  }

  /** The tokenizer's result for `s` scanned from position `i`. */
  function Lex(s: string, i: nat): Result<seq<Token>, LexicalError>
    requires i <= |s|
  {
    match Scan(s, i)
    case Ok(ls) => Ok(TokensOf(ls))
    case Err(e) => Err(e)
  }

  /** The tokenizer returns at most one token per character, or an error inside the scanned text. */
  lemma LexBounds(s: string, i: nat)
    requires i <= |s|
    ensures Lex(s, i).Ok? ==> |Lex(s, i).value| <= |s| - i
    ensures Lex(s, i).Err? ==> i <= Lex(s, i).error.pos < |s|
  {
    ScanBounds(s, i);
  }

  // ---------------------------------------------------------------------
  // What a scan produces

  /** The shape a token of each kind has. */
  predicate WellFormed(t: Token)
  {
    match t.kind
    case Identifier =>
      |t.lexeme| > 0 && IsIdentStart(t.lexeme[0]) &&
      forall k :: 0 <= k < |t.lexeme| ==> IsIdentChar(t.lexeme[k])
    case Integer =>
      |t.lexeme| > 0 && forall k :: 0 <= k < |t.lexeme| ==> IsDigit(t.lexeme[k])
    case _ =>
      |t.lexeme| == 1 && PunctKind(t.lexeme[0]) == Some(t.kind)
  }

  /** An identifier or integer is not followed by a character that could extend it. */
  predicate Maximal(s: string, l: Located)
    requires End(l) <= |s|
  {
    match l.token.kind
    case Identifier => End(l) == |s| || !IsIdentChar(s[End(l)])
    case Integer => End(l) == |s| || !IsDigit(s[End(l)])
    case _ => true
  }

  /** `l` is a well-formed, maximal token whose lexeme is the text of `s` at its start. */
  predicate LocatedIn(s: string, l: Located)
  {
    End(l) <= |s| && s[l.start..End(l)] == l.token.lexeme &&
    WellFormed(l.token) && Maximal(s, l)
  }

  /** Every token lies in `s` at or after `i`, and the tokens follow one another without overlap. */
  predicate ValidScan(s: string, i: nat, ls: seq<Located>)
  {
    (forall k :: 0 <= k < |ls| ==> i <= ls[k].start && LocatedIn(s, ls[k])) &&
    (forall k, m :: 0 <= k < m < |ls| ==> End(ls[k]) <= ls[m].start)
  }

  lemma ValidScanCons(s: string, x: Located, j: nat, rest: seq<Located>)
    requires LocatedIn(s, x) && End(x) <= j && ValidScan(s, j, rest)
    ensures ValidScan(s, x.start, [x] + rest)
  {
    var ls := [x] + rest;
    forall k, m | 0 <= k < m < |ls| ensures End(ls[k]) <= ls[m].start {
      assert ls[m] == rest[m - 1];
      if k > 0 {
        assert ls[k] == rest[k - 1];
      }
    }
  }

  /**
   * One step of the scan at a recognised character that is not whitespace: it
   * emits the well-formed, maximal token `x` that ends at `j`, and carries on there.
   */
  lemma ScanOne(s: string, i: nat) returns (x: Located, j: nat)
    requires i < |s| && Recognized(s[i]) && !IsSpace(s[i])
    ensures x.start == i && End(x) == j && i < j <= |s| && LocatedIn(s, x)
    ensures forall p :: i <= p < j ==> Recognized(s[p]) && !IsSpace(s[p])
    ensures Scan(s, i) == Prepend([x], Scan(s, j))
  {
    var c := s[i];
    if IsIdentStart(c) || IsDigit(c) {
      var run := if IsIdentStart(c) then IdentRun else DigitRun;
      var kind := if IsIdentStart(c) then Identifier else Integer;
      j := RunEnd(s, i, run);
      x := Located(Token(kind, s[i..j]), i);
      assert j > i;
      assert End(x) == j;
    } else {
      j := i + 1;
      x := Located(Token(PunctKind(c).value, [c]), i);
    }
  }

  /** A successful scan yields well-formed, maximal tokens, located in order in the input. */
  lemma {:induction false} ScanIsValid(s: string, i: nat)
    requires i <= |s|
    ensures Scan(s, i).Ok? ==> ValidScan(s, i, Scan(s, i).value)
    decreases |s| - i
  {
    if i < |s| {
      if IsSpace(s[i]) {
        ScanIsValid(s, i + 1);
      } else if Recognized(s[i]) {
        var x, j := ScanOne(s, i);
        ScanIsValid(s, j);
        if Scan(s, j).Ok? {
          ValidScanCons(s, x, j, Scan(s, j).value);
        }
      }
    }
  }


  /** The lexemes of `ts`, concatenated. */
  function Text(ts: seq<Token>): string
  {
    if ts == [] then [] else ts[0].lexeme + Text(ts[1..])
  }

  /** `s` with every whitespace character removed. */
  function NonSpace(s: string): string
  {
    if s == [] then [] else (if IsSpace(s[0]) then [] else [s[0]]) + NonSpace(s[1..])
  }

  lemma {:induction false} NonSpaceRun(s: string, i: nat, j: nat)
    requires i <= j <= |s|
    requires forall k :: i <= k < j ==> !IsSpace(s[k])
    ensures NonSpace(s[i..]) == s[i..j] + NonSpace(s[j..])
    decreases j - i
  {
    if i < j {
      assert s[i..][1..] == s[i + 1..];
      NonSpaceRun(s, i + 1, j);
      assert [s[i]] + s[i + 1..j] == s[i..j];
    }
  }

  /** A successful scan loses no character but whitespace: its lexemes spell the input without it. */
  lemma {:induction false} ScanReconstructs(s: string, i: nat)
    requires i <= |s|
    ensures Scan(s, i).Ok? ==> Text(TokensOf(Scan(s, i).value)) == NonSpace(s[i..])
    decreases |s| - i
  {
    if i < |s| {
      if IsSpace(s[i]) {
        assert s[i..][1..] == s[i + 1..];
        ScanReconstructs(s, i + 1);
      } else if Recognized(s[i]) {
        var x, j := ScanOne(s, i);
        ScanReconstructs(s, j);
        if Scan(s, j).Ok? {
          ReconstructStep(s, i, j, x, Scan(s, j).value);
        }
      }
    }
  }


  /** One token in front of a reconstructing rest still reconstructs. */
  lemma ReconstructStep(s: string, i: nat, j: nat, x: Located, rest: seq<Located>)
    requires i <= j <= |s| && x.token.lexeme == s[i..j]
    requires forall k :: i <= k < j ==> !IsSpace(s[k])
    requires Text(TokensOf(rest)) == NonSpace(s[j..])
    ensures Text(TokensOf([x] + rest)) == NonSpace(s[i..])
  {
    assert TokensOf([x] + rest) == [x.token] + TokensOf(rest);
    assert ([x.token] + TokensOf(rest))[1..] == TokensOf(rest);
    NonSpaceRun(s, i, j);
  }

  /**
   * A scan fails exactly when some character from `i` on is not recognised,
   * and then it reports the first such character and its position.
   */
  lemma {:induction false} ScanFailsAtFirstUnrecognized(s: string, i: nat)
    requires i <= |s|
    ensures Scan(s, i).Ok? <==> forall p :: i <= p < |s| ==> Recognized(s[p])
    ensures Scan(s, i).Err? ==>
      var e := Scan(s, i).error;
      i <= e.pos < |s| && e.ch == s[e.pos] && !Recognized(e.ch) &&
      forall p :: i <= p < e.pos ==> Recognized(s[p])
    decreases |s| - i
  {
    if i < |s| {
      if IsSpace(s[i]) {
        ScanFailsAtFirstUnrecognized(s, i + 1);
      } else if Recognized(s[i]) {
        var x, j := ScanOne(s, i);
        ScanFailsAtFirstUnrecognized(s, j);
      }
    }
  }


  /**
   * The tokenizer's whole contract: it fails exactly when the input holds an
   * unrecognised character, reporting the first; otherwise its tokens are
   * well formed and their lexemes spell the input without its whitespace.
   */
  lemma LexContract(s: string)
    ensures Lex(s, 0).Err? <==> exists p :: 0 <= p < |s| && !Recognized(s[p])
    ensures Lex(s, 0).Err? ==>
      var e := Lex(s, 0).error;
      e.pos < |s| && e.ch == s[e.pos] && !Recognized(e.ch) &&
      forall p :: 0 <= p < e.pos ==> Recognized(s[p])
    ensures Lex(s, 0).Ok? ==>
      var ts := Lex(s, 0).value;
      Text(ts) == NonSpace(s) && forall k :: 0 <= k < |ts| ==> WellFormed(ts[k])
  {
    ScanFailsAtFirstUnrecognized(s, 0);
    ScanReconstructs(s, 0);
    ScanIsValid(s, 0);
    assert s[0..] == s;
    if Scan(s, 0).Err? {
      var e := Scan(s, 0).error;
      assert !Recognized(s[e.pos]);
    }
  }

  // ---------------------------------------------------------------------
  // The tokenizer as the source writes it

  /**
   * A tokenizer over one source string. Construction runs the scan at once;
   * `tokens` holds its result, an error standing for the raised exception.
   */
  class Tokenizer {
    const source: string
    var position: nat
    var tokens: Result<seq<Token>, LexicalError>

    constructor (source: string)
      ensures this.source == source
      ensures tokens == Lex(source, 0)
      ensures tokens.Ok? ==> position == |source|
      ensures tokens.Err? ==> position == tokens.error.pos
    {
      this.source := source;
      position := 0;
      tokens := Ok([]);
      new;
      tokens := Tokenize();
    }

    /**
     * The inner longest-match loop of an identifier or an integer: it appends
     * characters of the run to the lexeme while advancing the position.
     */
    method ReadRun(run: Run) returns (lexeme: string)
      requires position <= |source|
      modifies this`position
      ensures position == RunEnd(source, old(position), run)
      ensures lexeme == source[old(position)..position]
    {
      lexeme := "";
      while position < |source| && InRun(run, source[position])
        invariant old(position) <= position <= |source|
        invariant lexeme == source[old(position)..position]
        invariant RunEnd(source, old(position), run) == RunEnd(source, position, run)
        decreases |source| - position
      {
        lexeme := lexeme + [source[position]];
        position := position + 1;
      }
    }

    /**
     * The branches of the scan loop that start at a character other than
     * whitespace: an identifier, an integer or a one-character token, or
     * nothing when the character is not recognised.
     */
    method ReadToken() returns (t: Option<Token>)
      requires position < |source| && !IsSpace(source[position])
      modifies this`position
      ensures t.Some? ==> ScansTo(source, old(position), t.value, position)
      ensures t.None? ==> position == old(position) && !Recognized(source[position])
    {
      var c := source[position];
      if IsIdentStart(c) {
        var lexeme := ReadRun(IdentRun);
        t := Some(Token(Identifier, lexeme));
      } else if IsDigit(c) {
        var lexeme := ReadRun(DigitRun);
        t := Some(Token(Integer, lexeme));
      } else {
        match PunctKind(c)
        case Some(k) =>
          t := Some(Token(k, [c]));
          position := position + 1;
        case None =>
          t := None;
      }
    }

    /** The scan loop, from the current position to the end of the source or the first bad character. */
    method Tokenize() returns (r: Result<seq<Token>, LexicalError>)
      requires position <= |source|
      modifies this`position
      ensures r == Lex(source, old(position))
      ensures r.Ok? ==> position == |source|
      ensures r.Err? ==> position == r.error.pos
    {
      var out: seq<Token> := [];
      ghost var located: seq<Located> := [];
      if Scan(source, position).Ok? {
        assert [] + Scan(source, position).value == Scan(source, position).value;
      }
      while position < |source|
        invariant old(position) <= position <= |source|
        invariant Scan(source, old(position)) == Prepend(located, Scan(source, position))
        invariant out == TokensOf(located)
        decreases |source| - position
      {
        var c := source[position];
        if IsSpace(c) {
          position := position + 1;
        } else {
          var start := position;
          var t := ReadToken();
          if t.None? {
            return Err(UnexpectedChar(c, position));
          }
          ScanStep(source, start, t.value, position);
          PrependTwice(located, Located(t.value, start), Scan(source, position));
          out := out + [t.value];
          located := located + [Located(t.value, start)];
        }
      }
      assert Scan(source, position) == Ok([]);
      assert located + [] == located;
      return Ok(out);
    }
  }
}
