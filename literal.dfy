/**
 * The round trip of a number literal: the text of every NumberNode the
 * builder can make lexes to one token per character, the parser accepts
 * it, and the builder gives back a NumberNode holding exactly that text.
 */
module Literals {
  import opened Wrappers
  import opened Grammar
  import opened Lexer
  import opened LexerProperties
  import opened ParseMachine
  import opened Parser
  import opened ParserProperties
  import opened Ast
  import opened Descent
  import opened DescentProperties
  import opened Agreement

  /** The token type of a literal character: `d` for a digit, `.` otherwise. */
  function LiteralType(c: char): TokenType
  {
    if IsDigit(c) then TT(Digit) else TT(Dot)
  }

  /** tokens is one token per character of s, then `$`. */
  ghost predicate LiteralTokens(s: string, tokens: seq<Token>)
  {
    && |tokens| == |s| + 1
    && tokens[|s|] == EndToken(|s|)
    && forall k :: 0 <= k < |s| ==> tokens[k] == Token(LiteralType(s[k]), [s[k]], k)
  }

  /** Every character of a literal text is a digit or the point. */
  lemma {:induction false} NumberTextChars(s: string)
    requires NumberText(s)
    ensures forall k :: 0 <= k < |s| ==> IsDigit(s[k]) || s[k] == '.'
  {
    if |s| > 0 && s[0] == '.' && DigitString(s[1..]) {
      forall k | 1 <= k < |s| ensures IsDigit(s[k]) {
        assert s[1..][k - 1] == s[k];
      }
    } else if !DigitString(s) {
      var k :| 0 < k < |s| && s[k] == '.' && DigitString(s[..k]) && DigitString(s[k + 1..]);
      forall j | 0 <= j < |s| && j != k ensures IsDigit(s[j]) {
        if j < k {
          assert s[..k][j] == s[j];
        } else {
          assert s[k + 1..][j - k - 1] == s[j];
        }
      }
    }
  }

  /** A literal text lexes to one token per character, then `$`. */
  lemma {:induction false} LexLiteral(s: string)
    requires NumberText(s)
    ensures LiteralTokens(s, Lex(s))
  {
    NumberTextChars(s);
    LexIsScanned(s);
    ScannedEach(s, |s|);
  }

  /** The characters of s from a to b are digits, so their tokens are `d`. */
  lemma {:induction false} DigitTokens(s: string, tokens: seq<Token>, a: nat, b: nat)
    requires LiteralTokens(s, tokens) && a <= b <= |s| && DigitString(s[a..b])
    ensures forall k :: a <= k < b ==> tokens[k].ttype == TT(Digit)
  {
    forall k | a <= k < b ensures tokens[k].ttype == TT(Digit) {
      assert s[a..b][k - a] == s[k];
    }
  }

  /** The values of a literal's tokens spell the literal back. */
  lemma {:induction false} LiteralValues(s: string, tokens: seq<Token>, p: nat)
    requires LiteralTokens(s, tokens) && p <= |s|
    ensures Values(tokens, p, |s|) == s[p..]
    decreases |s| - p
  {
    if p < |s| {
      LiteralValues(s, tokens, p + 1);
      assert s[p..] == [s[p]] + s[p + 1..];
    }
  }

  /** Digits' on top of base matches every `d` from p up to q. */
  lemma {:induction false} DigitsPrimeMatches(tokens: seq<Token>, base: seq<Symbol>, p: nat, q: nat)
    requires EndsWithEof(tokens) && p <= q < |tokens| && NoEof(base)
    requires forall k :: p <= k < q ==> tokens[k].ttype == TT(Digit)
    ensures NoEof(base + [N(DigitsPrime)])
    ensures Phase(tokens, base + [N(DigitsPrime)], p) == Phase(tokens, base + [N(DigitsPrime)], q)
    decreases q - p
  {
    var s := base + [N(DigitsPrime)];
    assert NoEof(s);
    if p < q {
      ReversePair(T(Digit), N(DigitsPrime));
      PhaseUnder(tokens, base, DigitsPrime, p, [T(Digit), N(DigitsPrime)]);
      assert base + [N(DigitsPrime), T(Digit)] == s + [T(Digit)];
      PhaseMatchLast(tokens, s, Digit, p);
      DigitsPrimeMatches(tokens, base, p + 1, q);
    }
  }

  /**
   * From the `.` at k with Digits under it: the point and the digits up to
   * the `$` at n are matched and every tail takes its ε entry at `$`.
   */
  lemma {:induction false} FractionAccepted(tokens: seq<Token>, k: nat, n: nat)
    requires EndsWithEof(tokens) && k + 1 < n < |tokens|
    requires tokens[k].ttype == TT(Dot) && tokens[n].ttype == TT(Eof)
    requires forall j :: k < j < n ==> tokens[j].ttype == TT(Digit)
    ensures Phase(tokens, [N(ExprPrime), N(TermPrime), N(Digits), T(Dot)], k) == Done(n)
  {
    var tails := [N(ExprPrime), N(TermPrime)];
    assert tails + [N(Digits)] + [T(Dot)] == [N(ExprPrime), N(TermPrime), N(Digits), T(Dot)];
    PhaseMatchLast(tokens, tails + [N(Digits)], Dot, k);
    ReversePair(T(Digit), N(DigitsPrime));
    PhaseUnder(tokens, tails, Digits, k + 1, [T(Digit), N(DigitsPrime)]);
    assert tails + [N(DigitsPrime), T(Digit)] == tails + [N(DigitsPrime)] + [T(Digit)];
    PhaseMatchLast(tokens, tails + [N(DigitsPrime)], Digit, k + 1);
    DigitsPrimeMatches(tokens, tails, k + 2, n);
    assert tails + [N(DigitsPrime)] == [N(ExprPrime), N(TermPrime), N(DigitsPrime)];
    FractionTailsClose(tokens, n);
  }

  /** At `$` the tails under the fraction's digits, Digits', Term' and Expr', take their ε entries. */
  lemma {:induction false} FractionTailsClose(tokens: seq<Token>, n: nat)
    requires EndsWithEof(tokens) && n < |tokens| && tokens[n].ttype == TT(Eof)
    ensures Phase(tokens, [N(ExprPrime), N(TermPrime), N(DigitsPrime)], n) == Done(n)
  {
    var tails := [N(ExprPrime), N(TermPrime)];
    assert tails + [N(DigitsPrime)] == [N(ExprPrime), N(TermPrime), N(DigitsPrime)];
    PhaseEpsilon(tokens, tails, DigitsPrime, n);
    assert tails == [N(ExprPrime)] + [N(TermPrime)];
    PhaseEpsilon(tokens, [N(ExprPrime)], TermPrime, n);
    assert [N(ExprPrime)] == [] + [N(ExprPrime)];
    PhaseEpsilon(tokens, [], ExprPrime, n);
  }

  /** ".ddd$": Num -> . Digits, then the fraction. */
  lemma {:induction false} PointFirstAccepted(tokens: seq<Token>, n: nat)
    requires EndsWithEof(tokens) && 1 < n < |tokens|
    requires tokens[0].ttype == TT(Dot) && tokens[n].ttype == TT(Eof)
    requires forall j :: 0 < j < n ==> tokens[j].ttype == TT(Digit)
    ensures Phase(tokens, [N(Expr)], 0) == Done(n)
  {
    ReversePair(N(Term), N(ExprPrime));
    ReversePair(N(Factor), N(TermPrime));
    ReverseSingle(N(Num));
    ReversePair(T(Dot), N(Digits));
    assert [N(Expr)] == [] + [N(Expr)];
    PhaseUnder(tokens, [], Expr, 0, [N(Term), N(ExprPrime)]);
    assert [] + [N(ExprPrime), N(Term)] == [N(ExprPrime)] + [N(Term)];
    PhaseUnder(tokens, [N(ExprPrime)], Term, 0, [N(Factor), N(TermPrime)]);
    var tails := [N(ExprPrime), N(TermPrime)];
    assert [N(ExprPrime)] + [N(TermPrime), N(Factor)] == tails + [N(Factor)];
    PhaseUnder(tokens, tails, Factor, 0, [N(Num)]);
    PhaseUnder(tokens, tails, Num, 0, [T(Dot), N(Digits)]);
    assert tails + [N(Digits), T(Dot)] == [N(ExprPrime), N(TermPrime), N(Digits), T(Dot)];
    FractionAccepted(tokens, 0, n);
  }

  /** "ddd$": Num -> d Digits' Num_tail, the digits, then the tails on `$`. */
  lemma {:induction false} DigitsOnlyAccepted(tokens: seq<Token>, n: nat)
    requires EndsWithEof(tokens) && 0 < n < |tokens| && tokens[n].ttype == TT(Eof)
    requires forall j :: 0 <= j < n ==> tokens[j].ttype == TT(Digit)
    ensures Phase(tokens, [N(Expr)], 0) == Done(n)
  {
    DigitOpens(tokens, 0);
    var tails := [N(ExprPrime), N(TermPrime), N(NumTail)];
    assert tails + [N(DigitsPrime)] == [N(ExprPrime), N(TermPrime), N(NumTail), N(DigitsPrime)];
    DigitsPrimeMatches(tokens, tails, 1, n);
    TailsClose(tokens, n);
  }

  /** "ddd.ddd$": the integer digits, Digits' ε on `.`, Num_tail -> . Digits, then the fraction. */
  lemma {:induction false} DecimalAccepted(tokens: seq<Token>, k: nat, n: nat)
    requires EndsWithEof(tokens) && 0 < k && k + 1 < n < |tokens|
    requires tokens[k].ttype == TT(Dot) && tokens[n].ttype == TT(Eof)
    requires forall j :: 0 <= j < n && j != k ==> tokens[j].ttype == TT(Digit)
    ensures Phase(tokens, [N(Expr)], 0) == Done(n)
  {
    DigitOpens(tokens, 0);
    var tails := [N(ExprPrime), N(TermPrime), N(NumTail)];
    assert tails + [N(DigitsPrime)] == [N(ExprPrime), N(TermPrime), N(NumTail), N(DigitsPrime)];
    DigitsPrimeMatches(tokens, tails, 1, k);
    PhaseEpsilon(tokens, tails, DigitsPrime, k);
    ReversePair(T(Dot), N(Digits));
    assert tails == [N(ExprPrime), N(TermPrime)] + [N(NumTail)];
    PhaseUnder(tokens, [N(ExprPrime), N(TermPrime)], NumTail, k, [T(Dot), N(Digits)]);
    assert [N(ExprPrime), N(TermPrime)] + [N(Digits), T(Dot)]
        == [N(ExprPrime), N(TermPrime), N(Digits), T(Dot)];
    FractionAccepted(tokens, k, n);
  }

  /** The parser accepts the text of every number literal. */
  lemma {:induction false} LiteralAccepted(s: string)
    requires NumberText(s)
    ensures Verdict(Lex(s)) == Accepted
  {
    LexLiteral(s);
    var tokens := Lex(s);
    var n := |s|;
    assert EndsWithEof(tokens) && tokens[n].ttype == TT(Eof);
    if |s| > 0 && s[0] == '.' && DigitString(s[1..]) {
      DigitTokens(s, tokens, 1, n);
      PointFirstAccepted(tokens, n);
    } else if DigitString(s) {
      DigitTokens(s, tokens, 0, n);
      assert s[0..n] == s;
      DigitsOnlyAccepted(tokens, n);
    } else {
      var k :| 0 < k < |s| && s[k] == '.' && DigitString(s[..k]) && DigitString(s[k + 1..]);
      assert s[0..k] == s[..k];
      assert s[k + 1..n] == s[k + 1..];
      DigitTokens(s, tokens, 0, k);
      DigitTokens(s, tokens, k + 1, n);
      DecimalAccepted(tokens, k, n);
    }
  }

  /**
   * The literal round trip: re-lexing and re-parsing the text of a number
   * literal is accepted and builds the NumberNode holding that text.
   */
  lemma {:induction false} LiteralRoundTrip(s: string)
    requires NumberText(s)
    ensures Verdict(Lex(s)) == Accepted
    ensures BuildTree(Lex(s)) == Some(NumberNode(s))
  {
    LiteralAccepted(s);
    LexLiteral(s);
    AcceptedBuilds(s);
    LexSpelled(s);
    var tokens := Lex(s);
    assert !At(tokens, 0, LParen) && !At(tokens, 0, Minus);
    assert FactorFrom(tokens, 0) == NumFrom(tokens, 0);
    var f := NumFrom(tokens, 0).value;
    NumberLiteral(tokens, 0);
    var m := f.next;
    assert !At(tokens, m, Times) && !At(tokens, m, Divide);
    assert TermPrimeFrom(tokens, f.value, m) == Some(f);
    assert TermFrom(tokens, 0) == Some(f);
    assert !At(tokens, m, Plus) && !At(tokens, m, Minus);
    assert ExprPrimeFrom(tokens, f.value, m) == Some(f);
    assert m == |s|;
    LiteralValues(s, tokens, 0);
  }

  /** Every number leaf of the tree round-trips: its text is accepted and rebuilds that leaf. */
  ghost predicate LeavesRoundTrip(n: ExprNode)
  {
    match n
    case NumberNode(v) => Verdict(Lex(v)) == Accepted && BuildTree(Lex(v)) == Some(NumberNode(v))
    case UnaryOpNode(_, c) => LeavesRoundTrip(c)
    case BinaryOpNode(l, _, r) => LeavesRoundTrip(l) && LeavesRoundTrip(r)
  }

  /** A tree whose leaves are literal texts has leaves that round-trip. */
  lemma {:induction false} LiteralLeavesRoundTrip(n: ExprNode)
    requires LiteralLeaves(n)
    ensures LeavesRoundTrip(n)
  {
    match n
    case NumberNode(v) => LiteralRoundTrip(v);
    case UnaryOpNode(_, c) => LiteralLeavesRoundTrip(c);
    case BinaryOpNode(l, _, r) =>
      LiteralLeavesRoundTrip(l);
      LiteralLeavesRoundTrip(r);
  }

  /**
   * For every accepted input, every number leaf of the built tree is a
   * literal's text, and relexing and reparsing that text is accepted and
   * rebuilds the same leaf.
   */
  lemma {:induction false} AcceptedLeavesRoundTrip(input: string)
    requires Verdict(Lex(input)) == Accepted
    ensures BuildTree(Lex(input)).Some?
    ensures LiteralLeaves(BuildTree(Lex(input)).value)
    ensures LeavesRoundTrip(BuildTree(Lex(input)).value)
  {
    AcceptedBuilds(input);
    LexSpelled(input);
    ExprLeaves(Lex(input), 0);
    LiteralLeavesRoundTrip(BuildTree(Lex(input)).value);
  }
}
