/**
 * The lexer (LL1Parser.java, class Token and method tokenize): one token per
 * significant character, whitespace skipped, the first invalid character
 * replacing the whole result by a single ERROR token, and a `$` end marker
 * at position |input| on success.
 */
module Lexer {
  import opened Wrappers
  import opened Grammar

  /** A token's type: one of the terminals, or the lexer's "ERROR" marker. */
  datatype TokenType = TT(t: Terminal) | ErrorType

  /** A token: its type, the original lexeme, and its zero-based offset in the input. */
  datatype Token = Token(ttype: TokenType, value: string, position: nat)

  /** The ASCII digits; `Character.isDigit` restricted to ASCII. */
  predicate IsDigit(c: char) { '0' <= c <= '9' }

  /**
   * `Character.isWhitespace` restricted to ASCII: horizontal tab, line feed,
   * vertical tab, form feed, carriage return, the four separators 0x1C-0x1F
   * and space.
   */
  predicate IsWhitespace(c: char) { 9 <= c as int <= 13 || 28 <= c as int <= 32 }

  /** The token type of a significant character, None for an invalid one. */
  function Classify(c: char): (r: Option<Terminal>)
    ensures r.Some? ==> r.value != Eof
    ensures (r.Some? && r.value == Digit) <==> IsDigit(c)
  {
    if IsDigit(c) then Some(Digit)
    else if c == '+' then Some(Plus)
    else if c == '-' then Some(Minus)
    else if c == '*' then Some(Times)
    else if c == '/' then Some(Divide)
    else if c == '(' then Some(LParen)
    else if c == ')' then Some(RParen)
    else if c == '.' then Some(Dot)
    else None
  }

  /** A character the lexer rejects: neither whitespace nor classified. */
  predicate Invalid(c: char) { !IsWhitespace(c) && Classify(c).None? }

  /** The end-of-input token for an input of length n. */
  function EndToken(n: nat): Token { Token(TT(Eof), "$", n) }

  /**
   * The lexer's result once the characters before index i have produced the
   * tokens acc: the scan continues at i, an invalid character discards acc.
   */
  function LexFrom(input: string, i: nat, acc: seq<Token>): (r: seq<Token>)
    requires i <= |input|
    ensures (|r| == 1 && r[0].ttype == ErrorType && r[0].position < |input|)
         || (|acc| < |r| && r[|r| - 1] == EndToken(|input|))
    decreases |input| - i, 1
  {
    if i == |input| then acc + [EndToken(|input|)] else LexStep(input, i, acc)
  }

  /**
   * One turn of the scan at the character at i: whitespace is skipped, a
   * significant character appends its token, an invalid one ends the scan
   * with the single ERROR token.
   */
  function LexStep(input: string, i: nat, acc: seq<Token>): (r: seq<Token>)
    requires i < |input|
    ensures (|r| == 1 && r[0].ttype == ErrorType && r[0].position < |input|)
         || (|acc| < |r| && r[|r| - 1] == EndToken(|input|))
    decreases |input| - i, 0
  {
    if IsWhitespace(input[i]) then LexFrom(input, i + 1, acc)
    else match Classify(input[i])
      case Some(t) => LexFrom(input, i + 1, acc + [Token(TT(t), [input[i]], i)])
      case None => [Token(ErrorType, [input[i]], i)]
  }

  /** The lexer's result for a whole input. */
  function Lex(input: string): (r: seq<Token>)
    ensures (|r| == 1 && r[0].ttype == ErrorType) || (|r| > 0 && r[|r| - 1] == EndToken(|input|))
  {
    LexFrom(input, 0, [])
  }

  /** The lexer as the source writes it: a loop appending to a list. */
  method Tokenize(input: string) returns (tokens: seq<Token>)
    ensures tokens == Lex(input)
  {
    tokens := [];
    for i := 0 to |input|
      invariant LexFrom(input, i, tokens) == Lex(input)
    {
      var c := input[i];
      var val := [c];
      if IsWhitespace(c) {
        continue;
      }
      if IsDigit(c) {
        tokens := tokens + [Token(TT(Digit), val, i)];
      } else if c == '+' {
        tokens := tokens + [Token(TT(Plus), val, i)];
      } else if c == '-' {
        tokens := tokens + [Token(TT(Minus), val, i)];
      } else if c == '*' {
        tokens := tokens + [Token(TT(Times), val, i)];
      } else if c == '/' {
        tokens := tokens + [Token(TT(Divide), val, i)];
      } else if c == '(' {
        tokens := tokens + [Token(TT(LParen), val, i)];
      } else if c == ')' {
        tokens := tokens + [Token(TT(RParen), val, i)];
      } else if c == '.' {
        tokens := tokens + [Token(TT(Dot), val, i)];
      } else {
        tokens := [];
        tokens := tokens + [Token(ErrorType, val, i)];
        return;
      }
    }
    tokens := tokens + [EndToken(|input|)];
  }
}
