/**
 * The table-driven predictive parser (LL1Parser.java, method parse): a
 * stack of grammar symbols seeded with [$, Expr] (top on the right) and an
 * input pointer; each step matches a terminal or expands a non-terminal by
 * its table production pushed in reverse, until `$` is on top.
 */
module Parser {
  import opened Wrappers
  import opened Grammar
  import opened Lexer
  import opened LexerProperties
  import opened ParseMachine

  /** One Match step on the stack [$] + pending: popping the top pops the pending part, whose run continues one token on. */
  lemma {:induction false} StackMatch(tokens: seq<Token>, stack: seq<Symbol>, pending: seq<Symbol>, p: nat, t: Terminal)
    requires EndsWithEof(tokens) && p < |tokens| && NoEof(pending)
    requires stack == [T(Eof)] + pending && pending != []
    requires pending[|pending| - 1] == T(t) && tokens[p].ttype == TT(t)
    ensures p + 1 < |tokens|
    ensures stack[..|stack| - 1] == [T(Eof)] + pending[..|pending| - 1]
    ensures Phase(tokens, pending[..|pending| - 1], p + 1) == Phase(tokens, pending, p)
  {
    var rest := pending[..|pending| - 1];
    assert pending == rest + [T(t)];
    PhaseMatchLast(tokens, rest, t, p);
    assert stack[..|stack| - 1] == [T(Eof)] + rest;
  }

  /** Expanding the top of [$] + pending expands the pending part and keeps the bottom `$`. */
  lemma {:induction false} StackExpand(stack: seq<Symbol>, pending: seq<Symbol>, rule: seq<Symbol>)
    requires stack == [T(Eof)] + pending && pending != []
    ensures Expand(stack, rule) == [T(Eof)] + Expand(pending, rule)
  {
    ExpandUnder([T(Eof)], pending, rule);
  }

  /** Once the lexer succeeded, the only `$` token is the last one. */
  lemma {:induction false} LexEofOnlyAtEnd(input: string)
    requires Lex(input)[0].ttype != ErrorType
    ensures EofOnlyAtEnd(Lex(input))
  {
    LexValidWhenNotError(input);
    LexSuccess(input);
  }

  /**
   * The parser as the source writes it. Returns the token list when the
   * input is accepted and None (Java's null) otherwise. On acceptance the
   * stack is exactly [$] and the number of Match steps equals the number of
   * tokens before the `$` token.
   */
  method Parse(input: string) returns (r: Option<seq<Token>>, ghost finalStack: seq<Symbol>, ghost matches: nat)
    ensures r == (if Verdict(Lex(input)) == Accepted then Some(Lex(input)) else None)
    ensures r.Some? ==> finalStack == [T(Eof)] && matches == |r.value| - 1
  {
    var tokens := Tokenize(input);
    if tokens[0].ttype == ErrorType {
      return None, [], 0;
    }
    LexEofOnlyAtEnd(input);
    var accepted;
    accepted, finalStack, matches := RunMachine(tokens);
    if accepted {
      return Some(tokens), finalStack, matches;
    } else {
      return None, finalStack, matches;
    }
  }

  /**
   * The stack machine of the parser: the stack starts as [$, Expr] and the
   * loop runs until `$` is on top; a failed Match or a missing table cell
   * rejects at once, and at the end the input must be at its `$` token.
   * On every exit the bottom `$` is still in place and is the stack's only `$`.
   */
  method RunMachine(tokens: seq<Token>) returns (accepted: bool, ghost finalStack: seq<Symbol>, ghost matches: nat)
    requires EofOnlyAtEnd(tokens)
    ensures accepted == (Finish(tokens, Phase(tokens, [N(StartSymbol)], 0)) == Accepted)
    ensures accepted ==> finalStack == [T(Eof)] && matches == |tokens| - 1
    ensures |finalStack| > 0 && finalStack[0] == T(Eof) && NoEof(finalStack[1..])
  {
    var stack := [T(Eof), N(StartSymbol)];
    ghost var pending := [N(StartSymbol)];
    ghost var goal := Phase(tokens, pending, 0);
    var inputPointer := 0;
    matches := 0;

    while stack[|stack| - 1] != T(Eof)
      invariant inputPointer < |tokens|
      invariant NoEof(pending) && stack == [T(Eof)] + pending
      invariant Phase(tokens, pending, inputPointer) == goal
      invariant matches == inputPointer
      decreases |tokens| - inputPointer, TopIsNonTerminal(pending), Weight(pending)
    {
      var stackTop := stack[|stack| - 1];
      var currentTokenObj := tokens[inputPointer];
      match stackTop
      case T(t) =>
        if currentTokenObj.ttype == TT(t) {
          StackMatch(tokens, stack, pending, inputPointer, t);
          stack := stack[..|stack| - 1];
          pending := pending[..|pending| - 1];
          inputPointer := inputPointer + 1;
          matches := matches + 1;
        } else {
          PhaseMismatch(tokens, pending, inputPointer, t);
          assert stack[1..] == pending;
          return false, stack, matches;
        }
      case N(a) =>
        var rule := Rule(a, currentTokenObj.ttype);
        if rule.None? {
          PhaseNoEntry(tokens, pending, inputPointer, a);
          assert stack[1..] == pending;
          return false, stack, matches;
        }
        PhaseExpand(tokens, pending, inputPointer, a);
        ExpandDecreases(pending, a, currentTokenObj.ttype);
        StackExpand(stack, pending, rule.value);
        ghost var expanded := Expand(stack, rule.value);
        pending := Expand(pending, rule.value);
        stack := stack[..|stack| - 1];
        if rule.value != [] {
          stack := PushReversed(stack, rule.value);
        }
        assert stack == expanded;
    }

    finalStack := stack;
    assert stack[1..] == pending;
    if tokens[inputPointer].ttype == TT(Eof) && stack[|stack| - 1] == T(Eof) {
      return true, finalStack, matches;
    } else {
      return false, finalStack, matches;
    }
  }

  /** Pushing a production's symbols from its last to its first, so that the first ends on top. */
  method PushReversed(stack: seq<Symbol>, symbols: seq<Symbol>) returns (r: seq<Symbol>)
    ensures r == stack + Reverse(symbols)
  {
    r := stack;
    var i := |symbols|;
    while i > 0
      invariant 0 <= i <= |symbols|
      invariant r == stack + Reverse(symbols[i..])
    {
      i := i - 1;
      ReverseStep(symbols, i);
      r := r + [symbols[i]];
    }
    assert symbols[0..] == symbols;
  }
}
