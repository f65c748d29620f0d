/** What the parser's verdict can be, and worked runs of the stack machine on small inputs. */
module ParserProperties {
  import opened Wrappers
  import opened Grammar
  import opened Lexer
  import opened LexerProperties
  import opened ParseMachine
  import opened Parser

  /**
   * The verdicts: a lexical error exactly when the token list starts with
   * ERROR, carrying that token; acceptance exactly when the machine uses up
   * the start symbol and stops at the `$` token; the stack reaching `$`
   * anywhere else is the "unexpected end" case, whose token is not `$`.
   */
  lemma {:induction false} VerdictOutcomes(input: string)
    ensures var tokens := Lex(input);
      var v := Verdict(tokens);
      && (v.LexicalError? <==> tokens[0].ttype == ErrorType)
      && (v.LexicalError? ==> v.bad == tokens[0])
      && (v.Accepted? <==>
            && tokens[0].ttype != ErrorType
            && Phase(tokens, [N(StartSymbol)], 0).Done?
            && Phase(tokens, [N(StartSymbol)], 0).pos == |tokens| - 1)
      && (v.UnexpectedEnd? ==> v.found.ttype != TT(Eof))
  {
    var tokens := Lex(input);
    if tokens[0].ttype != ErrorType {
      LexEofOnlyAtEnd(input);
    }
  }

  /** The tokens of ".+": a `.`, a `+` and the `$` marker. */
  lemma {:induction false} LexDotPlus()
    ensures Lex(".+") == [Token(TT(Dot), ".", 0), Token(TT(Plus), "+", 1), EndToken(2)]
  {
    var input := ".+";
    var t0 := Token(TT(Dot), ".", 0);
    var t1 := Token(TT(Plus), "+", 1);
    assert LexFrom(input, 0, []) == LexStep(input, 0, []);
    assert LexStep(input, 0, []) == LexFrom(input, 1, [t0]);
    assert LexFrom(input, 1, [t0]) == LexStep(input, 1, [t0]);
    assert LexStep(input, 1, [t0]) == LexFrom(input, 2, [t0] + [t1]);
    assert [t0] + [t1] + [EndToken(2)] == [t0, t1, EndToken(2)];
  }

  /**
   * ".+" is rejected with no table entry: after Num -> . Digits has matched
   * the `.`, Digits (whose only entry is for `d`) meets the `+`.
   */
  lemma {:induction false} DotPlusRejected()
    ensures Verdict(Lex(".+")) == UnexpectedToken(Token(TT(Plus), "+", 1), Digits)
  {
    LexDotPlus();
    var tokens := Lex(".+");
    var s1 := [N(ExprPrime), N(Term)];
    var s2 := [N(ExprPrime), N(TermPrime), N(Factor)];
    var s3 := [N(ExprPrime), N(TermPrime), N(Num)];
    var s4 := [N(ExprPrime), N(TermPrime), N(Digits), T(Dot)];
    var s5 := [N(ExprPrime), N(TermPrime), N(Digits)];
    ReversePair(N(Term), N(ExprPrime));
    ReversePair(N(Factor), N(TermPrime));
    ReversePair(T(Dot), N(Digits));
    ReverseSingle(N(Num));
    PhaseExpand(tokens, [N(Expr)], 0, Expr);
    assert Expand([N(Expr)], [N(Term), N(ExprPrime)]) == s1;
    PhaseExpand(tokens, s1, 0, Term);
    assert Expand(s1, [N(Factor), N(TermPrime)]) == s2;
    PhaseExpand(tokens, s2, 0, Factor);
    assert Expand(s2, [N(Num)]) == s3;
    PhaseExpand(tokens, s3, 0, Num);
    assert Expand(s3, [T(Dot), N(Digits)]) == s4;
    PhaseMatch(tokens, s4, 0, Dot);
    assert s4[..3] == s5;
    PhaseNoEntry(tokens, s5, 1, Digits);
  }

  /** The tokens of "1)": a `d`, a `)` and the `$` marker. */
  lemma {:induction false} LexOneClose()
    ensures Lex("1)") == [Token(TT(Digit), "1", 0), Token(TT(RParen), ")", 1), EndToken(2)]
  {
    var input := "1)";
    var t0 := Token(TT(Digit), "1", 0);
    var t1 := Token(TT(RParen), ")", 1);
    assert LexFrom(input, 0, []) == LexStep(input, 0, []);
    assert LexStep(input, 0, []) == LexFrom(input, 1, [t0]);
    assert LexFrom(input, 1, [t0]) == LexStep(input, 1, [t0]);
    assert LexStep(input, 1, [t0]) == LexFrom(input, 2, [t0] + [t1]);
    assert [t0] + [t1] + [EndToken(2)] == [t0, t1, EndToken(2)];
  }

  /**
   * On a leading digit the machine expands Expr down to Num -> d Digits'
   * Num_tail and matches the digit, leaving the four tails on the stack.
   */
  lemma {:induction false} DigitOpens(tokens: seq<Token>, p: nat)
    requires EndsWithEof(tokens) && p < |tokens| && tokens[p].ttype == TT(Digit)
    ensures p + 1 < |tokens|
    ensures Phase(tokens, [N(Expr)], p)
         == Phase(tokens, [N(ExprPrime), N(TermPrime), N(NumTail), N(DigitsPrime)], p + 1)
  {
    var s1 := [N(ExprPrime), N(Term)];
    var s2 := [N(ExprPrime), N(TermPrime), N(Factor)];
    var s3 := [N(ExprPrime), N(TermPrime), N(Num)];
    var s4 := [N(ExprPrime), N(TermPrime), N(NumTail), N(DigitsPrime), T(Digit)];
    ReversePair(N(Term), N(ExprPrime));
    ReversePair(N(Factor), N(TermPrime));
    ReverseTriple(T(Digit), N(DigitsPrime), N(NumTail));
    ReverseSingle(N(Num));
    PhaseExpand(tokens, [N(Expr)], p, Expr);
    assert Expand([N(Expr)], [N(Term), N(ExprPrime)]) == s1;
    PhaseExpand(tokens, s1, p, Term);
    assert Expand(s1, [N(Factor), N(TermPrime)]) == s2;
    PhaseExpand(tokens, s2, p, Factor);
    assert Expand(s2, [N(Num)]) == s3;
    PhaseExpand(tokens, s3, p, Num);
    assert Expand(s3, [T(Digit), N(DigitsPrime), N(NumTail)]) == s4;
    PhaseMatch(tokens, s4, p, Digit);
    assert s4[..4] == [N(ExprPrime), N(TermPrime), N(NumTail), N(DigitsPrime)];
  }

  /** On `)` or `$` each of the four tails takes its ε entry, so they are used up without consuming it. */
  lemma {:induction false} TailsClose(tokens: seq<Token>, p: nat)
    requires EndsWithEof(tokens) && p < |tokens|
    requires tokens[p].ttype == TT(RParen) || tokens[p].ttype == TT(Eof)
    ensures Phase(tokens, [N(ExprPrime), N(TermPrime), N(NumTail), N(DigitsPrime)], p) == Done(p)
  {
    var s5 := [N(ExprPrime), N(TermPrime), N(NumTail), N(DigitsPrime)];
    var s6 := [N(ExprPrime), N(TermPrime), N(NumTail)];
    var s7 := [N(ExprPrime), N(TermPrime)];
    var s8 := [N(ExprPrime)];
    assert Reverse([]) == [];
    PhaseExpand(tokens, s5, p, DigitsPrime);
    assert Expand(s5, []) == s6;
    PhaseExpand(tokens, s6, p, NumTail);
    assert Expand(s6, []) == s7;
    PhaseExpand(tokens, s7, p, TermPrime);
    assert Expand(s7, []) == s8;
    PhaseExpand(tokens, s8, p, ExprPrime);
    assert Expand(s8, []) == [];
  }

  /**
   * "1)" is rejected at the end: the number is parsed, every tail takes its
   * ε entry on `)`, and the stack is down to `$` while the token is `)`.
   */
  lemma {:induction false} OneCloseRejected()
    ensures Verdict(Lex("1)")) == UnexpectedEnd(Token(TT(RParen), ")", 1))
  {
    LexOneClose();
    var tokens := Lex("1)");
    DigitOpens(tokens, 0);
    TailsClose(tokens, 1);
  }
}
