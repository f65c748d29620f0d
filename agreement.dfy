/**
 * The table-driven parser and the recursive-descent tree builder agree:
 * whenever the parser's stack machine uses up a non-terminal between two
 * positions, the builder method for that non-terminal succeeds over the
 * same tokens. So an accepted input always yields a tree (the driver's
 * build() after a successful parse never returns null), and that tree
 * covers every token before `$`.
 */
module Agreement {
  import opened Wrappers
  import opened Grammar
  import opened Lexer
  import opened ParseMachine
  import opened Parser
  import opened Ast
  import opened Descent

  /**
   * Running the machine on base + top (top nearest the top of the stack)
   * first uses up top, then runs base from where top stopped.
   */
  lemma {:induction false} PhaseBind(tokens: seq<Token>, base: seq<Symbol>, top: seq<Symbol>, p: nat)
    requires EndsWithEof(tokens) && p < |tokens| && NoEof(base) && NoEof(top)
    ensures NoEof(base + top)
    ensures Phase(tokens, base + top, p) ==
      match Phase(tokens, top, p)
      case Done(q) => Phase(tokens, base, q)
      case Rejected(why) => Rejected(why)
    decreases |tokens| - p, TopIsNonTerminal(top), Weight(top), 1
  {
    if top == [] {
      assert base + top == base;
    } else {
      match top[|top| - 1]
      case T(t) => PhaseBindMatch(tokens, base, top, p, t);
      case N(a) => PhaseBindExpand(tokens, base, top, p, a);
    }
  }

  /** PhaseBind when a terminal is on top: both runs match it or both reject. */
  lemma {:induction false} PhaseBindMatch(tokens: seq<Token>, base: seq<Symbol>, top: seq<Symbol>, p: nat, t: Terminal)
    requires EndsWithEof(tokens) && p < |tokens| && NoEof(base) && NoEof(top)
    requires top != [] && top[|top| - 1] == T(t)
    ensures NoEof(base + top)
    ensures Phase(tokens, base + top, p) ==
      match Phase(tokens, top, p)
      case Done(q) => Phase(tokens, base, q)
      case Rejected(why) => Rejected(why)
    decreases |tokens| - p, TopIsNonTerminal(top), Weight(top), 0
  {
    var s := base + top;
    assert s[|s| - 1] == top[|top| - 1];
    if tokens[p].ttype == TT(t) {
      PhaseMatch(tokens, s, p, t);
      PhaseMatch(tokens, top, p, t);
      assert s[..|s| - 1] == base + top[..|top| - 1];
      PhaseBind(tokens, base, top[..|top| - 1], p + 1);
    } else {
      PhaseMismatch(tokens, s, p, t);
      PhaseMismatch(tokens, top, p, t);
    }
  }

  /** PhaseBind when a non-terminal is on top: both runs expand it by the same cell or both reject. */
  lemma {:induction false} PhaseBindExpand(tokens: seq<Token>, base: seq<Symbol>, top: seq<Symbol>, p: nat, a: NonTerminal)
    requires EndsWithEof(tokens) && p < |tokens| && NoEof(base) && NoEof(top)
    requires top != [] && top[|top| - 1] == N(a)
    ensures NoEof(base + top)
    ensures Phase(tokens, base + top, p) ==
      match Phase(tokens, top, p)
      case Done(q) => Phase(tokens, base, q)
      case Rejected(why) => Rejected(why)
    decreases |tokens| - p, TopIsNonTerminal(top), Weight(top), 0
  {
    var s := base + top;
    assert s[|s| - 1] == top[|top| - 1];
    var ty := tokens[p].ttype;
    if Rule(a, ty).Some? {
      var rule := Rule(a, ty).value;
      PhaseExpand(tokens, s, p, a);
      PhaseExpand(tokens, top, p, a);
      ExpandDecreases(top, a, ty);
      ExpandUnder(base, top, rule);
      PhaseBind(tokens, base, Expand(top, rule), p);
    } else {
      PhaseNoEntry(tokens, s, p, a);
      PhaseNoEntry(tokens, top, p, a);
    }
  }

  /** The machine on two symbols, y on top, finishes only if y is used up first; then x runs from there. */
  lemma {:induction false} PhaseSeq(tokens: seq<Token>, x: Symbol, y: Symbol, p: nat)
    requires EndsWithEof(tokens) && p < |tokens| && x != T(Eof) && y != T(Eof)
    requires NoEof([x, y]) && Phase(tokens, [x, y], p).Done?
    ensures Phase(tokens, [y], p).Done? && Phase(tokens, [y], p).pos < |tokens|
    ensures Phase(tokens, [x, y], p) == Phase(tokens, [x], Phase(tokens, [y], p).pos)
  {
    assert [x] + [y] == [x, y];
    PhaseBind(tokens, [x], [y], p);
  }

  /** Matching the terminal on top of [x, y, T(t)] leaves [x, y] one token on. */
  lemma {:induction false} PhaseMatchTriple(tokens: seq<Token>, x: Symbol, y: Symbol, t: Terminal, p: nat)
    requires EndsWithEof(tokens) && p < |tokens| && x != T(Eof) && y != T(Eof) && t != Eof
    requires tokens[p].ttype == TT(t)
    ensures p + 1 < |tokens| && NoEof([x, y]) && NoEof([x, y, T(t)])
    ensures Phase(tokens, [x, y, T(t)], p) == Phase(tokens, [x, y], p + 1)
  {
    assert [x, y] + [T(t)] == [x, y, T(t)];
    PhaseMatchLast(tokens, [x, y], t, p);
  }

  /** Matching the terminal on top of [x, T(t)] leaves [x] one token on. */
  lemma {:induction false} PhaseMatchPair(tokens: seq<Token>, x: Symbol, t: Terminal, p: nat)
    requires EndsWithEof(tokens) && p < |tokens| && x != T(Eof) && t != Eof
    requires tokens[p].ttype == TT(t)
    ensures p + 1 < |tokens| && NoEof([x]) && NoEof([x, T(t)])
    ensures Phase(tokens, [x, T(t)], p) == Phase(tokens, [x], p + 1)
  {
    assert [x] + [T(t)] == [x, T(t)];
    PhaseMatchLast(tokens, [x], t, p);
  }

  /** A non-terminal alone on the stack that is used up at all has a table entry for the lookahead. */
  lemma {:induction false} PhaseNeedsRule(tokens: seq<Token>, a: NonTerminal, p: nat)
    requires EndsWithEof(tokens) && p < |tokens| && Phase(tokens, [N(a)], p).Done?
    ensures Rule(a, tokens[p].ttype).Some?
  {
    assert Phase(tokens, [N(a)], p) == PhaseStep(tokens, [N(a)], p);
    assert PhaseStep(tokens, [N(a)], p) == PhaseExpandStep(tokens, [N(a)], p, a);
  }

  /** Expanding a lone non-terminal by its production: the production's first symbol goes on top. */
  lemma {:induction false} PhaseProduction(tokens: seq<Token>, a: NonTerminal, p: nat, rule: seq<Symbol>)
    requires EndsWithEof(tokens) && p < |tokens| && Rule(a, tokens[p].ttype) == Some(rule)
    ensures NoEof(Reverse(rule))
    ensures Phase(tokens, [N(a)], p) == Phase(tokens, Reverse(rule), p)
  {
    RuleNoEof(a, tokens[p].ttype);
    PhaseExpand(tokens, [N(a)], p, a);
    assert Expand([N(a)], rule) == Reverse(rule);
  }

  /** Expr -> Term ExprPrime: Term is used up first, then ExprPrime from where it stopped. */
  lemma {:induction false} ExprSteps(tokens: seq<Token>, p: nat)
    requires EndsWithEof(tokens) && p < |tokens| && Phase(tokens, [N(Expr)], p).Done?
    ensures Phase(tokens, [N(Term)], p).Done? && Phase(tokens, [N(Term)], p).pos < |tokens|
    ensures Phase(tokens, [N(Expr)], p) == Phase(tokens, [N(ExprPrime)], Phase(tokens, [N(Term)], p).pos)
  {
    PhaseNeedsRule(tokens, Expr, p);
    PhaseProduction(tokens, Expr, p, [N(Term), N(ExprPrime)]);
    ReversePair(N(Term), N(ExprPrime));
    PhaseSeq(tokens, N(ExprPrime), N(Term), p);
  }

  /** ExprPrime -> + Term ExprPrime | - Term ExprPrime. */
  lemma {:induction false} ExprPrimeStepsOp(tokens: seq<Token>, p: nat)
    requires EndsWithEof(tokens) && p < |tokens| && Phase(tokens, [N(ExprPrime)], p).Done?
    requires At(tokens, p, Plus) || At(tokens, p, Minus)
    ensures p + 1 < |tokens| && Phase(tokens, [N(Term)], p + 1).Done? && Phase(tokens, [N(Term)], p + 1).pos < |tokens|
    ensures Phase(tokens, [N(ExprPrime)], p) == Phase(tokens, [N(ExprPrime)], Phase(tokens, [N(Term)], p + 1).pos)
  {
    var op := tokens[p].ttype.t;
    PhaseProduction(tokens, ExprPrime, p, [T(op), N(Term), N(ExprPrime)]);
    ReverseTriple(T(op), N(Term), N(ExprPrime));
    PhaseMatchTriple(tokens, N(ExprPrime), N(Term), op, p);
    PhaseSeq(tokens, N(ExprPrime), N(Term), p + 1);
  }

  /** ExprPrime -> (nothing), before `)` or `$`. */
  lemma {:induction false} ExprPrimeStepsEnd(tokens: seq<Token>, p: nat)
    requires EndsWithEof(tokens) && p < |tokens| && Phase(tokens, [N(ExprPrime)], p).Done?
    requires !At(tokens, p, Plus) && !At(tokens, p, Minus)
    ensures Phase(tokens, [N(ExprPrime)], p).pos == p
  {
    PhaseNeedsRule(tokens, ExprPrime, p);
    PhaseProduction(tokens, ExprPrime, p, []);
  }

  /** Term -> Factor TermPrime: Factor is used up first, then TermPrime from where it stopped. */
  lemma {:induction false} TermSteps(tokens: seq<Token>, p: nat)
    requires EndsWithEof(tokens) && p < |tokens| && Phase(tokens, [N(Term)], p).Done?
    ensures Phase(tokens, [N(Factor)], p).Done? && Phase(tokens, [N(Factor)], p).pos < |tokens|
    ensures Phase(tokens, [N(Term)], p) == Phase(tokens, [N(TermPrime)], Phase(tokens, [N(Factor)], p).pos)
  {
    PhaseNeedsRule(tokens, Term, p);
    PhaseProduction(tokens, Term, p, [N(Factor), N(TermPrime)]);
    ReversePair(N(Factor), N(TermPrime));
    PhaseSeq(tokens, N(TermPrime), N(Factor), p);
  }

  /** TermPrime -> * Factor TermPrime | / Factor TermPrime. */
  lemma {:induction false} TermPrimeStepsOp(tokens: seq<Token>, p: nat)
    requires EndsWithEof(tokens) && p < |tokens| && Phase(tokens, [N(TermPrime)], p).Done?
    requires At(tokens, p, Times) || At(tokens, p, Divide)
    ensures p + 1 < |tokens| && Phase(tokens, [N(Factor)], p + 1).Done? && Phase(tokens, [N(Factor)], p + 1).pos < |tokens|
    ensures Phase(tokens, [N(TermPrime)], p) == Phase(tokens, [N(TermPrime)], Phase(tokens, [N(Factor)], p + 1).pos)
  {
    var op := tokens[p].ttype.t;
    PhaseProduction(tokens, TermPrime, p, [T(op), N(Factor), N(TermPrime)]);
    ReverseTriple(T(op), N(Factor), N(TermPrime));
    PhaseMatchTriple(tokens, N(TermPrime), N(Factor), op, p);
    PhaseSeq(tokens, N(TermPrime), N(Factor), p + 1);
  }

  /** TermPrime -> (nothing), before `+`, `-`, `)` or `$`. */
  lemma {:induction false} TermPrimeStepsEnd(tokens: seq<Token>, p: nat)
    requires EndsWithEof(tokens) && p < |tokens| && Phase(tokens, [N(TermPrime)], p).Done?
    requires !At(tokens, p, Times) && !At(tokens, p, Divide)
    ensures Phase(tokens, [N(TermPrime)], p).pos == p
  {
    PhaseNeedsRule(tokens, TermPrime, p);
    PhaseProduction(tokens, TermPrime, p, []);
  }

  /** Factor -> ( Expr ). */
  lemma {:induction false} FactorStepsParen(tokens: seq<Token>, p: nat)
    requires EndsWithEof(tokens) && p < |tokens| && Phase(tokens, [N(Factor)], p).Done?
    requires At(tokens, p, LParen)
    ensures p + 1 < |tokens| && Phase(tokens, [N(Expr)], p + 1).Done? && Phase(tokens, [N(Expr)], p + 1).pos < |tokens|
    ensures Phase(tokens, [N(Factor)], p) == Phase(tokens, [T(RParen)], Phase(tokens, [N(Expr)], p + 1).pos)
  {
    PhaseProduction(tokens, Factor, p, [T(LParen), N(Expr), T(RParen)]);
    ReverseTriple(T(LParen), N(Expr), T(RParen));
    PhaseMatchTriple(tokens, T(RParen), N(Expr), LParen, p);
    PhaseSeq(tokens, T(RParen), N(Expr), p + 1);
  }

  /** Factor -> - Factor. */
  lemma {:induction false} FactorStepsNegate(tokens: seq<Token>, p: nat)
    requires EndsWithEof(tokens) && p < |tokens| && Phase(tokens, [N(Factor)], p).Done?
    requires !At(tokens, p, LParen) && At(tokens, p, Minus)
    ensures p + 1 < |tokens| && Phase(tokens, [N(Factor)], p) == Phase(tokens, [N(Factor)], p + 1)
  {
    PhaseProduction(tokens, Factor, p, [T(Minus), N(Factor)]);
    ReversePair(T(Minus), N(Factor));
    PhaseMatchPair(tokens, N(Factor), Minus, p);
  }

  /** Factor -> Num, on any other lookahead that has an entry. */
  lemma {:induction false} FactorStepsNum(tokens: seq<Token>, p: nat)
    requires EndsWithEof(tokens) && p < |tokens| && Phase(tokens, [N(Factor)], p).Done?
    requires !At(tokens, p, LParen) && !At(tokens, p, Minus)
    ensures Phase(tokens, [N(Factor)], p) == Phase(tokens, [N(Num)], p)
  {
    PhaseNeedsRule(tokens, Factor, p);
    PhaseProduction(tokens, Factor, p, [N(Num)]);
    ReverseSingle(N(Num));
  }

  /** Num -> . Digits. */
  lemma {:induction false} NumStepsDot(tokens: seq<Token>, p: nat)
    requires EndsWithEof(tokens) && p < |tokens| && Phase(tokens, [N(Num)], p).Done?
    requires At(tokens, p, Dot)
    ensures p + 1 < |tokens| && Phase(tokens, [N(Num)], p) == Phase(tokens, [N(Digits)], p + 1)
  {
    PhaseProduction(tokens, Num, p, [T(Dot), N(Digits)]);
    ReversePair(T(Dot), N(Digits));
    PhaseMatchPair(tokens, N(Digits), Dot, p);
  }

  /** Num -> d DigitsPrime NumTail, the only other entry for Num. */
  lemma {:induction false} NumStepsDigits(tokens: seq<Token>, p: nat)
    requires EndsWithEof(tokens) && p < |tokens| && Phase(tokens, [N(Num)], p).Done?
    requires !At(tokens, p, Dot)
    ensures At(tokens, p, Digit) && p + 1 < |tokens|
    ensures Phase(tokens, [N(DigitsPrime)], p + 1).Done? && Phase(tokens, [N(DigitsPrime)], p + 1).pos < |tokens|
    ensures Phase(tokens, [N(Num)], p) == Phase(tokens, [N(NumTail)], Phase(tokens, [N(DigitsPrime)], p + 1).pos)
  {
    PhaseNeedsRule(tokens, Num, p);
    PhaseProduction(tokens, Num, p, [T(Digit), N(DigitsPrime), N(NumTail)]);
    ReverseTriple(T(Digit), N(DigitsPrime), N(NumTail));
    PhaseMatchTriple(tokens, N(NumTail), N(DigitsPrime), Digit, p);
    PhaseSeq(tokens, N(NumTail), N(DigitsPrime), p + 1);
  }

  /** NumTail -> . Digits. */
  lemma {:induction false} NumTailStepsDot(tokens: seq<Token>, p: nat)
    requires EndsWithEof(tokens) && p < |tokens| && Phase(tokens, [N(NumTail)], p).Done?
    requires At(tokens, p, Dot)
    ensures p + 1 < |tokens| && Phase(tokens, [N(NumTail)], p) == Phase(tokens, [N(Digits)], p + 1)
  {
    PhaseProduction(tokens, NumTail, p, [T(Dot), N(Digits)]);
    ReversePair(T(Dot), N(Digits));
    PhaseMatchPair(tokens, N(Digits), Dot, p);
  }

  /** NumTail -> (nothing), before an operator, `)` or `$`. */
  lemma {:induction false} NumTailStepsEnd(tokens: seq<Token>, p: nat)
    requires EndsWithEof(tokens) && p < |tokens| && Phase(tokens, [N(NumTail)], p).Done?
    requires !At(tokens, p, Dot)
    ensures Phase(tokens, [N(NumTail)], p).pos == p
  {
    PhaseNeedsRule(tokens, NumTail, p);
    PhaseProduction(tokens, NumTail, p, []);
  }

  /** Digits -> d DigitsPrime, its only entry. */
  lemma {:induction false} DigitsSteps(tokens: seq<Token>, p: nat)
    requires EndsWithEof(tokens) && p < |tokens| && Phase(tokens, [N(Digits)], p).Done?
    ensures At(tokens, p, Digit) && p + 1 < |tokens|
    ensures Phase(tokens, [N(Digits)], p) == Phase(tokens, [N(DigitsPrime)], p + 1)
  {
    PhaseNeedsRule(tokens, Digits, p);
    PhaseProduction(tokens, Digits, p, [T(Digit), N(DigitsPrime)]);
    ReversePair(T(Digit), N(DigitsPrime));
    PhaseMatchPair(tokens, N(DigitsPrime), Digit, p);
  }

  /** DigitsPrime -> d DigitsPrime. */
  lemma {:induction false} DigitsPrimeStepsMore(tokens: seq<Token>, p: nat)
    requires EndsWithEof(tokens) && p < |tokens| && Phase(tokens, [N(DigitsPrime)], p).Done?
    requires At(tokens, p, Digit)
    ensures p + 1 < |tokens| && Phase(tokens, [N(DigitsPrime)], p) == Phase(tokens, [N(DigitsPrime)], p + 1)
  {
    PhaseProduction(tokens, DigitsPrime, p, [T(Digit), N(DigitsPrime)]);
    ReversePair(T(Digit), N(DigitsPrime));
    PhaseMatchPair(tokens, N(DigitsPrime), Digit, p);
  }

  /** DigitsPrime -> (nothing), before an operator, `)`, `.` or `$`. */
  lemma {:induction false} DigitsPrimeStepsEnd(tokens: seq<Token>, p: nat)
    requires EndsWithEof(tokens) && p < |tokens| && Phase(tokens, [N(DigitsPrime)], p).Done?
    requires !At(tokens, p, Digit)
    ensures Phase(tokens, [N(DigitsPrime)], p).pos == p
  {
    PhaseNeedsRule(tokens, DigitsPrime, p);
    PhaseProduction(tokens, DigitsPrime, p, []);
  }

  /** A lone `)` on the stack is used up only by a `)` token. */
  lemma {:induction false} CloseAgrees(tokens: seq<Token>, q: nat)
    requires EndsWithEof(tokens) && q < |tokens| && Phase(tokens, [T(RParen)], q).Done?
    ensures At(tokens, q, RParen) && Phase(tokens, [T(RParen)], q) == Done(q + 1)
  {
    if tokens[q].ttype == TT(RParen) {
      PhaseMatch(tokens, [T(RParen)], q, RParen);
      assert [T(RParen)][..0] == [];
    } else {
      PhaseMismatch(tokens, [T(RParen)], q, RParen);
    }
  }

  /** Where the machine uses up Expr from p, expr() succeeds and stops at the same position. */
  lemma {:induction false} ExprAgrees(tokens: seq<Token>, p: nat)
    requires EndsWithEof(tokens) && p < |tokens| && Phase(tokens, [N(Expr)], p).Done?
    ensures ExprFrom(tokens, p).Some? && ExprFrom(tokens, p).value.next == Phase(tokens, [N(Expr)], p).pos
    decreases |tokens| - p, 6
  {
    ExprSteps(tokens, p);
    TermAgrees(tokens, p);
    var t := TermFrom(tokens, p).value;
    ExprPrimeAgrees(tokens, t.value, t.next);
    var e := ExprPrimeFrom(tokens, t.value, t.next).value;
    assert ExprFrom(tokens, p) == Some(e);
  }

  /** The same for ExprPrime, whatever tree expr_prime receives. */
  lemma {:induction false} ExprPrimeAgrees(tokens: seq<Token>, left: ExprNode, p: nat)
    requires EndsWithEof(tokens) && p < |tokens| && Phase(tokens, [N(ExprPrime)], p).Done?
    ensures ExprPrimeFrom(tokens, left, p).Some?
    ensures ExprPrimeFrom(tokens, left, p).value.next == Phase(tokens, [N(ExprPrime)], p).pos
    decreases |tokens| - p, 1
  {
    if At(tokens, p, Plus) || At(tokens, p, Minus) {
      ExprPrimeAgreesOp(tokens, left, p);
    } else {
      ExprPrimeAgreesEnd(tokens, left, p);
    }
  }

  /** ExprPrime on `+` or `-`: the operator, a term, and the rest of the tail. */
  lemma {:induction false} ExprPrimeAgreesOp(tokens: seq<Token>, left: ExprNode, p: nat)
    requires EndsWithEof(tokens) && p < |tokens| && Phase(tokens, [N(ExprPrime)], p).Done?
    requires At(tokens, p, Plus) || At(tokens, p, Minus)
    ensures ExprPrimeFrom(tokens, left, p).Some?
    ensures ExprPrimeFrom(tokens, left, p).value.next == Phase(tokens, [N(ExprPrime)], p).pos
    decreases |tokens| - p, 0
  {
    ExprPrimeStepsOp(tokens, p);
    TermAgrees(tokens, p + 1);
    var t := TermFrom(tokens, p + 1).value;
    var combined := BinaryOpNode(left, tokens[p].value, t.value);
    ExprPrimeAgrees(tokens, combined, t.next);
    var e := ExprPrimeFrom(tokens, combined, t.next).value;
    assert ExprPrimeFrom(tokens, left, p) == Some(e);
  }

  /** ExprPrime on anything else: nothing is used up. */
  lemma {:induction false} ExprPrimeAgreesEnd(tokens: seq<Token>, left: ExprNode, p: nat)
    requires EndsWithEof(tokens) && p < |tokens| && Phase(tokens, [N(ExprPrime)], p).Done?
    requires !At(tokens, p, Plus) && !At(tokens, p, Minus)
    ensures ExprPrimeFrom(tokens, left, p).Some?
    ensures ExprPrimeFrom(tokens, left, p).value.next == Phase(tokens, [N(ExprPrime)], p).pos
  {
    ExprPrimeStepsEnd(tokens, p);
    assert ExprPrimeFrom(tokens, left, p) == Some(Parsed(left, p));
  }

  lemma {:induction false} TermAgrees(tokens: seq<Token>, p: nat)
    requires EndsWithEof(tokens) && p < |tokens| && Phase(tokens, [N(Term)], p).Done?
    ensures TermFrom(tokens, p).Some? && TermFrom(tokens, p).value.next == Phase(tokens, [N(Term)], p).pos
    decreases |tokens| - p, 5
  {
    TermSteps(tokens, p);
    FactorAgrees(tokens, p);
    var f := FactorFrom(tokens, p).value;
    TermPrimeAgrees(tokens, f.value, f.next);
    var e := TermPrimeFrom(tokens, f.value, f.next).value;
    assert TermFrom(tokens, p) == Some(e);
  }

  lemma {:induction false} TermPrimeAgrees(tokens: seq<Token>, left: ExprNode, p: nat)
    requires EndsWithEof(tokens) && p < |tokens| && Phase(tokens, [N(TermPrime)], p).Done?
    ensures TermPrimeFrom(tokens, left, p).Some?
    ensures TermPrimeFrom(tokens, left, p).value.next == Phase(tokens, [N(TermPrime)], p).pos
    decreases |tokens| - p, 1
  {
    if At(tokens, p, Times) || At(tokens, p, Divide) {
      TermPrimeAgreesOp(tokens, left, p);
    } else {
      TermPrimeAgreesEnd(tokens, left, p);
    }
  }

  /** TermPrime on `*` or `/`: the operator, a factor, and the rest of the tail. */
  lemma {:induction false} TermPrimeAgreesOp(tokens: seq<Token>, left: ExprNode, p: nat)
    requires EndsWithEof(tokens) && p < |tokens| && Phase(tokens, [N(TermPrime)], p).Done?
    requires At(tokens, p, Times) || At(tokens, p, Divide)
    ensures TermPrimeFrom(tokens, left, p).Some?
    ensures TermPrimeFrom(tokens, left, p).value.next == Phase(tokens, [N(TermPrime)], p).pos
    decreases |tokens| - p, 0
  {
    TermPrimeStepsOp(tokens, p);
    FactorAgrees(tokens, p + 1);
    var f := FactorFrom(tokens, p + 1).value;
    var combined := BinaryOpNode(left, tokens[p].value, f.value);
    TermPrimeAgrees(tokens, combined, f.next);
    var e := TermPrimeFrom(tokens, combined, f.next).value;
    assert TermPrimeFrom(tokens, left, p) == Some(e);
  }

  /** TermPrime on anything else: nothing is used up. */
  lemma {:induction false} TermPrimeAgreesEnd(tokens: seq<Token>, left: ExprNode, p: nat)
    requires EndsWithEof(tokens) && p < |tokens| && Phase(tokens, [N(TermPrime)], p).Done?
    requires !At(tokens, p, Times) && !At(tokens, p, Divide)
    ensures TermPrimeFrom(tokens, left, p).Some?
    ensures TermPrimeFrom(tokens, left, p).value.next == Phase(tokens, [N(TermPrime)], p).pos
  {
    TermPrimeStepsEnd(tokens, p);
    assert TermPrimeFrom(tokens, left, p) == Some(Parsed(left, p));
  }

  lemma {:induction false} FactorAgrees(tokens: seq<Token>, p: nat)
    requires EndsWithEof(tokens) && p < |tokens| && Phase(tokens, [N(Factor)], p).Done?
    ensures FactorFrom(tokens, p).Some? && FactorFrom(tokens, p).value.next == Phase(tokens, [N(Factor)], p).pos
    decreases |tokens| - p, 4
  {
    if At(tokens, p, LParen) {
      FactorAgreesParen(tokens, p);
    } else if At(tokens, p, Minus) {
      FactorAgreesNegate(tokens, p);
    } else {
      FactorAgreesNum(tokens, p);
    }
  }

  /** Factor on `(`: an expression and the closing `)`. */
  lemma {:induction false} FactorAgreesParen(tokens: seq<Token>, p: nat)
    requires EndsWithEof(tokens) && p < |tokens| && Phase(tokens, [N(Factor)], p).Done?
    requires At(tokens, p, LParen)
    ensures FactorFrom(tokens, p).Some? && FactorFrom(tokens, p).value.next == Phase(tokens, [N(Factor)], p).pos
    decreases |tokens| - p, 3
  {
    FactorStepsParen(tokens, p);
    ExprAgrees(tokens, p + 1);
    var e := ExprFrom(tokens, p + 1).value;
    CloseAgrees(tokens, e.next);
    assert FactorFrom(tokens, p) == Some(Parsed(e.value, e.next + 1));
  }

  /** Factor on `-`: a negated factor. */
  lemma {:induction false} FactorAgreesNegate(tokens: seq<Token>, p: nat)
    requires EndsWithEof(tokens) && p < |tokens| && Phase(tokens, [N(Factor)], p).Done?
    requires !At(tokens, p, LParen) && At(tokens, p, Minus)
    ensures FactorFrom(tokens, p).Some? && FactorFrom(tokens, p).value.next == Phase(tokens, [N(Factor)], p).pos
    decreases |tokens| - p, 3
  {
    FactorStepsNegate(tokens, p);
    FactorAgrees(tokens, p + 1);
    var f := FactorFrom(tokens, p + 1).value;
    assert FactorFrom(tokens, p) == Some(Parsed(UnaryOpNode(tokens[p].value, f.value), f.next));
  }

  /** Factor on anything else: a number. */
  lemma {:induction false} FactorAgreesNum(tokens: seq<Token>, p: nat)
    requires EndsWithEof(tokens) && p < |tokens| && Phase(tokens, [N(Factor)], p).Done?
    requires !At(tokens, p, LParen) && !At(tokens, p, Minus)
    ensures FactorFrom(tokens, p).Some? && FactorFrom(tokens, p).value.next == Phase(tokens, [N(Factor)], p).pos
    decreases |tokens| - p, 3
  {
    FactorStepsNum(tokens, p);
    NumAgrees(tokens, p);
    assert FactorFrom(tokens, p) == NumFrom(tokens, p);
  }

  lemma {:induction false} NumAgrees(tokens: seq<Token>, p: nat)
    requires EndsWithEof(tokens) && p < |tokens| && Phase(tokens, [N(Num)], p).Done?
    ensures NumFrom(tokens, p).Some? && NumFrom(tokens, p).value.next == Phase(tokens, [N(Num)], p).pos
    decreases |tokens| - p, 2
  {
    if At(tokens, p, Dot) {
      NumAgreesDot(tokens, p);
    } else {
      NumAgreesDigits(tokens, p);
    }
  }

  /** Num on `.`: a fraction only. */
  lemma {:induction false} NumAgreesDot(tokens: seq<Token>, p: nat)
    requires EndsWithEof(tokens) && p < |tokens| && Phase(tokens, [N(Num)], p).Done?
    requires At(tokens, p, Dot)
    ensures NumFrom(tokens, p).Some? && NumFrom(tokens, p).value.next == Phase(tokens, [N(Num)], p).pos
    decreases |tokens| - p, 1
  {
    NumStepsDot(tokens, p);
    DigitsAgrees(tokens, p + 1);
    var d := DigitsFrom(tokens, p + 1).value;
    assert NumFrom(tokens, p) == Some(Parsed(NumberNode("" + tokens[p].value + d.value), d.next));
  }

  /** Num on a digit: the whole part, then the optional fraction. */
  lemma {:induction false} NumAgreesDigits(tokens: seq<Token>, p: nat)
    requires EndsWithEof(tokens) && p < |tokens| && Phase(tokens, [N(Num)], p).Done?
    requires !At(tokens, p, Dot)
    ensures NumFrom(tokens, p).Some? && NumFrom(tokens, p).value.next == Phase(tokens, [N(Num)], p).pos
    decreases |tokens| - p, 1
  {
    NumStepsDigits(tokens, p);
    DigitsPrimeAgrees(tokens, p + 1);
    var d := DigitsPrimeFrom(tokens, p + 1).value;
    NumTailAgrees(tokens, d.next);
    var whole := tokens[p].value + d.value;
    assert DigitsFrom(tokens, p) == Some(Parsed(whole, d.next));
    var f := NumTailFrom(tokens, d.next).value;
    assert NumFrom(tokens, p) == Some(Parsed(NumberNode("" + whole + f.value), f.next));
  }

  lemma {:induction false} NumTailAgrees(tokens: seq<Token>, p: nat)
    requires EndsWithEof(tokens) && p < |tokens| && Phase(tokens, [N(NumTail)], p).Done?
    ensures NumTailFrom(tokens, p).Some? && NumTailFrom(tokens, p).value.next == Phase(tokens, [N(NumTail)], p).pos
    decreases |tokens| - p, 1
  {
    if At(tokens, p, Dot) {
      NumTailAgreesDot(tokens, p);
    } else {
      NumTailAgreesEnd(tokens, p);
    }
  }

  /** NumTail on `.`: the fraction. */
  lemma {:induction false} NumTailAgreesDot(tokens: seq<Token>, p: nat)
    requires EndsWithEof(tokens) && p < |tokens| && Phase(tokens, [N(NumTail)], p).Done?
    requires At(tokens, p, Dot)
    ensures NumTailFrom(tokens, p).Some? && NumTailFrom(tokens, p).value.next == Phase(tokens, [N(NumTail)], p).pos
    decreases |tokens| - p, 0
  {
    NumTailStepsDot(tokens, p);
    DigitsAgrees(tokens, p + 1);
    var d := DigitsFrom(tokens, p + 1).value;
    assert NumTailFrom(tokens, p) == Some(Parsed(tokens[p].value + d.value, d.next));
  }

  /** NumTail on anything else: nothing is used up. */
  lemma {:induction false} NumTailAgreesEnd(tokens: seq<Token>, p: nat)
    requires EndsWithEof(tokens) && p < |tokens| && Phase(tokens, [N(NumTail)], p).Done?
    requires !At(tokens, p, Dot)
    ensures NumTailFrom(tokens, p).Some? && NumTailFrom(tokens, p).value.next == Phase(tokens, [N(NumTail)], p).pos
  {
    NumTailStepsEnd(tokens, p);
    assert NumTailFrom(tokens, p) == Some(Parsed("", p));
  }

  lemma {:induction false} DigitsAgrees(tokens: seq<Token>, p: nat)
    requires EndsWithEof(tokens) && p < |tokens| && Phase(tokens, [N(Digits)], p).Done?
    ensures DigitsFrom(tokens, p).Some? && DigitsFrom(tokens, p).value.next == Phase(tokens, [N(Digits)], p).pos
    decreases |tokens| - p, 0
  {
    DigitsSteps(tokens, p);
    DigitsPrimeAgrees(tokens, p + 1);
    var d := DigitsPrimeFrom(tokens, p + 1).value;
    assert DigitsFrom(tokens, p) == Some(Parsed(tokens[p].value + d.value, d.next));
  }

  lemma {:induction false} DigitsPrimeAgrees(tokens: seq<Token>, p: nat)
    requires EndsWithEof(tokens) && p < |tokens| && Phase(tokens, [N(DigitsPrime)], p).Done?
    ensures DigitsPrimeFrom(tokens, p).Some?
    ensures DigitsPrimeFrom(tokens, p).value.next == Phase(tokens, [N(DigitsPrime)], p).pos
    decreases |tokens| - p, 1
  {
    if At(tokens, p, Digit) {
      DigitsPrimeAgreesMore(tokens, p);
    } else {
      DigitsPrimeAgreesEnd(tokens, p);
    }
  }

  /** DigitsPrime on a digit: that digit and the rest of the run. */
  lemma {:induction false} DigitsPrimeAgreesMore(tokens: seq<Token>, p: nat)
    requires EndsWithEof(tokens) && p < |tokens| && Phase(tokens, [N(DigitsPrime)], p).Done?
    requires At(tokens, p, Digit)
    ensures DigitsPrimeFrom(tokens, p).Some?
    ensures DigitsPrimeFrom(tokens, p).value.next == Phase(tokens, [N(DigitsPrime)], p).pos
    decreases |tokens| - p, 0
  {
    DigitsPrimeStepsMore(tokens, p);
    DigitsPrimeAgrees(tokens, p + 1);
    var d := DigitsPrimeFrom(tokens, p + 1).value;
    assert DigitsPrimeFrom(tokens, p) == Some(Parsed(tokens[p].value + d.value, d.next));
  }

  /** DigitsPrime on anything else: the run is over. */
  lemma {:induction false} DigitsPrimeAgreesEnd(tokens: seq<Token>, p: nat)
    requires EndsWithEof(tokens) && p < |tokens| && Phase(tokens, [N(DigitsPrime)], p).Done?
    requires !At(tokens, p, Digit)
    ensures DigitsPrimeFrom(tokens, p).Some?
    ensures DigitsPrimeFrom(tokens, p).value.next == Phase(tokens, [N(DigitsPrime)], p).pos
  {
    DigitsPrimeStepsEnd(tokens, p);
    assert DigitsPrimeFrom(tokens, p) == Some(Parsed("", p));
  }

  /**
   * An input the parser accepts always builds: expr() from the first token
   * succeeds and stops exactly at the `$` token.
   */
  lemma {:induction false} AcceptedBuilds(input: string)
    requires Verdict(Lex(input)) == Accepted
    ensures ExprFrom(Lex(input), 0).Some? && ExprFrom(Lex(input), 0).value.next == |Lex(input)| - 1
    ensures BuildTree(Lex(input)).Some?
  {
    var tokens := Lex(input);
    assert tokens[0].ttype != ErrorType;
    LexEofOnlyAtEnd(input);
    var r := Phase(tokens, [N(StartSymbol)], 0);
    assert Finish(tokens, r) == Accepted;
    assert r.Done?;
    assert tokens[r.pos].ttype == TT(Eof);
    assert r.pos == |tokens| - 1;
    ExprAgrees(tokens, 0);
  }
}
