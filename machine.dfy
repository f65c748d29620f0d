/**
 * The step semantics of the table-driven predictive parser (LL1Parser.java,
 * method parse), as functions: a stack of grammar symbols (top on the
 * right) over the token list; each step matches a terminal or expands a
 * non-terminal by its table production pushed in reverse.
 */
module ParseMachine {
  import opened Wrappers
  import opened Grammar
  import opened Lexer

  /** The outcome of a parse, naming the diagnostic the source reports on rejection. */
  datatype Outcome =
    | Accepted
    | LexicalError(bad: Token)
    | Mismatch(expected: Terminal, found: Token)
    | UnexpectedToken(found: Token, expanding: NonTerminal)
    | UnexpectedEnd(found: Token)

  /** The outcome of running the machine on a pending stack segment until it is used up. */
  datatype PhaseResult = Done(pos: nat) | Rejected(why: Outcome)

  /** The table cell for the current token's type; a token of type ERROR has no cell. */
  function Rule(a: NonTerminal, ty: TokenType): Option<seq<Symbol>>
  {
    match ty
    case TT(t) => Table(a, t)
    case ErrorType => None
  }

  /** s backwards: same length, `$` present exactly when it is in s, the first symbol last. */
  function Reverse(s: seq<Symbol>): (r: seq<Symbol>)
    ensures |r| == |s|
    ensures NoEof(r) <==> NoEof(s)
    ensures s != [] ==> r[|r| - 1] == s[0]
  {
    if s == [] then [] else [s[|s| - 1]] + Reverse(s[..|s| - 1])
  }

  /** Reverse puts the element at i at the mirrored index |s|-1-i. */
  lemma {:induction false} ReverseIndex(s: seq<Symbol>)
    ensures forall i :: 0 <= i < |s| ==> Reverse(s)[i] == s[|s| - 1 - i]
  {
    if s != [] {
      var front := s[..|s| - 1];
      ReverseIndex(front);
      var r := Reverse(s);
      forall i | 0 <= i < |s|
        ensures r[i] == s[|s| - 1 - i]
      {
        if 0 < i {
          assert r[i] == Reverse(front)[i - 1];
          assert front[|front| - 1 - (i - 1)] == s[|s| - 1 - i];
        }
      }
    }
  }

  /** Reversing x in front of t puts x at the end. */
  lemma {:induction false} ReverseCons(x: Symbol, t: seq<Symbol>)
    ensures Reverse([x] + t) == Reverse(t) + [x]
    decreases |t|
  {
    var s := [x] + t;
    if t == [] {
      assert s[..|s| - 1] == [];
    } else {
      var front := t[..|t| - 1];
      var last := [t[|t| - 1]];
      assert s[..|s| - 1] == [x] + front;
      assert s[|s| - 1] == t[|t| - 1];
      ReverseCons(x, front);
      calc {
        Reverse(s);
        last + Reverse([x] + front);
        last + (Reverse(front) + [x]);
        (last + Reverse(front)) + [x];
        Reverse(t) + [x];
      }
    }
  }

  /** Reversing a suffix one element longer appends that element: the push loop's step. */
  lemma {:induction false} ReverseStep(s: seq<Symbol>, i: nat)
    requires i < |s|
    ensures Reverse(s[i..]) == Reverse(s[i + 1..]) + [s[i]]
  {
    assert s[i..] == [s[i]] + s[i + 1..];
    ReverseCons(s[i], s[i + 1..]);
  }

  /** Reverse on the short literals the table's productions are made of. */
  lemma {:induction false} ReverseSingle(x: Symbol)
    ensures Reverse([x]) == [x]
  {
    assert [x][..0] == [];
  }

  lemma {:induction false} ReversePair(x: Symbol, y: Symbol)
    ensures Reverse([x, y]) == [y, x]
  {
    assert [x, y][..1] == [x];
    ReverseSingle(x);
  }

  lemma {:induction false} ReverseTriple(x: Symbol, y: Symbol, z: Symbol)
    ensures Reverse([x, y, z]) == [z, y, x]
  {
    assert [x, y, z][..2] == [x, y];
    ReversePair(x, y);
  }

  /** The symbol sequence does not contain the bottom marker `$`. */
  predicate NoEof(s: seq<Symbol>)
  {
    T(Eof) !in s
  }

  /**
   * Expanding the non-terminal on top of the stack by a production: the top
   * is popped, the production is pushed in reverse so that its leftmost
   * symbol is the new top (nothing is pushed for ε), and the rest of the
   * stack is unchanged.
   */
  function Expand(stack: seq<Symbol>, rule: seq<Symbol>): (r: seq<Symbol>)
    requires |stack| > 0
    ensures |r| == |stack| - 1 + |rule|
    ensures r[..|stack| - 1] == stack[..|stack| - 1]
    ensures rule != [] ==> r[|r| - 1] == rule[0]
    ensures NoEof(stack) && NoEof(rule) ==> NoEof(r)
  {
    stack[..|stack| - 1] + Reverse(rule)
  }

  /** The production's symbols lie on the stack in reverse: its i-th symbol is i below the top. */
  lemma {:induction false} ExpandOrder(stack: seq<Symbol>, rule: seq<Symbol>)
    requires |stack| > 0
    ensures var r := Expand(stack, rule);
      forall i :: 0 <= i < |rule| ==> r[|r| - 1 - i] == rule[i]
  {
    ReverseIndex(rule);
    var r := Expand(stack, rule);
    forall i | 0 <= i < |rule|
      ensures r[|r| - 1 - i] == rule[i]
    {
      assert r[|r| - 1 - i] == Reverse(rule)[|rule| - 1 - i];
    }
  }

  /** No production of the table mentions `$`. */
  lemma {:induction false} RuleNoEof(a: NonTerminal, ty: TokenType)
    ensures Rule(a, ty).Some? ==> NoEof(Rule(a, ty).value)
  {
  }

  /**
   * Symbol weights for the termination measure: a non-terminal outweighs the
   * production it expands to whenever that production starts with a
   * non-terminal (Expr -> Term Expr', Term -> Factor Term', Factor -> Num).
   */
  function SymbolWeight(x: Symbol): nat
  {
    match x
    case T(_) => 0
    case N(Expr) => 6
    case N(Term) => 4
    case N(Factor) => 2
    case N(_) => 1
  }

  function Weight(s: seq<Symbol>): nat
  {
    if s == [] then 0 else Weight(s[..|s| - 1]) + SymbolWeight(s[|s| - 1])
  }

  function TopIsNonTerminal(s: seq<Symbol>): nat
  {
    if |s| > 0 && s[|s| - 1].N? then 1 else 0
  }

  /** Pushing one symbol adds its weight. */
  lemma {:induction false} WeightPush(s: seq<Symbol>, x: Symbol)
    ensures Weight(s + [x]) == Weight(s) + SymbolWeight(x)
  {
    assert (s + [x])[..|s|] == s;
  }

  /** The only productions that start with a non-terminal. */
  lemma {:induction false} NonTerminalHeaded(a: NonTerminal, ty: TokenType)
    requires Rule(a, ty).Some? && Rule(a, ty).value != [] && Rule(a, ty).value[0].N?
    ensures || (a == Expr && Rule(a, ty).value == [N(Term), N(ExprPrime)])
            || (a == Term && Rule(a, ty).value == [N(Factor), N(TermPrime)])
            || (a == Factor && Rule(a, ty).value == [N(Num)])
  {
  }

  /** An ε expansion pops a non-terminal, which has positive weight. */
  lemma {:induction false} ExpandEmptyLighter(stack: seq<Symbol>)
    requires |stack| > 0 && stack[|stack| - 1].N?
    ensures Weight(Expand(stack, [])) < Weight(stack)
  {
    assert Expand(stack, []) == stack[..|stack| - 1];
  }

  /** Expanding by a production that starts with a terminal leaves that terminal on top. */
  lemma {:induction false} ExpandTerminalOnTop(stack: seq<Symbol>, rule: seq<Symbol>)
    requires |stack| > 0 && rule != [] && rule[0].T?
    ensures TopIsNonTerminal(Expand(stack, rule)) == 0
  {
  }

  /** Factor -> Num: weight 2 replaced by 1. */
  lemma {:induction false} ExpandFactorLighter(stack: seq<Symbol>)
    requires |stack| > 0 && stack[|stack| - 1] == N(Factor)
    ensures Weight(Expand(stack, [N(Num)])) < Weight(stack)
  {
    var base := stack[..|stack| - 1];
    assert Expand(stack, [N(Num)]) == base + [N(Num)];
    WeightPush(base, N(Num));
  }

  /** Pushing two symbols adds both weights. */
  lemma {:induction false} ExpandTwoWeight(stack: seq<Symbol>, x: Symbol, y: Symbol)
    requires |stack| > 0
    ensures Weight(Expand(stack, [x, y])) == Weight(stack[..|stack| - 1]) + SymbolWeight(x) + SymbolWeight(y)
  {
    var base := stack[..|stack| - 1];
    assert Expand(stack, [x, y]) == base + [y] + [x];
    WeightPush(base, y);
    WeightPush(base + [y], x);
  }

  /** Expr -> Term Expr': weight 6 replaced by 4 + 1. */
  lemma {:induction false} ExpandExprLighter(stack: seq<Symbol>)
    requires |stack| > 0 && stack[|stack| - 1] == N(Expr)
    ensures Weight(Expand(stack, [N(Term), N(ExprPrime)])) < Weight(stack)
  {
    ExpandTwoWeight(stack, N(Term), N(ExprPrime));
  }

  /** Term -> Factor Term': weight 4 replaced by 2 + 1. */
  lemma {:induction false} ExpandTermLighter(stack: seq<Symbol>)
    requires |stack| > 0 && stack[|stack| - 1] == N(Term)
    ensures Weight(Expand(stack, [N(Factor), N(TermPrime)])) < Weight(stack)
  {
    ExpandTwoWeight(stack, N(Factor), N(TermPrime));
  }

  /**
   * Every expansion either leaves a terminal on top (which the next step
   * matches or rejects) or strictly lowers the stack's weight.
   */
  lemma {:induction false} ExpandDecreases(stack: seq<Symbol>, a: NonTerminal, ty: TokenType)
    requires |stack| > 0 && stack[|stack| - 1] == N(a) && Rule(a, ty).Some?
    ensures var e := Expand(stack, Rule(a, ty).value);
      TopIsNonTerminal(e) == 0 || Weight(e) < Weight(stack)
  {
    var rule := Rule(a, ty).value;
    if rule == [] {
      ExpandEmptyLighter(stack);
    } else if rule[0].T? {
      ExpandTerminalOnTop(stack, rule);
    } else {
      NonTerminalHeaded(a, ty);
      if a == Factor {
        ExpandFactorLighter(stack);
      } else if a == Expr {
        ExpandExprLighter(stack);
      } else {
        ExpandTermLighter(stack);
      }
    }
  }

  /** The token list ends with the `$` token. */
  predicate EndsWithEof(tokens: seq<Token>)
  {
    |tokens| > 0 && tokens[|tokens| - 1].ttype == TT(Eof)
  }

  /** The token list ends with the `$` token and has no other. */
  predicate EofOnlyAtEnd(tokens: seq<Token>)
  {
    && EndsWithEof(tokens)
    && forall k :: 0 <= k < |tokens| - 1 ==> tokens[k].ttype != TT(Eof)
  }

  /**
   * The machine run on a pending stack segment (the part above the bottom
   * `$`) from input pointer p, until the segment is used up (Done at the
   * pointer reached) or a step rejects.
   */
  ghost function Phase(tokens: seq<Token>, pending: seq<Symbol>, p: nat): (r: PhaseResult)
    requires EndsWithEof(tokens) && p < |tokens| && NoEof(pending)
    ensures r.Done? ==> p <= r.pos < |tokens|
    ensures r.Rejected? ==> r.why.Mismatch? || r.why.UnexpectedToken?
    decreases |tokens| - p, TopIsNonTerminal(pending), Weight(pending), 2
  {
    if pending == [] then Done(p) else PhaseStep(tokens, pending, p)
  }

  /**
   * One step on a non-empty segment, then the rest of the run: the terminal
   * on top is matched against the lookahead, or the non-terminal on top is
   * expanded.
   */
  ghost function PhaseStep(tokens: seq<Token>, pending: seq<Symbol>, p: nat): (r: PhaseResult)
    requires EndsWithEof(tokens) && p < |tokens| && NoEof(pending) && pending != []
    ensures r.Done? ==> p <= r.pos < |tokens|
    ensures r.Rejected? ==> r.why.Mismatch? || r.why.UnexpectedToken?
    decreases |tokens| - p, TopIsNonTerminal(pending), Weight(pending), 1
  {
    match pending[|pending| - 1]
    case T(t) =>
      if tokens[p].ttype == TT(t) then Phase(tokens, pending[..|pending| - 1], p + 1)
      else Rejected(Mismatch(t, tokens[p]))
    case N(a) => PhaseExpandStep(tokens, pending, p, a)
  }

  /** The non-terminal a on top is replaced by its table cell for the lookahead's type, if there is one. */
  ghost function PhaseExpandStep(tokens: seq<Token>, pending: seq<Symbol>, p: nat, a: NonTerminal): (r: PhaseResult)
    requires EndsWithEof(tokens) && p < |tokens| && NoEof(pending)
    requires pending != [] && pending[|pending| - 1] == N(a)
    ensures r.Done? ==> p <= r.pos < |tokens|
    ensures r.Rejected? ==> r.why.Mismatch? || r.why.UnexpectedToken?
    decreases |tokens| - p, TopIsNonTerminal(pending), Weight(pending), 0
  {
    match Rule(a, tokens[p].ttype)
    case None => Rejected(UnexpectedToken(tokens[p], a))
    case Some(rule) =>
      RuleNoEof(a, tokens[p].ttype);
      ExpandDecreases(pending, a, tokens[p].ttype);
      Phase(tokens, Expand(pending, rule), p)
  }

  /** A Match step: the terminal on top equals the lookahead's type. */
  lemma {:induction false} PhaseMatch(tokens: seq<Token>, pending: seq<Symbol>, p: nat, t: Terminal)
    requires EndsWithEof(tokens) && p < |tokens| && NoEof(pending)
    requires pending != [] && pending[|pending| - 1] == T(t) && tokens[p].ttype == TT(t)
    ensures p + 1 < |tokens|
    ensures Phase(tokens, pending, p) == Phase(tokens, pending[..|pending| - 1], p + 1)
  {
    assert Phase(tokens, pending, p) == PhaseStep(tokens, pending, p);
  }

  /** An expansion step: the non-terminal on top has a table entry for the lookahead. */
  lemma {:induction false} PhaseExpand(tokens: seq<Token>, pending: seq<Symbol>, p: nat, a: NonTerminal)
    requires EndsWithEof(tokens) && p < |tokens| && NoEof(pending)
    requires pending != [] && pending[|pending| - 1] == N(a) && Rule(a, tokens[p].ttype).Some?
    ensures NoEof(Expand(pending, Rule(a, tokens[p].ttype).value))
    ensures Phase(tokens, pending, p) == Phase(tokens, Expand(pending, Rule(a, tokens[p].ttype).value), p)
  {
    RuleNoEof(a, tokens[p].ttype);
    assert Phase(tokens, pending, p) == PhaseStep(tokens, pending, p);
    assert PhaseStep(tokens, pending, p) == PhaseExpandStep(tokens, pending, p, a);
  }

  /** A terminal on top that differs from the lookahead rejects at once, naming both. */
  lemma {:induction false} PhaseMismatch(tokens: seq<Token>, pending: seq<Symbol>, p: nat, t: Terminal)
    requires EndsWithEof(tokens) && p < |tokens| && NoEof(pending)
    requires pending != [] && pending[|pending| - 1] == T(t) && tokens[p].ttype != TT(t)
    ensures Phase(tokens, pending, p) == Rejected(Mismatch(t, tokens[p]))
  {
    assert Phase(tokens, pending, p) == PhaseStep(tokens, pending, p);
  }

  /** A non-terminal on top with no table cell for the lookahead rejects at once, naming both. */
  lemma {:induction false} PhaseNoEntry(tokens: seq<Token>, pending: seq<Symbol>, p: nat, a: NonTerminal)
    requires EndsWithEof(tokens) && p < |tokens| && NoEof(pending)
    requires pending != [] && pending[|pending| - 1] == N(a) && Rule(a, tokens[p].ttype).None?
    ensures Phase(tokens, pending, p) == Rejected(UnexpectedToken(tokens[p], a))
  {
    assert Phase(tokens, pending, p) == PhaseStep(tokens, pending, p);
    assert PhaseStep(tokens, pending, p) == PhaseExpandStep(tokens, pending, p, a);
  }

  /** Expanding the top of base + top leaves base untouched underneath. */
  lemma {:induction false} ExpandUnder(base: seq<Symbol>, top: seq<Symbol>, rule: seq<Symbol>)
    requires top != []
    ensures Expand(base + top, rule) == base + Expand(top, rule)
  {
    var s := base + top;
    assert s[..|s| - 1] == base + top[..|top| - 1];
  }

  /** Matching the terminal on top of rest + [T(t)] leaves rest, one token on. */
  lemma {:induction false} PhaseMatchLast(tokens: seq<Token>, rest: seq<Symbol>, t: Terminal, p: nat)
    requires EndsWithEof(tokens) && p < |tokens| && NoEof(rest) && t != Eof
    requires tokens[p].ttype == TT(t)
    ensures p + 1 < |tokens| && NoEof(rest + [T(t)])
    ensures Phase(tokens, rest + [T(t)], p) == Phase(tokens, rest, p + 1)
  {
    var s := rest + [T(t)];
    assert s[..|s| - 1] == rest;
    PhaseMatch(tokens, s, p, t);
  }

  /** A non-terminal on top of base is replaced by its production, reversed; base is untouched. */
  lemma {:induction false} PhaseUnder(tokens: seq<Token>, base: seq<Symbol>, a: NonTerminal, p: nat, rule: seq<Symbol>)
    requires EndsWithEof(tokens) && p < |tokens| && NoEof(base)
    requires Rule(a, tokens[p].ttype) == Some(rule)
    ensures NoEof(base + [N(a)]) && NoEof(base + Reverse(rule))
    ensures Phase(tokens, base + [N(a)], p) == Phase(tokens, base + Reverse(rule), p)
  {
    PhaseExpand(tokens, base + [N(a)], p, a);
    ExpandUnder(base, [N(a)], rule);
    assert Expand([N(a)], rule) == Reverse(rule);
  }

  /** The ε case of PhaseUnder: the non-terminal is popped and nothing else changes. */
  lemma {:induction false} PhaseEpsilon(tokens: seq<Token>, base: seq<Symbol>, a: NonTerminal, p: nat)
    requires EndsWithEof(tokens) && p < |tokens| && NoEof(base)
    requires Rule(a, tokens[p].ttype) == Some([])
    ensures NoEof(base + [N(a)])
    ensures Phase(tokens, base + [N(a)], p) == Phase(tokens, base, p)
  {
    PhaseUnder(tokens, base, a, p, []);
    assert base + Reverse([]) == base;
  }

  /** What the parser decides once the stack is down to `$` (or a step rejected). */
  ghost function Finish(tokens: seq<Token>, r: PhaseResult): (o: Outcome)
    requires r.Done? ==> r.pos < |tokens|
    ensures r.Done? ==> (o.Accepted? <==> tokens[r.pos].ttype == TT(Eof))
    ensures o.UnexpectedEnd? && r.Done? ==> o.found == tokens[r.pos] && o.found.ttype != TT(Eof)
    ensures r.Rejected? ==> o == r.why
  {
    match r
    case Done(q) => if tokens[q].ttype == TT(Eof) then Accepted else UnexpectedEnd(tokens[q])
    case Rejected(why) => why
  }

  /** The parser's verdict on a lexer result. */
  ghost function Verdict(tokens: seq<Token>): (v: Outcome)
    requires |tokens| > 0 && (tokens[0].ttype == ErrorType || EndsWithEof(tokens))
    ensures v.LexicalError? <==> tokens[0].ttype == ErrorType
    ensures v.LexicalError? ==> v.bad == tokens[0]
    ensures v.Accepted? ==> tokens[0].ttype != ErrorType && Phase(tokens, [N(StartSymbol)], 0).Done?
  {
    if tokens[0].ttype == ErrorType then LexicalError(tokens[0])
    else Finish(tokens, Phase(tokens, [N(StartSymbol)], 0))
  }
}
