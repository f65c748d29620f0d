/**
 * What the tree builder promises: number nodes carry the verbatim text of
 * their tokens in one of the three literal shapes, operator chains fold to
 * the left, and `*` and `/` bind tighter than `+` and `-`.
 */
module DescentProperties {
  import opened Wrappers
  import opened Grammar
  import opened Lexer
  import opened LexerProperties
  import opened Ast
  import opened Descent

  // ---------------------------------------------------------------------
  // Number literals.

  /** The token values from p up to q, concatenated. */
  function Values(tokens: seq<Token>, p: nat, q: nat): string
    requires p <= q <= |tokens|
    decreases q - p
  {
    if p == q then "" else tokens[p].value + Values(tokens, p + 1, q)
  }

  lemma {:induction false} ValuesSplit(tokens: seq<Token>, p: nat, q: nat, r: nat)
    requires p <= q <= r <= |tokens|
    ensures Values(tokens, p, q) + Values(tokens, q, r) == Values(tokens, p, r)
    decreases q - p
  {
    if p < q {
      ValuesSplit(tokens, p + 1, q, r);
    }
  }

  /** The end of the run of `d` tokens starting at p: the first index that is not a `d`. */
  function DigitRunEnd(tokens: seq<Token>, p: nat): (q: nat)
    requires p <= |tokens|
    ensures p <= q <= |tokens|
    ensures !At(tokens, q, Digit)
    ensures forall k :: p <= k < q ==> At(tokens, k, Digit)
    decreases |tokens| - p
  {
    if At(tokens, p, Digit) then DigitRunEnd(tokens, p + 1) else p
  }

  /**
   * digits_prime takes the whole run of `d` tokens and returns their text;
   * it fails exactly when the run reaches the end of the list, where the
   * next peek has no token.
   */
  lemma {:induction false} DigitsPrimeRun(tokens: seq<Token>, p: nat)
    requires p <= |tokens|
    ensures var q := DigitRunEnd(tokens, p);
      DigitsPrimeFrom(tokens, p) == if q < |tokens| then Some(Parsed(Values(tokens, p, q), q)) else None
    decreases |tokens| - p
  {
    if At(tokens, p, Digit) {
      DigitsPrimeRun(tokens, p + 1);
    }
  }

  /** digits: the same run, which must start with a `d` token. */
  lemma {:induction false} DigitsRun(tokens: seq<Token>, p: nat)
    requires p <= |tokens|
    ensures var q := DigitRunEnd(tokens, p);
      DigitsFrom(tokens, p) == if At(tokens, p, Digit) && q < |tokens| then Some(Parsed(Values(tokens, p, q), q)) else None
  {
    if At(tokens, p, Digit) {
      DigitsPrimeRun(tokens, p + 1);
    }
  }

  /** Every character of s is a decimal digit. */
  predicate AllDigits(s: string)
  {
    forall i :: 0 <= i < |s| ==> IsDigit(s[i])
  }

  /** A non-empty run of decimal digits. */
  predicate DigitString(s: string)
  {
    |s| > 0 && AllDigits(s)
  }

  /**
   * The three literal shapes: `.` then digits, digits alone, or digits,
   * `.` and digits.
   */
  predicate NumberText(s: string)
  {
    || (|s| > 0 && s[0] == '.' && DigitString(s[1..]))
    || DigitString(s)
    || (exists k :: 0 < k < |s| && s[k] == '.' && DigitString(s[..k]) && DigitString(s[k + 1..]))
  }

  lemma {:induction false} DigitValues(tokens: seq<Token>, p: nat, q: nat)
    requires p <= q <= |tokens|
    requires forall k :: p <= k < q ==> At(tokens, k, Digit) && Spelled(tokens[k])
    ensures |Values(tokens, p, q)| == q - p && AllDigits(Values(tokens, p, q))
    decreases q - p
  {
    if p < q {
      DigitValues(tokens, p + 1, q);
      var s := Values(tokens, p, q);
      forall i | 0 <= i < |s|
        ensures IsDigit(s[i])
      {
        if i > 0 {
          assert s[i] == Values(tokens, p + 1, q)[i - 1];
        }
      }
    }
  }

  /** digits yields the text of one or more `d` tokens, which is a run of digits. */
  lemma {:induction false} DigitsText(tokens: seq<Token>, p: nat)
    requires p <= |tokens| && DigitsFrom(tokens, p).Some? && SpelledFrom(tokens, p)
    ensures var d := DigitsFrom(tokens, p).value;
      d.value == Values(tokens, p, d.next) && DigitString(d.value)
  {
    DigitsRun(tokens, p);
    DigitValues(tokens, p, DigitRunEnd(tokens, p));
  }

  /** num_tail yields its tokens' text: nothing, or `.` followed by a run of digits. */
  lemma {:induction false} NumTailText(tokens: seq<Token>, p: nat)
    requires p <= |tokens| && NumTailFrom(tokens, p).Some? && SpelledFrom(tokens, p)
    ensures var f := NumTailFrom(tokens, p).value;
      && f.value == Values(tokens, p, f.next)
      && (f.value == "" || (f.value[0] == '.' && DigitString(f.value[1..])))
  {
    if At(tokens, p, Dot) {
      DigitsText(tokens, p + 1);
      var d := DigitsFrom(tokens, p + 1).value;
      assert tokens[p].value == ".";
      assert (tokens[p].value + d.value)[1..] == d.value;
    }
  }

  /**
   * A number node's text is the verbatim concatenation of the values of the
   * tokens it consumed, and has one of the three literal shapes.
   */
  lemma {:induction false} NumberLiteral(tokens: seq<Token>, p: nat)
    requires p <= |tokens| && NumFrom(tokens, p).Some? && SpelledFrom(tokens, p)
    ensures var r := NumFrom(tokens, p).value;
      r.value == NumberNode(Values(tokens, p, r.next)) && NumberText(Values(tokens, p, r.next))
  {
    if At(tokens, p, Dot) {
      PointLiteral(tokens, p);
    } else {
      DigitsLiteral(tokens, p);
    }
  }

  /** Num -> . Digits: the point and the digits after it. */
  lemma {:induction false} PointLiteral(tokens: seq<Token>, p: nat)
    requires p <= |tokens| && NumFrom(tokens, p).Some? && SpelledFrom(tokens, p) && At(tokens, p, Dot)
    ensures var r := NumFrom(tokens, p).value;
      r.value == NumberNode(Values(tokens, p, r.next)) && NumberText(Values(tokens, p, r.next))
  {
    var r := NumFrom(tokens, p).value;
    DigitsText(tokens, p + 1);
    var d := DigitsFrom(tokens, p + 1).value;
    assert tokens[p].value == ".";
    var s := "" + tokens[p].value + d.value;
    assert s[1..] == d.value;
    assert s == Values(tokens, p, r.next);
  }

  /** Num -> d Digits' Num_tail: the integer digits and the optional fraction. */
  lemma {:induction false} DigitsLiteral(tokens: seq<Token>, p: nat)
    requires p <= |tokens| && NumFrom(tokens, p).Some? && SpelledFrom(tokens, p) && !At(tokens, p, Dot)
    ensures var r := NumFrom(tokens, p).value;
      r.value == NumberNode(Values(tokens, p, r.next)) && NumberText(Values(tokens, p, r.next))
  {
    DigitsText(tokens, p);
    var d := DigitsFrom(tokens, p).value;
    NumTailText(tokens, d.next);
    var f := NumTailFrom(tokens, d.next).value;
    ValuesSplit(tokens, p, d.next, f.next);
    var s := "" + d.value + f.value;
    assert s == d.value + f.value;
    if f.value != "" {
      var k := |d.value|;
      assert s[..k] == d.value;
      assert s[k] == '.';
      assert s[k + 1..] == f.value[1..];
    } else {
      assert s == d.value;
    }
  }

  /** Every number leaf of the tree holds the text of a literal in one of the three shapes. */
  predicate LiteralLeaves(n: ExprNode)
  {
    match n
    case NumberNode(v) => NumberText(v)
    case UnaryOpNode(_, c) => LiteralLeaves(c)
    case BinaryOpNode(l, _, r) => LiteralLeaves(l) && LiteralLeaves(r)
  }

  /** Every number leaf of an expression is a literal's text. */
  lemma {:induction false} ExprLeaves(tokens: seq<Token>, p: nat)
    requires p <= |tokens| && ExprFrom(tokens, p).Some? && SpelledFrom(tokens, p)
    ensures LiteralLeaves(ExprFrom(tokens, p).value.value)
    decreases |tokens| - p, 4
  {
    var t := TermFrom(tokens, p).value;
    TermLeaves(tokens, p);
    ExprPrimeLeaves(tokens, t.value, t.next);
  }

  /** An additive chain over literal leaves keeps them literal. */
  lemma {:induction false} ExprPrimeLeaves(tokens: seq<Token>, left: ExprNode, p: nat)
    requires p <= |tokens| && ExprPrimeFrom(tokens, left, p).Some? && SpelledFrom(tokens, p)
    requires LiteralLeaves(left)
    ensures LiteralLeaves(ExprPrimeFrom(tokens, left, p).value.value)
    decreases |tokens| - p, 0
  {
    if At(tokens, p, Plus) || At(tokens, p, Minus) {
      var t := TermFrom(tokens, p + 1).value;
      TermLeaves(tokens, p + 1);
      ExprPrimeLeaves(tokens, BinaryOpNode(left, tokens[p].value, t.value), t.next);
    }
  }

  /** Every number leaf of a term is a literal's text. */
  lemma {:induction false} TermLeaves(tokens: seq<Token>, p: nat)
    requires p <= |tokens| && TermFrom(tokens, p).Some? && SpelledFrom(tokens, p)
    ensures LiteralLeaves(TermFrom(tokens, p).value.value)
    decreases |tokens| - p, 3
  {
    var f := FactorFrom(tokens, p).value;
    FactorLeaves(tokens, p);
    TermPrimeLeaves(tokens, f.value, f.next);
  }

  /** A multiplicative chain over literal leaves keeps them literal. */
  lemma {:induction false} TermPrimeLeaves(tokens: seq<Token>, left: ExprNode, p: nat)
    requires p <= |tokens| && TermPrimeFrom(tokens, left, p).Some? && SpelledFrom(tokens, p)
    requires LiteralLeaves(left)
    ensures LiteralLeaves(TermPrimeFrom(tokens, left, p).value.value)
    decreases |tokens| - p, 0
  {
    if At(tokens, p, Times) || At(tokens, p, Divide) {
      var f := FactorFrom(tokens, p + 1).value;
      FactorLeaves(tokens, p + 1);
      TermPrimeLeaves(tokens, BinaryOpNode(left, tokens[p].value, f.value), f.next);
    }
  }

  /** Every number leaf of a factor is a literal's text. */
  lemma {:induction false} FactorLeaves(tokens: seq<Token>, p: nat)
    requires p <= |tokens| && FactorFrom(tokens, p).Some? && SpelledFrom(tokens, p)
    ensures LiteralLeaves(FactorFrom(tokens, p).value.value)
    decreases |tokens| - p, 2
  {
    if At(tokens, p, LParen) {
      ExprLeaves(tokens, p + 1);
    } else if At(tokens, p, Minus) {
      FactorLeaves(tokens, p + 1);
    } else {
      NumberLiteral(tokens, p);
    }
  }

  // ---------------------------------------------------------------------
  // Left-associative operator chains.

  /** One link of an operator chain: the operator's text and the operand after it. */
  datatype Operand = Operand(op: string, arg: ExprNode)

  /**
   * left combined with the operands, leftmost first, into a left-leaning
   * tree: the last operator is the root and everything before it is its
   * left child.
   */
  function FoldLeft(left: ExprNode, ops: seq<Operand>): ExprNode
    decreases |ops|
  {
    if ops == [] then left
    else
      var o := ops[|ops| - 1];
      BinaryOpNode(FoldLeft(left, ops[..|ops| - 1]), o.op, o.arg)
  }

  lemma {:induction false} FoldLeftCons(left: ExprNode, o: Operand, rest: seq<Operand>)
    ensures FoldLeft(left, [o] + rest) == FoldLeft(BinaryOpNode(left, o.op, o.arg), rest)
    decreases |rest|
  {
    if rest != [] {
      assert ([o] + rest)[..|rest|] == [o] + rest[..|rest| - 1];
      FoldLeftCons(left, o, rest[..|rest| - 1]);
    } else {
      assert ([o] + rest)[..0] == [];
    }
  }

  /** The operators of a chain: `+` and `-` for an expression, `*` and `/` for a term. */
  predicate ChainOp(tokens: seq<Token>, p: nat, additive: bool)
  {
    if additive then At(tokens, p, Plus) || At(tokens, p, Minus)
    else At(tokens, p, Times) || At(tokens, p, Divide)
  }

  /** The operands of a chain: terms for an expression, factors for a term. */
  function OperandFrom(tokens: seq<Token>, p: nat, additive: bool): (r: Option<Parsed<ExprNode>>)
    requires p <= |tokens|
    ensures r.Some? ==> p < r.value.next <= |tokens|
  {
    if additive then TermFrom(tokens, p) else FactorFrom(tokens, p)
  }

  /** The operator-operand pairs of a chain from p on, read left to right. */
  function OperandsFrom(tokens: seq<Token>, p: nat, additive: bool): (r: Option<Parsed<seq<Operand>>>)
    requires p <= |tokens|
    ensures r.Some? ==> p <= r.value.next <= |tokens|
    decreases |tokens| - p
  {
    if p == |tokens| then None
    else if ChainOp(tokens, p, additive) then
      match OperandFrom(tokens, p + 1, additive)
      case None => None
      case Some(x) =>
        match OperandsFrom(tokens, x.next, additive)
        case None => None
        case Some(rest) => Some(Parsed([Operand(tokens[p].value, x.value)] + rest.value, rest.next))
    else Some(Parsed([], p))
  }

  /** A chain folded onto left, where the chain was read. */
  function Folded(left: ExprNode, chain: Option<Parsed<seq<Operand>>>): Option<Parsed<ExprNode>>
  {
    match chain
    case None => None
    case Some(c) => Some(Parsed(FoldLeft(left, c.value), c.next))
  }

  lemma {:induction false} ChainFolds(tokens: seq<Token>, left: ExprNode, p: nat, additive: bool)
    requires p <= |tokens|
    ensures (if additive then ExprPrimeFrom(tokens, left, p) else TermPrimeFrom(tokens, left, p))
         == Folded(left, OperandsFrom(tokens, p, additive))
    decreases |tokens| - p
  {
    if p < |tokens| && ChainOp(tokens, p, additive) {
      match OperandFrom(tokens, p + 1, additive)
      case None =>
      case Some(x) =>
        var o := Operand(tokens[p].value, x.value);
        ChainFolds(tokens, BinaryOpNode(left, o.op, o.arg), x.next, additive);
        match OperandsFrom(tokens, x.next, additive)
        case None =>
        case Some(rest) =>
          FoldLeftCons(left, o, rest.value);
    }
  }

  /**
   * expr_prime folds its chain to the left: `a - b - c` becomes
   * ((a - b) - c), the last operator at the root.
   */
  lemma {:induction false} ExprPrimeFoldsLeft(tokens: seq<Token>, left: ExprNode, p: nat)
    requires p <= |tokens|
    ensures ExprPrimeFrom(tokens, left, p) == Folded(left, OperandsFrom(tokens, p, true))
  {
    ChainFolds(tokens, left, p, true);
  }

  /** term_prime folds its chain to the left in the same way. */
  lemma {:induction false} TermPrimeFoldsLeft(tokens: seq<Token>, left: ExprNode, p: nat)
    requires p <= |tokens|
    ensures TermPrimeFrom(tokens, left, p) == Folded(left, OperandsFrom(tokens, p, false))
  {
    ChainFolds(tokens, left, p, false);
  }

  /** On spelled tokens a chain's operators are `+`/`-` (expression) or `*`/`/` (term). */
  lemma {:induction false} ChainOperators(tokens: seq<Token>, p: nat, additive: bool)
    requires p <= |tokens| && OperandsFrom(tokens, p, additive).Some? && SpelledFrom(tokens, p)
    ensures var ops := OperandsFrom(tokens, p, additive).value.value;
      forall i :: 0 <= i < |ops| ==>
        if additive then ops[i].op in {"+", "-"} else ops[i].op in {"*", "/"}
    decreases |tokens| - p
  {
    if ChainOp(tokens, p, additive) {
      var x := OperandFrom(tokens, p + 1, additive).value;
      ChainOperators(tokens, x.next, additive);
    }
  }

  // ---------------------------------------------------------------------
  // Precedence.

  /** No `+` or `-` binary node anywhere in the tree. */
  predicate AdditiveFree(n: ExprNode)
  {
    match n
    case NumberNode(_) => true
    case UnaryOpNode(_, c) => AdditiveFree(c)
    case BinaryOpNode(l, op, r) => op != "+" && op != "-" && AdditiveFree(l) && AdditiveFree(r)
  }

  /** No `(` token from p up to q. */
  predicate Unbracketed(tokens: seq<Token>, p: nat, q: nat)
  {
    forall k :: p <= k < q ==> !At(tokens, k, LParen)
  }

  lemma {:induction false} FactorAdditiveFree(tokens: seq<Token>, p: nat)
    requires p <= |tokens| && FactorFrom(tokens, p).Some? && SpelledFrom(tokens, p)
    requires Unbracketed(tokens, p, FactorFrom(tokens, p).value.next)
    ensures AdditiveFree(FactorFrom(tokens, p).value.value)
    decreases |tokens| - p
  {
    if !At(tokens, p, LParen) && At(tokens, p, Minus) {
      FactorAdditiveFree(tokens, p + 1);
    }
  }

  lemma {:induction false} TermPrimeAdditiveFree(tokens: seq<Token>, left: ExprNode, p: nat)
    requires p <= |tokens| && TermPrimeFrom(tokens, left, p).Some? && SpelledFrom(tokens, p)
    requires AdditiveFree(left) && Unbracketed(tokens, p, TermPrimeFrom(tokens, left, p).value.next)
    ensures AdditiveFree(TermPrimeFrom(tokens, left, p).value.value)
    decreases |tokens| - p
  {
    if At(tokens, p, Times) || At(tokens, p, Divide) {
      var f := FactorFrom(tokens, p + 1).value;
      FactorAdditiveFree(tokens, p + 1);
      TermPrimeAdditiveFree(tokens, BinaryOpNode(left, tokens[p].value, f.value), f.next);
    }
  }

  /**
   * Precedence: a term without parentheses holds no `+` or `-` node, so an
   * additive operator can only sit above the terms it joins.
   */
  lemma {:induction false} TermAdditiveFree(tokens: seq<Token>, p: nat)
    requires p <= |tokens| && TermFrom(tokens, p).Some? && SpelledFrom(tokens, p)
    requires Unbracketed(tokens, p, TermFrom(tokens, p).value.next)
    ensures AdditiveFree(TermFrom(tokens, p).value.value)
  {
    var f := FactorFrom(tokens, p).value;
    FactorAdditiveFree(tokens, p);
    TermPrimeAdditiveFree(tokens, f.value, f.next);
  }

  /**
   * An expression is its first term with the additive chain after it folded
   * on to the left; every chain operator is `+` or `-` and every operand a
   * term.
   */
  lemma {:induction false} ExprShape(tokens: seq<Token>, p: nat)
    requires p <= |tokens| && ExprFrom(tokens, p).Some? && SpelledFrom(tokens, p)
    ensures var t := TermFrom(tokens, p).value;
      && OperandsFrom(tokens, t.next, true).Some?
      && var ops := OperandsFrom(tokens, t.next, true).value;
      && ExprFrom(tokens, p) == Some(Parsed(FoldLeft(t.value, ops.value), ops.next))
      && forall i :: 0 <= i < |ops.value| ==> ops.value[i].op in {"+", "-"}
  {
    var t := TermFrom(tokens, p).value;
    ExprPrimeFoldsLeft(tokens, t.value, t.next);
    ChainOperators(tokens, t.next, true);
  }

  /** A single `d` followed by neither `d`, `.`, `*` nor `/` is a term on its own: a one-digit NumberNode. */
  lemma {:induction false} SingleDigitTerm(tokens: seq<Token>, p: nat)
    requires p + 1 < |tokens| && At(tokens, p, Digit)
    requires !At(tokens, p + 1, Digit) && !At(tokens, p + 1, Dot)
    requires !At(tokens, p + 1, Times) && !At(tokens, p + 1, Divide)
    ensures TermFrom(tokens, p) == Some(Parsed(NumberNode(tokens[p].value), p + 1))
  {
    assert DigitsPrimeFrom(tokens, p + 1) == Some(Parsed("", p + 1));
    assert DigitsFrom(tokens, p) == Some(Parsed(tokens[p].value + "", p + 1));
    assert NumTailFrom(tokens, p + 1) == Some(Parsed("", p + 1));
    assert "" + (tokens[p].value + "") + "" == tokens[p].value;
    assert NumFrom(tokens, p) == Some(Parsed(NumberNode(tokens[p].value), p + 1));
    assert FactorFrom(tokens, p) == NumFrom(tokens, p);
  }

  /** The tokens of "1-2-3": digits and minus signs alternating, then `$`. */
  lemma {:induction false} LexSubtractionChain()
    ensures Lex("1-2-3") == [Token(TT(Digit), "1", 0), Token(TT(Minus), "-", 1), Token(TT(Digit), "2", 2),
                             Token(TT(Minus), "-", 3), Token(TT(Digit), "3", 4), EndToken(5)]
  {
    var s := "1-2-3";
    assert forall j :: 0 <= j < |s| ==> !IsWhitespace(s[j]) && Classify(s[j]).Some?;
    LexIsScanned(s);
    ScannedEach(s, |s|);
  }

  /** Three one-digit operands joined by `+` or `-` fold to the left over the first two. */
  lemma {:induction false} AdditiveTripleFolds(tokens: seq<Token>)
    requires |tokens| == 6 && tokens[5].ttype == TT(Eof)
    requires tokens[0].ttype == TT(Digit) && tokens[2].ttype == TT(Digit) && tokens[4].ttype == TT(Digit)
    requires tokens[1].ttype in {TT(Plus), TT(Minus)} && tokens[3].ttype in {TT(Plus), TT(Minus)}
    ensures ExprFrom(tokens, 0) == Some(Parsed(
      BinaryOpNode(BinaryOpNode(NumberNode(tokens[0].value), tokens[1].value, NumberNode(tokens[2].value)),
                   tokens[3].value, NumberNode(tokens[4].value)), 5))
  {
    SingleDigitTerm(tokens, 0);
    SingleDigitTerm(tokens, 2);
    SingleDigitTerm(tokens, 4);
    var b1 := BinaryOpNode(NumberNode(tokens[0].value), tokens[1].value, NumberNode(tokens[2].value));
    var b2 := BinaryOpNode(b1, tokens[3].value, NumberNode(tokens[4].value));
    assert ExprPrimeFrom(tokens, b2, 5) == Some(Parsed(b2, 5));
    assert ExprPrimeFrom(tokens, b1, 3) == Some(Parsed(b2, 5));
  }

  /** Subtraction groups to the left: "1-2-3" builds (1 - 2) - 3. */
  lemma {:induction false} SubtractionGroupsLeft()
    ensures BuildTree(Lex("1-2-3"))
         == Some(BinaryOpNode(BinaryOpNode(NumberNode("1"), "-", NumberNode("2")), "-", NumberNode("3")))
  {
    LexSubtractionChain();
    AdditiveTripleFolds(Lex("1-2-3"));
  }

}
