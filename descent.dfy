/**
 * The recursive-descent tree builder (LL1Parser.java, TreeBuilder) as
 * functions of the token list and a position. Each function is what the
 * builder method of the same name returns, together with the position it
 * leaves behind; None stands for the exception that build() turns into null
 * (a failed match, or a peek past the end of the list).
 */
module Descent {
  import opened Wrappers
  import opened Grammar
  import opened Lexer
  import opened Ast

  /** A builder result together with the position after it. */
  datatype Parsed<T> = Parsed(value: T, next: nat)

  /** The token at p exists and has type t (what peek().type.equals(t) tests). */
  predicate At(tokens: seq<Token>, p: nat, t: Terminal)
  {
    p < |tokens| && tokens[p].ttype == TT(t)
  }

  /** expr: a term, then the additive tail folded onto it. */
  function ExprFrom(tokens: seq<Token>, p: nat): (r: Option<Parsed<ExprNode>>)
    requires p <= |tokens|
    ensures r.Some? ==> p < r.value.next < |tokens|
    decreases |tokens| - p, 4
  {
    match TermFrom(tokens, p)
    case None => None
    case Some(t) => ExprPrimeFrom(tokens, t.value, t.next)
  }

  /** expr_prime: each `+` or `-` and the term after it become a new root over what was built so far. */
  function ExprPrimeFrom(tokens: seq<Token>, left: ExprNode, p: nat): (r: Option<Parsed<ExprNode>>)
    requires p <= |tokens|
    ensures r.Some? ==> p <= r.value.next < |tokens|
    decreases |tokens| - p, 0
  {
    if p == |tokens| then None
    else if At(tokens, p, Plus) || At(tokens, p, Minus) then
      match TermFrom(tokens, p + 1)
      case None => None
      case Some(t) => ExprPrimeFrom(tokens, BinaryOpNode(left, tokens[p].value, t.value), t.next)
    else Some(Parsed(left, p))
  }

  /** term: a factor, then the multiplicative tail folded onto it. */
  function TermFrom(tokens: seq<Token>, p: nat): (r: Option<Parsed<ExprNode>>)
    requires p <= |tokens|
    ensures r.Some? ==> p < r.value.next < |tokens|
    decreases |tokens| - p, 3
  {
    match FactorFrom(tokens, p)
    case None => None
    case Some(f) => TermPrimeFrom(tokens, f.value, f.next)
  }

  /** term_prime: each `*` or `/` and the factor after it become a new root over what was built so far. */
  function TermPrimeFrom(tokens: seq<Token>, left: ExprNode, p: nat): (r: Option<Parsed<ExprNode>>)
    requires p <= |tokens|
    ensures r.Some? ==> p <= r.value.next < |tokens|
    decreases |tokens| - p, 0
  {
    if p == |tokens| then None
    else if At(tokens, p, Times) || At(tokens, p, Divide) then
      match FactorFrom(tokens, p + 1)
      case None => None
      case Some(f) => TermPrimeFrom(tokens, BinaryOpNode(left, tokens[p].value, f.value), f.next)
    else Some(Parsed(left, p))
  }

  /**
   * factor: a parenthesised expression (the parentheses leave no node), a
   * negation over a factor, or a number.
   */
  function FactorFrom(tokens: seq<Token>, p: nat): (r: Option<Parsed<ExprNode>>)
    requires p <= |tokens|
    ensures r.Some? ==> p < r.value.next <= |tokens|
    decreases |tokens| - p, 2
  {
    if p == |tokens| then None
    else if At(tokens, p, LParen) then
      match ExprFrom(tokens, p + 1)
      case None => None
      case Some(e) =>
        if At(tokens, e.next, RParen) then Some(Parsed(e.value, e.next + 1)) else None
    else if At(tokens, p, Minus) then
      match FactorFrom(tokens, p + 1)
      case None => None
      case Some(f) => Some(Parsed(UnaryOpNode(tokens[p].value, f.value), f.next))
    else NumFrom(tokens, p)
  }

  /** num: `.` and digits, or digits and an optional fraction; the node keeps the text. */
  function NumFrom(tokens: seq<Token>, p: nat): (r: Option<Parsed<ExprNode>>)
    requires p <= |tokens|
    ensures r.Some? ==> p < r.value.next < |tokens| && r.value.value.NumberNode?
    decreases |tokens| - p, 1
  {
    if p == |tokens| then None
    else if At(tokens, p, Dot) then
      match DigitsFrom(tokens, p + 1)
      case None => None
      case Some(d) => Some(Parsed(NumberNode("" + tokens[p].value + d.value), d.next))
    else
      match DigitsFrom(tokens, p)
      case None => None
      case Some(d) =>
        match NumTailFrom(tokens, d.next)
        case None => None
        case Some(f) => Some(Parsed(NumberNode("" + d.value + f.value), f.next))
  }

  /** num_tail: `.` and digits, or nothing. */
  function NumTailFrom(tokens: seq<Token>, p: nat): (r: Option<Parsed<string>>)
    requires p <= |tokens|
    ensures r.Some? ==> p <= r.value.next < |tokens|
    decreases |tokens| - p, 0
  {
    if p == |tokens| then None
    else if At(tokens, p, Dot) then
      match DigitsFrom(tokens, p + 1)
      case None => None
      case Some(d) => Some(Parsed(tokens[p].value + d.value, d.next))
    else Some(Parsed("", p))
  }

  /** digits: a `d` token is required, then the rest of the run. */
  function DigitsFrom(tokens: seq<Token>, p: nat): (r: Option<Parsed<string>>)
    requires p <= |tokens|
    ensures r.Some? ==> p < r.value.next < |tokens|
    decreases |tokens| - p, 0
  {
    if p == |tokens| then None
    else if At(tokens, p, Digit) then
      match DigitsPrimeFrom(tokens, p + 1)
      case None => None
      case Some(d) => Some(Parsed(tokens[p].value + d.value, d.next))
    else None
  }

  /** digits_prime: the `d` tokens from p on, as long as they last. */
  function DigitsPrimeFrom(tokens: seq<Token>, p: nat): (r: Option<Parsed<string>>)
    requires p <= |tokens|
    ensures r.Some? ==> p <= r.value.next < |tokens|
    decreases |tokens| - p
  {
    if p == |tokens| then None
    else if At(tokens, p, Digit) then
      match DigitsPrimeFrom(tokens, p + 1)
      case None => None
      case Some(d) => Some(Parsed(tokens[p].value + d.value, d.next))
    else Some(Parsed("", p))
  }

  /**
   * build: the tree of the expression at the start of the list, or None
   * (null) on any fault. The builder always peeks at one token past the
   * expression, so a list of fewer than two tokens never builds.
   */
  function BuildTree(tokens: seq<Token>): (r: Option<ExprNode>)
    ensures r.Some? <==> ExprFrom(tokens, 0).Some?
    ensures |tokens| < 2 ==> r.None?
  {
    match ExprFrom(tokens, 0)
    case None => None
    case Some(e) => Some(e.value)
  }
}
