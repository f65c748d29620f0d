/**
 * The fixed alphabets of the arithmetic-expression grammar and its
 * predictive-parsing table (LL1Parser.java, constructor and initializeTable).
 *
 *   Expr     -> Term Expr'
 *   Expr'    -> + Term Expr' | - Term Expr' | ε
 *   Term     -> Factor Term'
 *   Term'    -> * Factor Term' | / Factor Term' | ε
 *   Factor   -> ( Expr ) | - Factor | Num
 *   Num      -> . Digits | d Digits' Num_tail
 *   Num_tail -> . Digits | ε
 *   Digits   -> d Digits'
 *   Digits'  -> d Digits' | ε
 */
module Grammar {
  import opened Wrappers

  /** The terminals; `Digit` is the token type "d" (any one digit), `Eof` is "$". */
  datatype Terminal = Plus | Minus | Times | Divide | LParen | RParen | Dot | Digit | Eof

  /** The non-terminals; `ExprPrime` is "Expr'", `NumTail` is "Num_tail", and so on. */
  datatype NonTerminal = Expr | ExprPrime | Term | TermPrime | Factor | Num | NumTail | Digits | DigitsPrime

  /** A grammar symbol as it sits on the parse stack. */
  datatype Symbol = T(t: Terminal) | N(n: NonTerminal)

  /** The start symbol. */
  const StartSymbol: NonTerminal := Expr

  /**
   * The table cell for (non-terminal, lookahead): None when the cell is
   * absent, Some([]) for the ε production, otherwise the production's
   * right-hand side, leftmost symbol first. The table is predictive: a
   * production that starts with a terminal sits only in that terminal's
   * column, the `$` column holds only ε productions, and no production
   * pushes `$`.
   */
  function Table(a: NonTerminal, t: Terminal): (r: Option<seq<Symbol>>)
    ensures r.Some? && r.value != [] && r.value[0].T? ==> r.value[0] == T(t)
    ensures t == Eof && r.Some? ==> r.value == []
    ensures r.Some? ==> T(Eof) !in r.value && |r.value| <= 3
  {
    match a
    case Expr =>
      (match t
       case LParen | Minus | Dot | Digit => Some([N(Term), N(ExprPrime)])
       case _ => None)
    case ExprPrime =>
      (match t
       case Plus => Some([T(Plus), N(Term), N(ExprPrime)])
       case Minus => Some([T(Minus), N(Term), N(ExprPrime)])
       case RParen | Eof => Some([])
       case _ => None)
    case Term =>
      (match t
       case LParen | Minus | Dot | Digit => Some([N(Factor), N(TermPrime)])
       case _ => None)
    case TermPrime =>
      (match t
       case Plus | Minus | RParen | Eof => Some([])
       case Times => Some([T(Times), N(Factor), N(TermPrime)])
       case Divide => Some([T(Divide), N(Factor), N(TermPrime)])
       case _ => None)
    case Factor =>
      (match t
       case LParen => Some([T(LParen), N(Expr), T(RParen)])
       case Minus => Some([T(Minus), N(Factor)])
       case Dot | Digit => Some([N(Num)])
       case _ => None)
    case Num =>
      (match t
       case Dot => Some([T(Dot), N(Digits)])
       case Digit => Some([T(Digit), N(DigitsPrime), N(NumTail)])
       case _ => None)
    case NumTail =>
      (match t
       case Dot => Some([T(Dot), N(Digits)])
       case Plus | Minus | Times | Divide | RParen | Eof => Some([])
       case _ => None)
    case Digits =>
      (match t
       case Digit => Some([T(Digit), N(DigitsPrime)])
       case _ => None)
    case DigitsPrime =>
      (match t
       case Digit => Some([T(Digit), N(DigitsPrime)])
       case Plus | Minus | Times | Divide | RParen | Dot | Eof => Some([])
       case _ => None)
  }
}
