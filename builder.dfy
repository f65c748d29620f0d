/**
 * The tree builder as the source writes it (LL1Parser.java, class
 * TreeBuilder): a token list, a position that consume() advances, and one
 * recursive method per non-terminal. An exception (a failed match, or a
 * peek past the end of the list) is the result None, which every caller
 * passes straight up to build().
 */
module Builder {
  import opened Wrappers
  import opened Grammar
  import opened Lexer
  import opened Ast
  import opened Descent

  class TreeBuilder {
    const tokens: seq<Token>
    var position: nat

    /** The position never passes the end of the list. */
    ghost predicate Valid()
      reads this
    {
      position <= |tokens|
    }

    /**
     * The method's result r agrees with the reference result f: both fail,
     * or r is f's value and the position is where f stopped.
     */
    ghost predicate Yields<R>(r: Option<R>, f: Option<Parsed<R>>)
      reads this
    {
      match f
      case None => r.None?
      case Some(x) => r == Some(x.value) && position == x.next
    }

    constructor (tokens: seq<Token>)
      ensures this.tokens == tokens && position == 0 && Valid()
    {
      this.tokens := tokens;
      position := 0;
    }

    /** peek: the token at the position; None where the list access would throw. */
    method Peek() returns (r: Option<Token>)
      ensures r.Some? <==> position < |tokens|
      ensures r.Some? ==> r.value == tokens[position]
    {
      if position < |tokens| {
        r := Some(tokens[position]);
      } else {
        r := None;
      }
    }

    /** consume: the token at the position, which moves on by exactly one. */
    method Consume() returns (tok: Token)
      requires position < |tokens|
      modifies this
      ensures tok == tokens[old(position)] && position == old(position) + 1
    {
      tok := tokens[position];
      position := position + 1;
    }

    /** match: consume a token of type t, or fail without moving. */
    method Match(t: Terminal) returns (r: Option<Token>)
      requires Valid()
      modifies this
      ensures Valid()
      ensures old(At(tokens, position, t)) ==> r == Some(tokens[old(position)]) && position == old(position) + 1
      ensures !old(At(tokens, position, t)) ==> r.None? && position == old(position)
    {
      var lookahead := Peek();
      if lookahead.Some? && lookahead.value.ttype == TT(t) {
        var tok := Consume();
        return Some(tok);
      }
      return None;
    }

    /** build: the expression tree from the position on, or None (null) after any fault. */
    method Build() returns (r: Option<ExprNode>)
      requires Valid()
      modifies this
      ensures Valid()
      ensures Yields(r, ExprFrom(tokens, old(position)))
    {
      r := Expr();
    }

    method Expr() returns (r: Option<ExprNode>)
      requires Valid()
      modifies this
      ensures Valid()
      ensures Yields(r, ExprFrom(tokens, old(position)))
      decreases |tokens| - position, 4
    {
      var leftNode := Term();
      if leftNode.None? {
        return None;
      }
      r := ExprPrime(leftNode.value);
    }

    method ExprPrime(leftNode: ExprNode) returns (r: Option<ExprNode>)
      requires Valid()
      modifies this
      ensures Valid()
      ensures Yields(r, ExprPrimeFrom(tokens, leftNode, old(position)))
      decreases |tokens| - position, 0
    {
      var lookahead := Peek();
      if lookahead.None? {
        return None;
      }
      if lookahead.value.ttype == TT(Plus) || lookahead.value.ttype == TT(Minus) {
        var op := Consume();
        var rightNode := Term();
        if rightNode.None? {
          return None;
        }
        r := ExprPrime(BinaryOpNode(leftNode, op.value, rightNode.value));
        return;
      }
      return Some(leftNode);
    }

    method Term() returns (r: Option<ExprNode>)
      requires Valid()
      modifies this
      ensures Valid()
      ensures Yields(r, TermFrom(tokens, old(position)))
      decreases |tokens| - position, 3
    {
      var leftNode := Factor();
      if leftNode.None? {
        return None;
      }
      r := TermPrime(leftNode.value);
    }

    method TermPrime(leftNode: ExprNode) returns (r: Option<ExprNode>)
      requires Valid()
      modifies this
      ensures Valid()
      ensures Yields(r, TermPrimeFrom(tokens, leftNode, old(position)))
      decreases |tokens| - position, 0
    {
      var lookahead := Peek();
      if lookahead.None? {
        return None;
      }
      if lookahead.value.ttype == TT(Times) || lookahead.value.ttype == TT(Divide) {
        var op := Consume();
        var rightNode := Factor();
        if rightNode.None? {
          return None;
        }
        r := TermPrime(BinaryOpNode(leftNode, op.value, rightNode.value));
        return;
      }
      return Some(leftNode);
    }

    method Factor() returns (r: Option<ExprNode>)
      requires Valid()
      modifies this
      ensures Valid()
      ensures Yields(r, FactorFrom(tokens, old(position)))
      decreases |tokens| - position, 2
    {
      var lookahead := Peek();
      if lookahead.None? {
        return None;
      }
      if lookahead.value.ttype == TT(LParen) {
        var _ := Consume();
        var node := Expr();
        if node.None? {
          return None;
        }
        var close := Match(RParen);
        if close.None? {
          return None;
        }
        return node;
      }
      if lookahead.value.ttype == TT(Minus) {
        var op := Consume();
        var child := Factor();
        if child.None? {
          return None;
        }
        return Some(UnaryOpNode(op.value, child.value));
      }
      r := Num();
    }

    method Num() returns (r: Option<ExprNode>)
      requires Valid()
      modifies this
      ensures Valid()
      ensures Yields(r, NumFrom(tokens, old(position)))
      decreases |tokens| - position, 1
    {
      var numStr := "";
      var lookahead := Peek();
      if lookahead.None? {
        return None;
      }
      if lookahead.value.ttype == TT(Dot) {
        var dot := Consume();
        numStr := numStr + dot.value;
        var fraction := Digits();
        if fraction.None? {
          return None;
        }
        numStr := numStr + fraction.value;
      } else {
        var whole := Digits();
        if whole.None? {
          return None;
        }
        numStr := numStr + whole.value;
        var tail := NumTail();
        if tail.None? {
          return None;
        }
        numStr := numStr + tail.value;
      }
      return Some(NumberNode(numStr));
    }

    method NumTail() returns (r: Option<string>)
      requires Valid()
      modifies this
      ensures Valid()
      ensures Yields(r, NumTailFrom(tokens, old(position)))
      decreases |tokens| - position, 0
    {
      var lookahead := Peek();
      if lookahead.None? {
        return None;
      }
      if lookahead.value.ttype == TT(Dot) {
        var dot := Consume();
        var fraction := Digits();
        if fraction.None? {
          return None;
        }
        return Some(dot.value + fraction.value);
      }
      return Some("");
    }

    method Digits() returns (r: Option<string>)
      requires Valid()
      modifies this
      ensures Valid()
      ensures Yields(r, DigitsFrom(tokens, old(position)))
      decreases |tokens| - position, 0
    {
      var d := Match(Digit);
      if d.None? {
        return None;
      }
      var rest := DigitsPrime();
      if rest.None? {
        return None;
      }
      return Some(d.value.value + rest.value);
    }

    method DigitsPrime() returns (r: Option<string>)
      requires Valid()
      modifies this
      ensures Valid()
      ensures Yields(r, DigitsPrimeFrom(tokens, old(position)))
      decreases |tokens| - position
    {
      var lookahead := Peek();
      if lookahead.None? {
        return None;
      }
      if lookahead.value.ttype == TT(Digit) {
        var d := Consume();
        var rest := DigitsPrime();
        if rest.None? {
          return None;
        }
        return Some(d.value + rest.value);
      }
      return Some("");
    }
  }

  /** What the driver does with an accepted token list: a fresh builder, then build(). */
  method BuildFromTokens(tokens: seq<Token>) returns (r: Option<ExprNode>)
    ensures r == BuildTree(tokens)
  {
    var builder := new TreeBuilder(tokens);
    r := builder.Build();
  }
}
