/**
 * The expression tree built from an accepted token list and its
 * box-drawing rendering (LL1Parser.java, TreeBuilder.ExprNode and its three
 * node classes with their prettyPrint methods).
 */
module Ast {
  /**
   * A tree node. Numbers keep their literal text; operator nodes keep the
   * operator's token text ("-" for negation, "+", "-", "*", "/" for the
   * binary operators).
   */
  datatype ExprNode =
    | NumberNode(value: string)
    | UnaryOpNode(operator: string, child: ExprNode)
    | BinaryOpNode(left: ExprNode, operator: string, right: ExprNode)

  /** The text a node prints on its own line. */
  function Label(n: ExprNode): string
  {
    match n
    case NumberNode(v) => v
    case UnaryOpNode(op, _) => op
    case BinaryOpNode(_, op, _) => op
  }

  /** The number of nodes in the tree. */
  function Size(n: ExprNode): nat
  {
    match n
    case NumberNode(_) => 1
    case UnaryOpNode(_, c) => 1 + Size(c)
    case BinaryOpNode(l, _, r) => 1 + Size(l) + Size(r)
  }

  /** Prefix of the line of a child that has a later sibling. */
  const Tee: string := "├── "
  /** Continuation under a child that has a later sibling. */
  const Pipe: string := "│   "
  /** Prefix of the line of a last (or only) child. */
  const Corner: string := "└── "
  /** Continuation under a last (or only) child. */
  const Blank: string := "    "

  /**
   * What prettyPrint(buffer, prefix, childrenPrefix) appends: the node's
   * line, then its children, a binary node's left child as a non-last child
   * and its right child (like a unary node's only child) as the last one.
   * The node's own line comes first, and every rendering ends a line.
   */
  function Render(n: ExprNode, prefix: string, childrenPrefix: string): (r: string)
    ensures prefix + Label(n) + "\n" <= r
    ensures r[|r| - 1] == '\n'
  {
    match n
    case NumberNode(v) => prefix + v + "\n"
    case UnaryOpNode(op, c) =>
      prefix + op + "\n" + Render(c, childrenPrefix + Corner, childrenPrefix + Blank)
    case BinaryOpNode(l, op, r) =>
      prefix + op + "\n"
        + Render(l, childrenPrefix + Tee, childrenPrefix + Pipe)
        + Render(r, childrenPrefix + Corner, childrenPrefix + Blank)
  }

  /** Java's StringBuilder, reduced to the append the printer uses. */
  class StringBuilder {
    var content: string

    constructor ()
      ensures content == ""
    {
      content := "";
    }

    method Append(s: string)
      modifies this
      ensures content == old(content) + s
    {
      content := content + s;
    }
  }

  /** The recursive printer: appends the node's rendering to the shared buffer. */
  method PrettyPrintInto(n: ExprNode, buffer: StringBuilder, prefix: string, childrenPrefix: string)
    modifies buffer
    ensures buffer.content == old(buffer.content) + Render(n, prefix, childrenPrefix)
    decreases n
  {
    ghost var start := buffer.content;
    buffer.Append(prefix);
    buffer.Append(Label(n));
    buffer.Append("\n");
    ghost var line := prefix + Label(n) + "\n";
    assert buffer.content == start + line;
    match n
    case NumberNode(v) =>
    case UnaryOpNode(op, c) =>
      assert Render(n, prefix, childrenPrefix) == line + Render(c, childrenPrefix + Corner, childrenPrefix + Blank);
      PrettyPrintInto(c, buffer, childrenPrefix + Corner, childrenPrefix + Blank);
    case BinaryOpNode(l, op, r) =>
      ghost var left := Render(l, childrenPrefix + Tee, childrenPrefix + Pipe);
      ghost var right := Render(r, childrenPrefix + Corner, childrenPrefix + Blank);
      assert Render(n, prefix, childrenPrefix) == line + left + right;
      PrettyPrintInto(l, buffer, childrenPrefix + Tee, childrenPrefix + Pipe);
      assert buffer.content == start + (line + left);
      PrettyPrintInto(r, buffer, childrenPrefix + Corner, childrenPrefix + Blank);
      assert buffer.content == start + (line + left) + right;
  }

  /** The public entry point: a fresh buffer and empty prefixes. */
  method PrettyPrint(n: ExprNode) returns (s: string)
    ensures s == Render(n, "", "")
  {
    var buffer := new StringBuilder();
    PrettyPrintInto(n, buffer, "", "");
    s := buffer.content;
  }
}
