/**
 * The layout the printer promises: one line per node in pre-order, the
 * node's own line first, and every line below it under the children prefix.
 */
module AstProperties {
  import opened Ast

  /** The printed lines of a node, top to bottom, each without its newline. */
  function Lines(n: ExprNode, prefix: string, childrenPrefix: string): seq<string>
  {
    match n
    case NumberNode(v) => [prefix + v]
    case UnaryOpNode(op, c) =>
      [prefix + op] + Lines(c, childrenPrefix + Corner, childrenPrefix + Blank)
    case BinaryOpNode(l, op, r) =>
      [prefix + op]
        + Lines(l, childrenPrefix + Tee, childrenPrefix + Pipe)
        + Lines(r, childrenPrefix + Corner, childrenPrefix + Blank)
  }

  /** Lines laid out one after another, each ended by a newline. */
  function Join(lines: seq<string>): string
  {
    if lines == [] then "" else lines[0] + "\n" + Join(lines[1..])
  }

  lemma {:induction false} JoinAppend(a: seq<string>, b: seq<string>)
    ensures Join(a + b) == Join(a) + Join(b)
  {
    if a != [] {
      assert (a + b)[1..] == a[1..] + b;
      JoinAppend(a[1..], b);
    } else {
      assert a + b == b;
    }
  }

  /** The rendering is exactly the node's lines, each followed by a newline. */
  lemma {:induction false} RenderIsLines(n: ExprNode, prefix: string, childrenPrefix: string)
    ensures Render(n, prefix, childrenPrefix) == Join(Lines(n, prefix, childrenPrefix))
  {
    match n
    case NumberNode(v) =>
    case UnaryOpNode(op, c) =>
      var cl := Lines(c, childrenPrefix + Corner, childrenPrefix + Blank);
      RenderIsLines(c, childrenPrefix + Corner, childrenPrefix + Blank);
      JoinAppend([prefix + op], cl);
    case BinaryOpNode(l, op, r) =>
      var ll := Lines(l, childrenPrefix + Tee, childrenPrefix + Pipe);
      var rl := Lines(r, childrenPrefix + Corner, childrenPrefix + Blank);
      RenderIsLines(l, childrenPrefix + Tee, childrenPrefix + Pipe);
      RenderIsLines(r, childrenPrefix + Corner, childrenPrefix + Blank);
      JoinAppend([prefix + op] + ll, rl);
      JoinAppend([prefix + op], ll);
  }

  /** Every line in ls starts with q. */
  predicate Under(ls: seq<string>, q: string)
  {
    forall i :: 0 <= i < |ls| ==> q <= ls[i]
  }

  lemma {:induction false} UnderAppend(a: seq<string>, b: seq<string>, q: string)
    requires Under(a, q) && Under(b, q)
    ensures Under(a + b, q)
  {
    forall i | 0 <= i < |a + b|
      ensures q <= (a + b)[i]
    {
      if i < |a| {
        assert (a + b)[i] == a[i];
      } else {
        assert (a + b)[i] == b[i - |a|];
      }
    }
  }

  lemma {:induction false} PrefixOfExtension(q: string, x: string, s: string)
    requires q + x <= s
    ensures q <= s
  {
    assert s[..|q|] == (q + x)[..|q|];
  }

  /** Every line of a node starts with any common prefix of its two prefixes. */
  lemma {:induction false} LinesUnder(n: ExprNode, prefix: string, childrenPrefix: string, q: string)
    requires q <= prefix && q <= childrenPrefix
    ensures Under(Lines(n, prefix, childrenPrefix), q)
  {
    PrefixOfExtension(q, prefix[|q|..], prefix + Label(n));
    assert Under([prefix + Label(n)], q);
    match n
    case NumberNode(v) =>
    case UnaryOpNode(op, c) =>
      ChildPrefixes(childrenPrefix, Corner, Blank, q);
      LinesUnder(c, childrenPrefix + Corner, childrenPrefix + Blank, q);
      UnderAppend([prefix + op], Lines(c, childrenPrefix + Corner, childrenPrefix + Blank), q);
    case BinaryOpNode(l, op, r) =>
      ChildPrefixes(childrenPrefix, Tee, Pipe, q);
      ChildPrefixes(childrenPrefix, Corner, Blank, q);
      LinesUnder(l, childrenPrefix + Tee, childrenPrefix + Pipe, q);
      LinesUnder(r, childrenPrefix + Corner, childrenPrefix + Blank, q);
      UnderAppend([prefix + op], Lines(l, childrenPrefix + Tee, childrenPrefix + Pipe), q);
      UnderAppend([prefix + op] + Lines(l, childrenPrefix + Tee, childrenPrefix + Pipe),
        Lines(r, childrenPrefix + Corner, childrenPrefix + Blank), q);
  }

  lemma {:induction false} ChildPrefixes(childrenPrefix: string, x: string, y: string, q: string)
    requires q <= childrenPrefix
    ensures q <= childrenPrefix + x && q <= childrenPrefix + y
  {
    assert (childrenPrefix + x)[..|q|] == childrenPrefix[..|q|];
    assert (childrenPrefix + y)[..|q|] == childrenPrefix[..|q|];
  }

  /** One printed line per node. */
  lemma {:induction false} LinesCount(n: ExprNode, prefix: string, childrenPrefix: string)
    ensures |Lines(n, prefix, childrenPrefix)| == Size(n)
  {
    match n
    case NumberNode(v) =>
    case UnaryOpNode(op, c) =>
      LinesCount(c, childrenPrefix + Corner, childrenPrefix + Blank);
    case BinaryOpNode(l, op, r) =>
      LinesCount(l, childrenPrefix + Tee, childrenPrefix + Pipe);
      LinesCount(r, childrenPrefix + Corner, childrenPrefix + Blank);
  }

  /**
   * One line per node; the first is the node's own, prefix then label;
   * every later line is a descendant's and starts with the children prefix.
   */
  lemma {:induction false} LinesShape(n: ExprNode, prefix: string, childrenPrefix: string)
    ensures var ls := Lines(n, prefix, childrenPrefix);
      && |ls| == Size(n)
      && ls[0] == prefix + Label(n)
      && Under(ls[1..], childrenPrefix)
  {
    LinesCount(n, prefix, childrenPrefix);
    var ls := Lines(n, prefix, childrenPrefix);
    match n
    case NumberNode(v) =>
      assert ls[1..] == [];
    case UnaryOpNode(op, c) =>
      assert ls[1..] == Lines(c, childrenPrefix + Corner, childrenPrefix + Blank);
      ChildPrefixes(childrenPrefix, Corner, Blank, childrenPrefix);
      LinesUnder(c, childrenPrefix + Corner, childrenPrefix + Blank, childrenPrefix);
    case BinaryOpNode(l, op, r) =>
      var ll := Lines(l, childrenPrefix + Tee, childrenPrefix + Pipe);
      var rl := Lines(r, childrenPrefix + Corner, childrenPrefix + Blank);
      assert ls[1..] == ll + rl;
      ChildPrefixes(childrenPrefix, Tee, Pipe, childrenPrefix);
      ChildPrefixes(childrenPrefix, Corner, Blank, childrenPrefix);
      LinesUnder(l, childrenPrefix + Tee, childrenPrefix + Pipe, childrenPrefix);
      LinesUnder(r, childrenPrefix + Corner, childrenPrefix + Blank, childrenPrefix);
      UnderAppend(ll, rl, childrenPrefix);
  }

  /** No line break in s. */
  predicate NoNewline(s: string)
  {
    '\n' !in s
  }

  /** No label anywhere in the tree holds a line break. */
  predicate CleanLabels(n: ExprNode)
  {
    match n
    case NumberNode(v) => NoNewline(v)
    case UnaryOpNode(op, c) => NoNewline(op) && CleanLabels(c)
    case BinaryOpNode(l, op, r) => NoNewline(op) && CleanLabels(l) && CleanLabels(r)
  }

  lemma {:induction false} LinesClean(n: ExprNode, prefix: string, childrenPrefix: string)
    requires NoNewline(prefix) && NoNewline(childrenPrefix) && CleanLabels(n)
    ensures forall i :: 0 <= i < |Lines(n, prefix, childrenPrefix)| ==> NoNewline(Lines(n, prefix, childrenPrefix)[i])
  {
    match n
    case NumberNode(v) =>
    case UnaryOpNode(op, c) =>
      LinesClean(c, childrenPrefix + Corner, childrenPrefix + Blank);
    case BinaryOpNode(l, op, r) =>
      LinesClean(l, childrenPrefix + Tee, childrenPrefix + Pipe);
      LinesClean(r, childrenPrefix + Corner, childrenPrefix + Blank);
  }

  lemma {:induction false} JoinNewlines(lines: seq<string>)
    requires forall i :: 0 <= i < |lines| ==> NoNewline(lines[i])
    ensures multiset(Join(lines))['\n'] == |lines|
  {
    if lines != [] {
      JoinNewlines(lines[1..]);
      assert multiset(lines[0])['\n'] == 0;
    }
  }

  /**
   * The printed text has exactly one line break per node, provided the
   * labels and prefixes hold none of their own.
   */
  lemma {:induction false} RenderNewlines(n: ExprNode, prefix: string, childrenPrefix: string)
    requires NoNewline(prefix) && NoNewline(childrenPrefix) && CleanLabels(n)
    ensures multiset(Render(n, prefix, childrenPrefix))['\n'] == Size(n)
  {
    var ls := Lines(n, prefix, childrenPrefix);
    RenderIsLines(n, prefix, childrenPrefix);
    assert Render(n, prefix, childrenPrefix) == Join(ls);
    LinesClean(n, prefix, childrenPrefix);
    JoinNewlines(ls);
    assert multiset(Join(ls))['\n'] == |ls|;
    LinesCount(n, prefix, childrenPrefix);
  }

  /** The top-level printout starts with the root's label on a line of its own. */
  lemma {:induction false} PrettyPrintFirstLine(n: ExprNode)
    ensures Label(n) + "\n" <= Render(n, "", "")
  {
    RenderIsLines(n, "", "");
    LinesShape(n, "", "");
    var ls := Lines(n, "", "");
    assert ls == [ls[0]] + ls[1..];
    JoinAppend([ls[0]], ls[1..]);
    assert Join([ls[0]]) == Label(n) + "\n";
  }
}
