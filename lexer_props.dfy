/** What the lexer promises: the shape of a successful scan and fail-fast on the first invalid character. */
module LexerProperties {
  import opened Wrappers
  import opened Grammar
  import opened Lexer

  /**
   * tok is the token of the significant character at tok.position: its type
   * is that character's class and its value is that character.
   */
  ghost predicate CharToken(input: string, tok: Token)
  {
    && tok.position < |input|
    && !IsWhitespace(input[tok.position])
    && Classify(input[tok.position]).Some?
    && tok.ttype == TT(Classify(input[tok.position]).value)
    && tok.value == [input[tok.position]]
  }

  /** The index of the first invalid character at or after `from`, if any. */
  function FirstInvalid(input: string, from: nat): (r: Option<nat>)
    requires from <= |input|
    ensures r.Some? ==> from <= r.value < |input| && Invalid(input[r.value])
    ensures r.Some? ==> forall j :: from <= j < r.value ==> !Invalid(input[j])
    ensures r.None? ==> forall j :: from <= j < |input| ==> !Invalid(input[j])
    decreases |input| - from
  {
    if from == |input| then None
    else if Invalid(input[from]) then Some(from)
    else FirstInvalid(input, from + 1)
  }

  lemma {:induction false} LexFromFailFast(input: string, k: nat, acc: seq<Token>, i: nat)
    requires k <= i < |input| && Invalid(input[i])
    requires forall j :: k <= j < i ==> !Invalid(input[j])
    ensures LexFrom(input, k, acc) == [Token(ErrorType, [input[i]], i)]
    decreases i - k
  {
    assert LexFrom(input, k, acc) == LexStep(input, k, acc);
    if k < i {
      if IsWhitespace(input[k]) {
        LexFromFailFast(input, k + 1, acc, i);
      } else {
        var t := Classify(input[k]).value;
        LexFromFailFast(input, k + 1, acc + [Token(TT(t), [input[k]], k)], i);
      }
    }
  }

  /**
   * The scan from i only ever extends the tokens so far: it either ends in
   * the single ERROR token or returns them followed by more tokens, the
   * last being `$`.
   */
  lemma {:induction false} LexFromKeeps(input: string, i: nat, acc: seq<Token>)
    requires i <= |input|
    ensures var r := LexFrom(input, i, acc);
      || (|r| == 1 && r[0].ttype == ErrorType)
      || (acc < r && r[|r| - 1] == EndToken(|input|))
    decreases |input| - i
  {
    if i < |input| {
      assert LexFrom(input, i, acc) == LexStep(input, i, acc);
      if IsWhitespace(input[i]) {
        LexFromKeeps(input, i + 1, acc);
      } else if Classify(input[i]).Some? {
        var acc' := acc + [Token(TT(Classify(input[i]).value), [input[i]], i)];
        LexFromKeeps(input, i + 1, acc');
        assert acc <= acc';
      }
    }
  }

  /**
   * Fail-fast: when the first invalid character is at index i, the result is
   * exactly the one ERROR token carrying that character and i; every token
   * of the characters before it is discarded.
   */
  lemma {:induction false} LexFailFast(input: string, i: nat)
    requires i < |input| && Invalid(input[i])
    requires forall j :: 0 <= j < i ==> !Invalid(input[j])
    ensures Lex(input) == [Token(ErrorType, [input[i]], i)]
  {
    LexFromFailFast(input, 0, [], i);
  }

  /**
   * Reference definition of a successful scan: the tokens of the
   * significant characters before index i, left to right.
   */
  function Scanned(input: string, i: nat): seq<Token>
    requires i <= |input|
  {
    if i == 0 then []
    else
      var c := input[i - 1];
      if IsWhitespace(c) then Scanned(input, i - 1)
      else match Classify(c)
        case Some(t) => Scanned(input, i - 1) + [Token(TT(t), [c], i - 1)]
        case None => Scanned(input, i - 1)
  }

  /** One scanning step: the character at i contributes its token to both sides, or nothing. */
  lemma {:induction false} LexFromScannedStep(input: string, i: nat)
    requires i < |input| && !Invalid(input[i])
    ensures LexFrom(input, i, Scanned(input, i)) == LexFrom(input, i + 1, Scanned(input, i + 1))
  {
    assert LexFrom(input, i, Scanned(input, i)) == LexStep(input, i, Scanned(input, i));
  }

  /** At the end of the input the scan appends the `$` token to what it has. */
  lemma {:induction false} LexFromEnd(input: string, acc: seq<Token>)
    ensures LexFrom(input, |input|, acc) == acc + [EndToken(|input|)]
  {
  }

  lemma {:induction false} LexFromScanned(input: string, i: nat)
    requires i <= |input|
    requires forall j :: i <= j < |input| ==> !Invalid(input[j])
    ensures LexFrom(input, i, Scanned(input, i)) == Scanned(input, |input|) + [EndToken(|input|)]
    decreases |input| - i
  {
    if i < |input| {
      LexFromScannedStep(input, i);
      LexFromScanned(input, i + 1);
    } else {
      LexFromEnd(input, Scanned(input, i));
    }
  }

  /** When no character before i is whitespace or invalid, the scan keeps one token per character. */
  lemma {:induction false} ScannedEach(input: string, i: nat)
    requires i <= |input|
    requires forall j :: 0 <= j < i ==> !IsWhitespace(input[j]) && Classify(input[j]).Some?
    ensures |Scanned(input, i)| == i
    ensures forall k :: 0 <= k < i ==>
      Scanned(input, i)[k] == Token(TT(Classify(input[k]).value), [input[k]], k)
  {
    if i > 0 {
      ScannedEach(input, i - 1);
    }
  }

  /** Every scanned token is the token of a significant character before i. */
  lemma {:induction false} ScannedTokens(input: string, i: nat)
    requires i <= |input|
    ensures forall k :: 0 <= k < |Scanned(input, i)| ==>
      Scanned(input, i)[k].position < i && CharToken(input, Scanned(input, i)[k])
  {
    if i > 0 {
      ScannedTokens(input, i - 1);
    }
  }

  /** Scanned tokens are in strictly increasing order of position. */
  lemma {:induction false} ScannedOrdered(input: string, i: nat)
    requires i <= |input|
    ensures forall k, l :: 0 <= k < l < |Scanned(input, i)| ==>
      Scanned(input, i)[k].position < Scanned(input, i)[l].position
  {
    if i > 0 {
      ScannedOrdered(input, i - 1);
      ScannedTokens(input, i - 1);
    }
  }

  /** Every significant character before i has a scanned token. */
  lemma {:induction false} ScannedCovers(input: string, i: nat, j: nat)
    requires j < i <= |input| && !Invalid(input[j]) && !IsWhitespace(input[j])
    ensures exists k :: 0 <= k < |Scanned(input, i)| && Scanned(input, i)[k].position == j
  {
    var s := Scanned(input, i);
    if j == i - 1 {
      assert s[|s| - 1].position == j;
    } else {
      ScannedCovers(input, i - 1, j);
      var k :| 0 <= k < |Scanned(input, i - 1)| && Scanned(input, i - 1)[k].position == j;
      assert s[k] == Scanned(input, i - 1)[k];
    }
  }

  /** A scan that meets no invalid character is the reference scan followed by the `$` token. */
  lemma {:induction false} LexIsScanned(input: string)
    requires forall j :: 0 <= j < |input| ==> !Invalid(input[j])
    ensures Lex(input) == Scanned(input, |input|) + [EndToken(|input|)]
  {
    LexFromScanned(input, 0);
  }

  /**
   * The shape of a successful scan: every token but the last is the token of
   * one significant character (type d for a digit, otherwise the character's
   * own type; value the character; position its index), positions strictly
   * increase, every significant character has a token (so exactly one), and
   * the list ends with the one `$` token at position |input|.
   */
  lemma {:induction false} LexSuccess(input: string)
    requires forall j :: 0 <= j < |input| ==> !Invalid(input[j])
    ensures var r := Lex(input);
      && |r| > 0
      && r[|r| - 1] == EndToken(|input|)
      && (forall k :: 0 <= k < |r| - 1 ==> CharToken(input, r[k]))
      && (forall k, l :: 0 <= k < l < |r| ==> r[k].position < r[l].position)
      && (forall j :: 0 <= j < |input| && !IsWhitespace(input[j]) ==>
            exists k :: 0 <= k < |r| - 1 && r[k].position == j)
  {
    LexIsScanned(input);
    var s := Scanned(input, |input|);
    var r := Lex(input);
    ScannedTokens(input, |input|);
    ScannedOrdered(input, |input|);
    assert forall k :: 0 <= k < |r| - 1 ==> r[k] == s[k];
    forall j | 0 <= j < |input| && !IsWhitespace(input[j])
      ensures exists k :: 0 <= k < |r| - 1 && r[k].position == j
    {
      ScannedCovers(input, |input|, j);
      var k :| 0 <= k < |s| && s[k].position == j;
      assert r[k] == s[k];
    }
  }

  /** A scan that does not start with ERROR saw no invalid character. */
  lemma {:induction false} LexValidWhenNotError(input: string)
    requires Lex(input)[0].ttype != ErrorType
    ensures forall j :: 0 <= j < |input| ==> !Invalid(input[j])
  {
    match FirstInvalid(input, 0)
    case Some(i) => LexFailFast(input, i);
    case None =>
  }

  // ---------------------------------------------------------------------
  // Token spelling: what the lexer guarantees about token values.

  /** The one spelling of each non-digit terminal. */
  function Spelling(t: Terminal): string
    requires t != Digit
  {
    match t
    case Plus => "+"
    case Minus => "-"
    case Times => "*"
    case Divide => "/"
    case LParen => "("
    case RParen => ")"
    case Dot => "."
    case Eof => "$"
  }

  /** A token whose value is the text of its type: one decimal digit for `d`. */
  predicate Spelled(tok: Token)
  {
    match tok.ttype
    case ErrorType => true
    case TT(t) => if t == Digit then |tok.value| == 1 && IsDigit(tok.value[0]) else tok.value == Spelling(t)
  }

  /** Every token from p on is spelled. */
  predicate SpelledFrom(tokens: seq<Token>, p: nat)
  {
    forall k :: p <= k < |tokens| ==> Spelled(tokens[k])
  }

  /** Every token the lexer produces is spelled. */
  lemma {:induction false} LexSpelled(input: string)
    ensures SpelledFrom(Lex(input), 0)
  {
    match FirstInvalid(input, 0)
    case Some(i) =>
      LexFailFast(input, i);
    case None =>
      LexSuccess(input);
  }
}
