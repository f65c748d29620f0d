# LL(1) arithmetic-expression parser, modelled in Dafny

This project models `LL1Parser.java`: a small pipeline that checks and parses
arithmetic expressions over signed decimal numbers, `+ - * /` and parentheses,
in four stages:

- **Lexer** (`tokenize`): one token per significant character, whitespace
  skipped. The first invalid character replaces the whole result by a single
  `ERROR` token. On success a `$` end marker is appended at position `|input|`.
- **Predictive parser**: the LL(1) table of `initializeTable` and the
  stack machine of `parse`. The stack is seeded with `[$, Expr]`. Each step
  matches a terminal or expands a non-terminal by its table production, pushed
  in reverse. The input is accepted when the stack is down to `$` and the
  lookahead is `$` too; the result is then the unchanged token list, otherwise
  `null`.
- **Tree builder** (`TreeBuilder`): a class with a token list and a cursor
  `position`. It re-parses the accepted tokens by recursive descent into
  number, unary and binary nodes. A missing token (a failed `match`, or a
  `peek` past the end) is a fault that `build` turns into `null`.
- **Pretty printer** (`prettyPrint`): every node appends its line to a shared
  buffer, under box-drawing prefixes.

Each imperative part is written as an imperative method:
- `Lexer.Tokenize` is a `for` loop that appends to a sequence;
- `Parser.RunMachine` is the `while` loop over a stack and an input pointer;
- `Builder.TreeBuilder` is a class whose `position` field its methods advance;
- `Ast.PrettyPrintInto` appends to a `StringBuilder` object.

Each method is proved equal to a reference function:
- `Lexer.Lex` for the lexer;
- `ParseMachine.Phase`, `Finish` and `Verdict` for the parser;
- the `Descent.*From` functions, which thread the cursor, for the builder;
- `Ast.Render` for the printer.

The properties the source promises are proved about those functions:
- the lexer's success shape and its fail-fast;
- the parser's match, expand, accept and reject steps;
- left-associative folding and operator precedence in the builder;
- the text of number literals, and their round trip: for every accepted
  input, relexing and reparsing the text of any number leaf of its tree
  builds the same leaf;
- the printer's one-line-per-node layout.

Two results tie the stages together:
- **Termination.** The parser loop always ends. The measure is the input still
  to read, then whether a non-terminal is on top, then a weight of the stack.
  The weights are Expr 6, Term 4, Factor 2, other non-terminals 1, terminals 0.
- **Agreement.** Every input the parser accepts builds a tree
  (`Agreement.AcceptedBuilds`), so the builder's fault is unreachable after
  acceptance.

Modules, one per file:
- `Wrappers` (`wrappers.dfy`): `Option`.
- `Grammar` (`grammar.dfy`): the alphabets and the table.
- `Lexer` (`lexer.dfy`) and `LexerProperties` (`lexer_props.dfy`).
- `ParseMachine` (`machine.dfy`): step semantics and outcomes.
- `Parser` (`parser.dfy`): the `parse` method.
- `ParserProperties` (`parser_props.dfy`): verdicts and worked runs.
- `Ast` (`ast.dfy`) and `AstProperties` (`ast_props.dfy`): the nodes and the
  printer.
- `Descent` (`descent.dfy`) and `Builder` (`builder.dfy`): the tree builder as
  functions and as the class.
- `DescentProperties` (`descent_props.dfy`): the builder's properties.
- `Agreement` (`agreement.dfy`): parser and builder agree.
- `Literals` (`literal.dfy`): the round trip of number literals, for one literal's text and for every leaf of an accepted input's tree.

Two facts about the code that the model makes explicit:

- **When the "unexpected end" outcome happens.** It arises in only one way:
  the loop stops once the stack is down to `$` (line 174), and lines 228-235
  then reject when the token at the pointer is not `$`. Input that runs out
  early leaves a concrete symbol on the stack when `$` is read (lines
  182-208). That symbol rejects as a mismatch or as a missing table entry,
  never as "unexpected end".
- **Why the parser loop terminates.** An iteration need not read input or
  shrink the stack. The expansion `Expr -> Term Expr'` (lines 210-216) grows
  the stack and leaves the pointer where it is. The model proves termination
  with the weight measure above.

## Model

| member | source | states |
|---|---|---|
| Lexer.Classify | LL1Parser.java:126-147 | A character is classified as `d` exactly when it is a decimal digit, and no character is classified as `$`. |
| Lexer.LexFrom | LL1Parser.java:119-150 | From any scan state the result is either a single ERROR token at an index inside the input, or a list longer than the tokens so far, ending with the `$` token at the position equal to the input length. |
| Lexer.LexStep | LL1Parser.java:120-147 | One turn of the scan keeps `LexFrom`'s guarantee: a single ERROR token at an index inside the input, or a list longer than the tokens so far, ending with `$` at the input length. |
| LexerProperties.LexFromKeeps | LL1Parser.java:119-150 | The scan only extends what it has: the result is the single ERROR token, or the tokens so far as a strict prefix, ending with `$` at the input length. |
| Lexer.Lex | LL1Parser.java:116-151 | The lexer's result is a single ERROR token or a non-empty list ending with the `$` token at the position equal to the input length. |
| Lexer.Tokenize | LL1Parser.java:116-151 | The loop that appends tokens and clears the list on an invalid character returns exactly `Lex(input)`. |
| LexerProperties.FirstInvalid | LL1Parser.java:142-147 | Finds the first invalid character at or after an index, or None when there is none. |
| LexerProperties.LexFailFast | LL1Parser.java:142-147 | When the first invalid character is at index i, the result is exactly `[Token(ERROR, c, i)]`, and every earlier token is discarded. |
| LexerProperties.LexFromFailFast | LL1Parser.java:142-147 | The same from any scan state: the tokens already collected are discarded. |
| LexerProperties.LexIsScanned | LL1Parser.java:119-149 | With no invalid character, the result is the per-character reference scan followed by the `$` token. |
| LexerProperties.LexFromScanned | LL1Parser.java:119-149 | Continuing the reference scan from any index reaches the whole reference scan plus `$`. |
| LexerProperties.ScannedEach | LL1Parser.java:119-141 | When no character is whitespace or invalid, the scan keeps exactly one token per character, carrying that character's type, value and index. |
| LexerProperties.ScannedTokens | LL1Parser.java:123-141 | Every reference-scan token is the token of a significant character: type `d` for a digit, otherwise the character's own type; the character as its value; its index as its position. |
| LexerProperties.ScannedOrdered | LL1Parser.java:119-141 | Reference-scan positions strictly increase. |
| LexerProperties.ScannedCovers | LL1Parser.java:119-141 | Every significant character has a reference-scan token. |
| LexerProperties.LexSuccess | LL1Parser.java:116-151 | Lexer success shape: every significant character yields exactly one token, with its type, its value and its index; positions strictly increase; the list ends with the one `$` token, at the input length. |
| LexerProperties.LexValidWhenNotError | LL1Parser.java:142-147 | A result that does not start with ERROR means no invalid character was met. |
| LexerProperties.LexSpelled | LL1Parser.java:121-149 | Every token value is its type's spelling; a `d` token's value is one decimal digit. |
| Grammar.Table | LL1Parser.java:47-111 | The table is predictive: a production that starts with a terminal sits only in that terminal's column, the `$` column holds only ε productions, and no production contains `$` or has more than three symbols. |
| ParseMachine.Reverse | LL1Parser.java:213-216 | Reversing a production keeps its length and whether it holds `$`, and puts its first symbol last (on top). |
| ParseMachine.ReverseIndex | LL1Parser.java:213-216 | Reverse puts the production's i-th symbol at the mirrored index. |
| ParseMachine.ReverseStep | LL1Parser.java:214-216 | One turn of the push loop extends the reversed suffix by one symbol. |
| ParseMachine.ReverseCons | LL1Parser.java:214-216 | Reversing `[x] + t` puts x after the reversal of t. |
| ParseMachine.ReverseTriple | LL1Parser.java:213-216 | Reversing a three-symbol production gives the symbols last to first. |
| ParseMachine.Expand | LL1Parser.java:210-217 | Expansion pops the non-terminal and leaves the stack below unchanged. For a non-ε rule the leftmost symbol becomes the new top; for ε only the pop happens. The length grows by the rule's length minus one. |
| ParseMachine.ExpandOrder | LL1Parser.java:210-217 | After expansion the rule's i-th symbol sits i places below the top. |
| ParseMachine.RuleNoEof | LL1Parser.java:47-111 | No production of the table contains `$`. |
| ParseMachine.NonTerminalHeaded | LL1Parser.java:47-111 | The only productions that start with a non-terminal are `Expr -> Term Expr'`, `Term -> Factor Term'` and `Factor -> Num`. |
| ParseMachine.ExpandDecreases | LL1Parser.java:174-217 | Every expansion either leaves a terminal on top or strictly lowers the stack's weight; this is the loop's termination measure. |
| ParseMachine.Phase | LL1Parser.java:174-224 | A completed run stops at a pointer inside the token list; a rejection inside the loop is a mismatch or a missing table entry. |
| ParseMachine.PhaseStep | LL1Parser.java:182-208 | One iteration keeps the run's guarantees: a completed run stops inside the list, and a rejection is a mismatch or a missing entry. |
| ParseMachine.PhaseExpandStep | LL1Parser.java:195-217 | The expansion step keeps the same guarantees. |
| ParseMachine.PhaseMatch | LL1Parser.java:182-186 | A terminal on top equal to the lookahead's type is popped and the pointer advances by exactly one. |
| ParseMachine.PhaseExpand | LL1Parser.java:195-217 | A non-terminal on top with a table entry for the lookahead is expanded, with the pointer unchanged. |
| ParseMachine.ExpandUnder | LL1Parser.java:210-217 | Expanding the top leaves the stack beneath unchanged. |
| ParseMachine.PhaseMatchLast | LL1Parser.java:182-186 | Matching the terminal on top of `rest + [t]` leaves `rest`, one token on. |
| ParseMachine.PhaseUnder | LL1Parser.java:210-216 | A non-terminal on top of any stack is replaced by its production, reversed, and the stack beneath is unchanged. |
| ParseMachine.PhaseEpsilon | LL1Parser.java:210-212 | A non-terminal whose cell for the lookahead is ε is popped, and nothing else changes. |
| ParseMachine.PhaseMismatch | LL1Parser.java:187-193 | A terminal on top that differs from the lookahead rejects at once, naming the expected terminal and the token found. |
| ParseMachine.PhaseNoEntry | LL1Parser.java:196-208 | A non-terminal with no table entry for the lookahead rejects at once, naming the token and the non-terminal. |
| ParseMachine.Finish | LL1Parser.java:228-235 | After the loop, acceptance comes exactly when the token at the pointer is `$`. Otherwise the outcome is "unexpected end" naming that token, which is not `$`. A rejection inside the loop is passed on unchanged. |
| ParseMachine.Verdict | LL1Parser.java:159-235 | A lexical error comes exactly when the token list starts with ERROR, and it names that token. Acceptance implies the run from Expr completed. |
| Parser.LexEofOnlyAtEnd | LL1Parser.java:149 | After a successful scan, the last token is the only `$` token. |
| Parser.StackMatch | LL1Parser.java:183-186 | Popping a matched terminal off `[$] + pending` pops it off `pending`, and the run continues one token on. |
| Parser.StackExpand | LL1Parser.java:210-217 | Expanding the top of `[$] + pending` keeps the bottom `$`. |
| Parser.PushReversed | LL1Parser.java:213-216 | Pushing a production's symbols from last to first appends its reversal to the stack. |
| Parser.RunMachine | LL1Parser.java:166-235 | The loop accepts exactly when the machine run from `[$, Expr]` ends in acceptance. On acceptance the stack is exactly `[$]` and the number of Match steps is the number of non-`$` tokens. On every exit the bottom `$` is in place and is the only `$`. |
| Parser.Parse | LL1Parser.java:156-236 | `parse` returns the unchanged token list when the verdict is acceptance, and null (None) otherwise, including on a lexical error. |
| ParserProperties.VerdictOutcomes | LL1Parser.java:160-235 | A lexical error comes exactly when the token list starts with ERROR, and it names that token. Acceptance comes exactly when the run from Expr stops at the `$` token. An "unexpected end" names a token that is not `$`. |
| ParserProperties.LexDotPlus | LL1Parser.java:116-151 | ".+" scans to a `.` token, a `+` token and `$`. |
| ParserProperties.DotPlusRejected | LL1Parser.java:97-99 | ".+" is rejected with no table entry: Digits, whose only entry is for `d`, meets the `+`. |
| ParserProperties.DigitOpens | LL1Parser.java:174-217 | On a leading digit the machine expands down to `Num -> d Digits' Num_tail`, then matches the digit. |
| ParserProperties.TailsClose | LL1Parser.java:210-217 | On `)` or `$`, the four tails Digits', Num_tail, Term' and Expr' take their ε entries. |
| ParserProperties.LexOneClose | LL1Parser.java:116-151 | "1)" scans to a `d` token, a `)` token and `$`. |
| ParserProperties.OneCloseRejected | LL1Parser.java:232-235 | "1)" is rejected because the stack reaches `$` while the lookahead is `)`. |
| Builder.TreeBuilder.constructor | LL1Parser.java:341-344 | A new builder holds the token list with the cursor at 0. |
| Builder.TreeBuilder.Peek | LL1Parser.java:346 | `peek` returns the token at the cursor; None stands for a read past the end. |
| Builder.TreeBuilder.Consume | LL1Parser.java:347 | `consume` returns the token at the cursor and advances the cursor by exactly one. |
| Builder.TreeBuilder.Match | LL1Parser.java:348-353 | `match` consumes a token of the expected type; otherwise it fails without moving. |
| Builder.TreeBuilder.Build | LL1Parser.java:355-363 | `build` returns the tree of expr(), or None (null) after any fault. |
| Builder.TreeBuilder.Expr | LL1Parser.java:365-368 | `expr` yields what `ExprFrom` yields: the same tree or the same fault, and the same final cursor. |
| Builder.TreeBuilder.ExprPrime | LL1Parser.java:370-382 | `expr_prime` yields what `ExprPrimeFrom` yields. |
| Builder.TreeBuilder.Term | LL1Parser.java:384-387 | `term` yields what `TermFrom` yields. |
| Builder.TreeBuilder.TermPrime | LL1Parser.java:389-401 | `term_prime` yields what `TermPrimeFrom` yields. |
| Builder.TreeBuilder.Factor | LL1Parser.java:403-416 | `factor` yields what `FactorFrom` yields. |
| Builder.TreeBuilder.Num | LL1Parser.java:418-428 | `num` yields what `NumFrom` yields. |
| Builder.TreeBuilder.NumTail | LL1Parser.java:430-437 | `num_tail` yields what `NumTailFrom` yields. |
| Builder.TreeBuilder.Digits | LL1Parser.java:439-442 | `digits` yields what `DigitsFrom` yields. |
| Builder.TreeBuilder.DigitsPrime | LL1Parser.java:444-450 | `digits_prime` yields what `DigitsPrimeFrom` yields. |
| Builder.BuildFromTokens | LL1Parser.java:341-363 | A fresh builder's `build` returns `BuildTree(tokens)`. |
| Descent.ExprFrom | LL1Parser.java:365-368 | A successful expr consumes at least one token and stays inside the list. |
| Descent.ExprPrimeFrom | LL1Parser.java:370-382 | A successful expr_prime never moves the cursor backwards. |
| Descent.TermFrom | LL1Parser.java:384-387 | A successful term consumes at least one token. |
| Descent.TermPrimeFrom | LL1Parser.java:389-401 | A successful term_prime never moves the cursor backwards. |
| Descent.FactorFrom | LL1Parser.java:403-416 | A successful factor consumes at least one token. |
| Descent.NumFrom | LL1Parser.java:418-428 | A successful num consumes at least one token and builds a number node. |
| Descent.NumTailFrom | LL1Parser.java:430-437 | A successful num_tail never moves the cursor backwards. |
| Descent.DigitsFrom | LL1Parser.java:439-442 | A successful digits consumes at least one token. |
| Descent.DigitsPrimeFrom | LL1Parser.java:444-450 | A successful digits_prime never moves the cursor backwards. |
| Descent.BuildTree | LL1Parser.java:355-363 | `build` succeeds exactly when `expr` does; a list of fewer than two tokens never builds, because the builder peeks past the expression. |
| DescentProperties.DigitRunEnd | LL1Parser.java:444-450 | Finds where the run of `d` tokens from a position ends. |
| DescentProperties.DigitsPrimeRun | LL1Parser.java:444-450 | `digits_prime` takes the whole run of `d` tokens and returns their text. It faults exactly when the run reaches the end of the list. |
| DescentProperties.DigitsRun | LL1Parser.java:439-442 | `digits` is the same run, and faults unless the run starts with a `d` token. |
| DescentProperties.DigitValues | LL1Parser.java:444-450 | The text of q-p spelled `d` tokens is q-p decimal digits. |
| DescentProperties.DigitsText | LL1Parser.java:439-450 | `digits` yields the verbatim text of its tokens: a non-empty run of digits. |
| DescentProperties.NumTailText | LL1Parser.java:430-437 | `num_tail` yields the verbatim text of its tokens: empty, or `.` followed by digits. |
| DescentProperties.NumberLiteral | LL1Parser.java:418-428 | A number node's text is the verbatim concatenation of the values of the tokens consumed. It has one of three shapes: `.` then digits, digits alone, or digits `.` digits. |
| DescentProperties.PointLiteral | LL1Parser.java:419-422 | The `.` branch of `num` yields `.` followed by a digit run, the verbatim text of its tokens. |
| DescentProperties.DigitsLiteral | LL1Parser.java:423-427 | The digits branch of `num` yields a digit run, optionally followed by `.` and a digit run, the verbatim text of its tokens. |
| DescentProperties.ExprLeaves | LL1Parser.java:365-368 | Every number leaf of a built expression holds a literal's text in one of the three shapes. |
| DescentProperties.ExprPrimeLeaves | LL1Parser.java:370-382 | An additive chain over such leaves adds only such leaves. |
| DescentProperties.TermLeaves | LL1Parser.java:384-387 | The same for a term. |
| DescentProperties.TermPrimeLeaves | LL1Parser.java:389-401 | The same for a multiplicative chain. |
| DescentProperties.FactorLeaves | LL1Parser.java:403-428 | The same for a factor: through parentheses, through negation, and for the number itself. |
| DescentProperties.ValuesSplit | LL1Parser.java:424-425 | Token text from p to q followed by the text from q to r is the text from p to r. |
| DescentProperties.FoldLeftCons | LL1Parser.java:370-382 | Folding a chain that starts with one operand is folding the rest onto the first binary node. |
| DescentProperties.ChainFolds | LL1Parser.java:370-401 | Both tail functions fold their operator chain onto the left operand. |
| DescentProperties.ExprPrimeFoldsLeft | LL1Parser.java:370-382 | `a op1 b op2 c` at one level becomes `BinaryOp(BinaryOp(a, op1, b), op2, c)`. `expr_prime` is the left fold of its `+`/`-` chain, failing when the chain fails. |
| DescentProperties.TermPrimeFoldsLeft | LL1Parser.java:389-401 | `term_prime` is the left fold of its `*`/`/` chain. |
| DescentProperties.ChainOperators | LL1Parser.java:370-401 | Every operator of an additive chain is `+` or `-`; every operator of a multiplicative chain is `*` or `/`. |
| DescentProperties.FactorAdditiveFree | LL1Parser.java:403-416 | A factor without parentheses holds no `+`/`-` node. |
| DescentProperties.TermPrimeAdditiveFree | LL1Parser.java:389-401 | A `*`/`/` chain over factors without parentheses adds no `+`/`-` node. |
| DescentProperties.TermAdditiveFree | LL1Parser.java:384-416 | Precedence: a term without parentheses holds no `+`/`-` node, because factors are reached only through terms. |
| DescentProperties.ExprShape | LL1Parser.java:365-382 | An expression is its first term with its `+`/`-` chain of terms folded on to the left. |
| DescentProperties.SingleDigitTerm | LL1Parser.java:384-450 | A lone `d` not followed by `d`, `.`, `*` or `/` is a complete term: a one-digit number node. |
| DescentProperties.LexSubtractionChain | LL1Parser.java:116-151 | "1-2-3" scans to `d - d - d` and `$`. |
| DescentProperties.AdditiveTripleFolds | LL1Parser.java:365-382 | Three one-digit operands joined by `+` or `-` build `BinaryOp(BinaryOp(a, op1, b), op2, c)`, stopping at `$`. |
| DescentProperties.SubtractionGroupsLeft | LL1Parser.java:365-382 | "1-2-3" builds `BinaryOp(BinaryOp(1, -, 2), -, 3)`: subtraction groups to the left. |
| Agreement.PhaseBind | LL1Parser.java:174-217 | The run on `base + top` first uses up `top`, then runs `base` from where `top` stopped. |
| Agreement.PhaseNeedsRule | LL1Parser.java:196-208 | A non-terminal that is used up had a table entry for the lookahead. |
| Agreement.CloseAgrees | LL1Parser.java:407 | A lone `)` is used up only by a `)` token. `match(")")` succeeds there. |
| Agreement.ExprAgrees | LL1Parser.java:365-368 | Where the machine uses up Expr, `expr()` succeeds and stops at the same token. |
| Agreement.ExprPrimeAgrees | LL1Parser.java:370-382 | The same for Expr' and `expr_prime`. |
| Agreement.TermAgrees | LL1Parser.java:384-387 | The same for Term and `term`. |
| Agreement.TermPrimeAgrees | LL1Parser.java:389-401 | The same for Term' and `term_prime`. |
| Agreement.FactorAgrees | LL1Parser.java:403-416 | The same for Factor and `factor`. |
| Agreement.NumAgrees | LL1Parser.java:418-428 | The same for Num and `num`. |
| Agreement.NumTailAgrees | LL1Parser.java:430-437 | The same for Num_tail and `num_tail`. |
| Agreement.DigitsAgrees | LL1Parser.java:439-442 | The same for Digits and `digits`. |
| Agreement.DigitsPrimeAgrees | LL1Parser.java:444-450 | The same for Digits' and `digits_prime`. |
| Agreement.AcceptedBuilds | LL1Parser.java:355-363 | For an accepted input, `build` succeeds (never null) and its tree covers every token before `$`. |
| Literals.NumberTextChars | LL1Parser.java:418-450 | Every character of a number literal's text is a digit or the point. |
| Literals.LexLiteral | LL1Parser.java:116-151 | A literal's text scans to one token per character, `d` for a digit and `.` for the point, each with its character and index, then `$`. |
| Literals.DigitTokens | LL1Parser.java:126-128 | The digits of a literal's text scan to `d` tokens. |
| Literals.LiteralValues | LL1Parser.java:121-141 | The values of a literal's tokens spell the literal back. |
| Literals.DigitsPrimeMatches | LL1Parser.java:182-216 | Digits' on top matches every `d` of a run in turn, with the stack beneath unchanged. |
| Literals.FractionAccepted | LL1Parser.java:174-224 | From `.` with Digits beneath it, the machine matches the point and the digits up to `$` and uses up the stack. |
| Literals.FractionTailsClose | LL1Parser.java:210-212 | At `$` the tails Digits', Term' and Expr' take their ε entries. |
| Literals.PointFirstAccepted | LL1Parser.java:174-224 | A run from Expr over `.` and digits ends at `$` with the stack used up. |
| Literals.DigitsOnlyAccepted | LL1Parser.java:174-224 | A run from Expr over digits alone ends at `$` with the stack used up. |
| Literals.DecimalAccepted | LL1Parser.java:174-224 | A run from Expr over digits, `.` and digits ends at `$` with the stack used up. |
| Literals.LiteralAccepted | LL1Parser.java:156-235 | The parser accepts the text of every number literal. |
| Literals.LiteralRoundTrip | LL1Parser.java:156-235 | Round trip: relexing and reparsing a literal's text is accepted, and `build` returns the number node holding exactly that text. |
| Literals.LiteralLeavesRoundTrip | LL1Parser.java:156-235 | In a tree whose leaves are literal texts, every leaf round-trips. |
| Literals.AcceptedLeavesRoundTrip | LL1Parser.java:355-428 | For every accepted input, every number leaf of the built tree is a literal's text, and relexing and reparsing that text is accepted and rebuilds the same leaf. |
| Ast.Render | LL1Parser.java:283-331 | The node's own line, `prefix + label` and a newline, comes first, and the rendering ends with a newline. |
| Ast.StringBuilder.Append | LL1Parser.java:284-286 | Appending extends the buffer's content by the string. |
| Ast.PrettyPrintInto | LL1Parser.java:283-331 | The recursive printer appends exactly the rendering of the node to what the buffer held. |
| Ast.PrettyPrint | LL1Parser.java:277-281 | The top-level call, with a fresh buffer and empty prefixes, returns the node's rendering. |
| AstProperties.JoinAppend | LL1Parser.java:283-331 | The text of two blocks of lines is the text of the first followed by the text of the second. |
| AstProperties.RenderIsLines | LL1Parser.java:283-331 | The rendering is the node's lines in pre-order, each followed by a newline. A binary node's left child gets `├── `/`│   `; its right child, like a unary node's only child, gets `└── `/`    `. |
| AstProperties.LinesCount | LL1Parser.java:283-331 | There is one line per node. |
| AstProperties.LinesUnder | LL1Parser.java:306-330 | Every line of a subtree starts with any common prefix of its two prefixes. |
| AstProperties.LinesShape | LL1Parser.java:283-331 | One line per node: the first is `prefix + label`, and every later line starts with the children prefix. |
| AstProperties.LinesClean | LL1Parser.java:283-331 | With newline-free labels and prefixes, no line holds a newline. |
| AstProperties.JoinNewlines | LL1Parser.java:284-286 | Joined newline-free lines hold one newline per line. |
| AstProperties.RenderNewlines | LL1Parser.java:283-331 | The printed text holds exactly one newline per node. |
| AstProperties.PrettyPrintFirstLine | LL1Parser.java:277-281 | The top-level printout starts with the root's label on a line of its own. |

## Left out

- `main` (lines 458-496): the console loop, the exit keyword and the blank-line skip are console I/O.
- All `System.out` tracing in `tokenize` and `parse`, and `formatStack`/`formatInput` (lines 171-172, 180, 239-249): trace output only, with no effect on any decision.
- The exception message texts and `printStackTrace` of `match` and `build`: a fault is the result None.
- Java's Unicode `Character.isDigit` and `Character.isWhitespace`: the model uses ASCII `'0'..'9'`, and tab through carriage return, 0x1C-0x1F and space. The full Unicode tables are library behaviour.
- The `HashMap`/`HashSet` representation of the table and the alphabets, and the `rule.split(" ")` encoding of productions: productions are symbol sequences, and ε is the empty sequence.
- The unknown-symbol branch of `parse` (lines 218-223): a stack symbol is a terminal or a non-terminal by construction in the model, so this case cannot be represented.
- `Token.toString` (lines 19-23): used only for printing.
- Parser.RunMachine: the loop of lines 166-235 is its own method, and `Parse` calls it after the lexical check; the console diagnostics it prints are not modelled, only the outcome they name (`ParseMachine.Outcome`).
- Builder.TreeBuilder.Consume: requires the cursor to be inside the list. Every call site peeks first, so the out-of-bounds read that `consume` would throw never arises; `peek` past the end is modelled as a fault.
- Builder.TreeBuilder.Expr: after a fault the cursor's final value is not stated, because `build` discards it. The same holds for every builder method (`ExprPrime`, `Term`, `TermPrime`, `Factor`, `Num`, `NumTail`, `Digits`, `DigitsPrime`).
- Builder.TreeBuilder.ExprPrime: the source tests `+` and `-` in two separate branches with identical bodies; the model tests them together.
- Builder.TreeBuilder.TermPrime: the same for `*` and `/`, which the source also tests in two branches with identical bodies.
- Java's `charAt` reads UTF-16 code units, while a Dafny `char` is a whole Unicode scalar value. A character outside the Basic Multilingual Plane is invalid in both, so the scan stops at it with the same position and verdict. Java's ERROR token then holds only the character's high surrogate, where the model's holds the whole character.
- Stack overflow of the Java recursion on deeply nested input is not modelled; Dafny's recursion is unbounded.
