# TINY recursive-descent parser, modelled in Dafny

This project models the recursive-descent parser for the "TINY" grammar in
`Parser.rb`: the lookahead primitives `consume` and `match` and the
productions `program`, `statement`, `assign`, `exp`, `etail`, `term`,
`ttail` and `factor`. The parser reads a stream of classified tokens and
builds a syntax tree. It counts errors instead of stopping, and after a
mismatch it skips the offending token anyway.

The model is functional:

- The token stream is an immutable `seq<Token>` whose last token is EOF.
  EOF is sticky: consuming it leaves the lookahead where it is.
- The parser's state is a `Cursor`. It holds the lookahead position and the
  running error count (`@errors_found`).
- Each production is a pure function. It takes a cursor and returns the tree
  it built together with the cursor after it.
- Mutual recursion terminates on the measure (tokens left, rank). Every
  re-entry into `Exp` or into a tail happens after a token that is not EOF
  has been consumed.

Modules:

- `Tokens`: the token kinds, tokens, well-formed streams, and the stream
  without its whitespace.
- `Ast`: the tree. A node has a label and a list of children. A child may be
  absent, because the code appends the `nil` that a tail production returns.
  A label is either an input token or a placeholder the parser invents, such
  as `Token.new("program","program")`.
- `Lookahead`: the cursor, `Consume`, `Match`, and the start of a parse.
- `Shapes`: the shapes of the trees each production can return.
- `Parser`: the productions, plus lemmas on how each production's tree is
  assembled from the trees of the productions it calls.
- `Unparse`: a reference reading of trees back into tokens. It proves that
  a parse without errors loses nothing except whitespace and parentheses,
  with one exception: each `-` reads back as the placeholder label "etail",
  because the `-` token itself never appears in the tree.
- `Layout`: whitespace and the error count never steer the parse. Two streams
  with the same non-whitespace tokens parse to the same tree with the same
  error count.
- `Samples`: `x = 1 - 2` worked through the model.
- `Grammar`: the grammar in the header comment of `Parser.rb` as a reference
  independent of the parser. Its datatypes are derivations, one per
  nonterminal, and a printer spells a derivation out as tokens. As the code
  does, a program is zero or more statements.
- `Acceptance`: the parser accepts exactly the grammar's language. A parse
  counts no error if and only if the tokens before the end of input, with
  whitespace dropped, are derivable from PGM. Both directions are proved
  production by production.

The code is modelled as written, including these details:

- A tail node (`etail`/`ttail`) has three children once `exp`/`term` adopts
  its left operand. In order: the right operand, the rest of the tail
  (possibly absent), and the left operand, appended last.
- An absent tail is still appended as a child.
- In the `-` branch of `etail`, the `-` token is bound to a local named
  `etail`. Children are added to the placeholder node `et`, which is what
  gets returned. So the node carries the label "etail", and the `-` token
  appears nowhere in the tree.
- Both branches of the closing-parenthesis test in `factor` call
  `match(RPAREN)`. A missing `)` therefore costs one error, and one token
  unless the lookahead is already EOF.
- The "statement" node `statement` creates first is never returned.

Where the comments and the code differ, the model follows the code:

- The grammar says `PGM --> STMT+`. The code accepts an empty program, or
  one with only whitespace: the result is a childless "program" root with
  no error (`Program`'s last ensures). The reference grammar in `Grammar`
  therefore takes PGM as zero or more statements.
- The tail productions do not fold an operator chain to the left. The tree
  keeps the right operand first and the left operand last, as described
  above.

## Model

| member | source | states |
|---|---|---|
| Lookahead.SkipWhitespace | Parser.rb:34-36 | the position reached is not whitespace, and every token stepped over is whitespace |
| Lookahead.Start | Parser.rb:27-30 | priming the lookahead leaves it on the first non-whitespace token, with only whitespace before it and no error counted |
| Lookahead.Consume | Parser.rb:32-37 | the new lookahead is not whitespace and lies exactly one non-whitespace token further on (unmoved at EOF); the error count is untouched |
| Lookahead.Match | Parser.rb:39-45 | the lookahead moves exactly as `consume` moves it, whether or not it matched; one error is added exactly when the kind differs |
| Parser.Factor | Parser.rb:95-120 | the tree is an operand; an INT/ID is a leaf of that token, one token consumed, no error; any other non-`(` lookahead costs one error and one token and gives the "factor" placeholder |
| Parser.FactorParenthesised | Parser.rb:97-107 | a parenthesised factor is the inner expression's tree unchanged; one more token is always consumed, costing an error exactly when it is not `)` |
| Parser.TTail | Parser.rb:122-138 | absent, consuming nothing, exactly when the lookahead is not `*` or `/`; otherwise a node labelled with that operator token, after progress |
| Parser.TTailChildren | Parser.rb:124-133 | a `*`/`/` node's children are, in order, the factor after the operator and the rest of the tail (possibly absent) |
| Parser.Term | Parser.rb:84-93 | the tree is an operand, no error is forgotten, and input is consumed unless the lookahead is EOF |
| Parser.TermAdoptsFactor | Parser.rb:86-92 | with no `*`/`/` after the factor, the term is that factor unchanged; otherwise it is the tail node with the factor appended as its last child |
| Parser.ETail | Parser.rb:140-156 | absent, consuming nothing, exactly when the lookahead is not `+` or `-`; a `+` node is labelled with its token, a `-` node with the "etail" placeholder |
| Parser.ETailChildren | Parser.rb:142-151 | a `+`/`-` node's children are, in order, the term after the operator and the rest of the tail (possibly absent) |
| Parser.Exp | Parser.rb:73-82 | the tree is an operand, no error is forgotten, and input is consumed unless the lookahead is EOF |
| Parser.ExpAdoptsTerm | Parser.rb:75-81 | with no `+`/`-` after the term, the expression is that term unchanged; otherwise it is the tail node with the term appended as its last child |
| Parser.Assign | Parser.rb:158-175 | at least one token is consumed unless at EOF; the tree has a statement's shape; a non-ID lookahead gives the "assignment" placeholder for one error and one token |
| Parser.AssignAfterIdentifier | Parser.rb:160-170 | `ID =` gives the `=` node over the identifier leaf and the expression; an ID followed by anything else gives the childless "assignment" placeholder with exactly one error |
| Parser.Statement | Parser.rb:61-71 | `print` gives a node labelled with that token whose only child is the expression after it; any other lookahead is exactly an assignment |
| Parser.Statements | Parser.rb:52-54 | the loop stops exactly at EOF; it produces no statement exactly when it starts at EOF, and never more statements than tokens consumed; each has a statement's shape |
| Parser.Program | Parser.rb:47-59 | a "program" root whose children are all present statements, ending on EOF; an input with no statements gives no children and no error |
| Parser.Parse | Parser.rb:27-30 | after the lookahead is primed, the whole parse ends on EOF under a "program" root; which inputs it accepts without error is stated by `Acceptance.ParseErrorFreeExactlyWhenDerivable` |
| Unparse.FactorYield | Parser.rb:95-120 | an error-free factor's tree read back is exactly the visible tokens it consumed |
| Unparse.TTailYield | Parser.rb:122-138 | an error-free multiplicative tail read back is exactly the visible tokens it consumed |
| Unparse.TermYield | Parser.rb:84-93 | an error-free term read back (left operand first) is exactly the visible tokens it consumed |
| Unparse.ETailYield | Parser.rb:140-156 | an error-free additive tail read back is exactly the visible tokens it consumed, each `-` read as "etail" |
| Unparse.ExpYield | Parser.rb:73-82 | an error-free expression read back is exactly the visible tokens it consumed |
| Unparse.AssignYield | Parser.rb:158-175 | an error-free assignment read back is identifier, `=`, expression: exactly the tokens it consumed |
| Unparse.StatementYields | Parser.rb:61-71 | an error-free statement read back is exactly the visible tokens it consumed |
| Unparse.StatementsYields | Parser.rb:52-54 | error-free statements read back one after another are exactly the visible tokens they consumed |
| Unparse.ParseYield | Parser.rb:47-59 | a whole parse with no error stops at the first EOF, and its tree read back gives every token before it except whitespace and parentheses, in input order, with each `-` read back as "etail" because the `-` token never appears in the tree |
| Grammar.ExpStarts | Parser.rb:8-12 | every expression derivation starts with `(`, an INT or an ID |
| Grammar.StmtStarts | Parser.rb:6-7 | every statement derivation starts with `print` or an ID |
| Grammar.ETailEndsTerm | Parser.rb:9-11 | an additive tail followed by a token that cannot extend an expression never starts with `*` or `/` |
| Grammar.ProgramEndsExp | Parser.rb:5-8 | in a program followed by EOF, what follows a statement's expression is never an operator |
| Acceptance.MatchStep | Parser.rb:39-45 | a non-EOF token first ahead is stepped over by `match` of its own kind without error, leaving the rest ahead |
| Acceptance.FactorAccepts | Parser.rb:95-120 | a FACTOR derivation spelled out ahead is consumed exactly by `factor`, without error |
| Acceptance.TTailAccepts | Parser.rb:122-138 | a TTAIL derivation ahead, followed by a token other than `*` or `/`, is consumed exactly by `ttail`, without error |
| Acceptance.TermAccepts | Parser.rb:84-93 | a TERM derivation ahead, followed by a token other than `*` or `/`, is consumed exactly by `term`, without error |
| Acceptance.ETailAccepts | Parser.rb:140-156 | an ETAIL derivation ahead, followed by a token that is no operator, is consumed exactly by `etail`, without error |
| Acceptance.ExpAccepts | Parser.rb:73-82 | an EXP derivation ahead, followed by a token that is no operator, is consumed exactly by `exp`, without error |
| Acceptance.PrintAccepts | Parser.rb:61-66 | a `print EXP` derivation ahead is consumed exactly by `statement`, without error |
| Acceptance.AssignAccepts | Parser.rb:158-167 | an `ID = EXP` derivation ahead is consumed exactly by `statement`, without error |
| Acceptance.StatementAccepts | Parser.rb:61-71 | a STMT derivation ahead, followed by a token that is no operator, is consumed exactly by `statement`, without error |
| Acceptance.StatementsAccept | Parser.rb:52-54 | a sequence of STMT derivations ahead, followed by EOF, is consumed exactly by the statement loop, without error |
| Acceptance.InputSplits | Parser.rb:27-37 | the non-whitespace tokens seen from the primed lookahead are those before the first EOF, then that EOF and what the parser sees from it |
| Acceptance.ParseAccepts | Parser.rb:47-59 | an input whose tokens before the end, whitespace dropped, derive from PGM parses with no error |
| Acceptance.FactorDerives | Parser.rb:95-120 | when `factor` counts no error, the tokens it consumed, whitespace dropped, are a FACTOR derivation |
| Acceptance.TTailDerives | Parser.rb:122-138 | when `ttail` counts no error, the tokens it consumed are a TTAIL derivation |
| Acceptance.TermDerives | Parser.rb:84-93 | when `term` counts no error, the tokens it consumed are a TERM derivation |
| Acceptance.ETailDerives | Parser.rb:140-156 | when `etail` counts no error, the tokens it consumed are an ETAIL derivation |
| Acceptance.ExpDerives | Parser.rb:73-82 | when `exp` counts no error, the tokens it consumed are an EXP derivation |
| Acceptance.StatementDerives | Parser.rb:61-71 | when `statement` counts no error, the tokens it consumed are a STMT derivation: `print EXP` or `ID = EXP` |
| Acceptance.StatementsDerive | Parser.rb:52-54 | when the statement loop counts no error, the tokens it consumed are a sequence of STMT derivations |
| Acceptance.ParseDerives | Parser.rb:47-59 | when a whole parse counts no error, the tokens before the end, whitespace dropped, derive from PGM |
| Acceptance.ParseErrorFreeExactlyWhenDerivable | Parser.rb:5-12 | a whole parse counts no error if and only if the tokens before the end of input, whitespace dropped, derive from PGM (taken as zero or more statements) |
| Layout.MatchAlike | Parser.rb:39-45 | two cursors seeing the same non-whitespace tokens ahead see the same lookahead, count the same after `match`, and still see the same tokens ahead |
| Layout.ParenthesisedAlike | Parser.rb:97-107 | a parenthesised factor behaves alike on two such cursors once its inner expression does |
| Layout.OperandAlike | Parser.rb:108-118 | a non-parenthesised factor behaves alike on two such cursors |
| Layout.FactorAlike | Parser.rb:95-120 | `factor` on two such cursors builds the same tree, counts the same new errors, and leaves them seeing the same tokens ahead |
| Layout.TTailAlike | Parser.rb:122-138 | the same for `ttail` |
| Layout.TermAlike | Parser.rb:84-93 | the same for `term` |
| Layout.ETailAlike | Parser.rb:140-156 | the same for `etail` |
| Layout.ExpAlike | Parser.rb:73-82 | the same for `exp` |
| Layout.AssignAlike | Parser.rb:158-175 | the same for `assign` |
| Layout.StatementAlike | Parser.rb:61-71 | the same for `statement` |
| Layout.StatementsAlike | Parser.rb:52-54 | the same for the statement loop |
| Layout.ProgramAlike | Parser.rb:47-59 | because `program` resets the count, two such cursors end with the same tree and the same total error count, whatever they had counted before |
| Layout.ParseIgnoresWhitespace | Parser.rb:32-37 | two streams with the same non-whitespace tokens parse to the same tree with the same error count |
| Layout.ExpIgnoresErrorCount | Parser.rb:39-45 | the error count is only ever added to, never consulted: starting an expression from any count gives the same tree and position, with the count shifted |
| Samples.SubtractionTail | Parser.rb:147-151 | on `- 2` the additive tail is the "etail" placeholder over the leaf `2` and an absent rest |
| Samples.SubtractionExp | Parser.rb:73-82 | `1 - 2` is the "etail" node with children `2`, absent, `1` |
| Samples.SubtractionKeepsPlaceholder | Parser.rb:140-156 | `x = 1 - 2` parses without error to a tree in which no label is the `-` token |

## Left out

- The scanner (`Lexer.rb`, loaded at line 24) is not part of this model. This
  covers file loading, character classification and `nextToken`. Its output is
  taken as a finished token sequence ending in EOF. A token asked for past the
  first EOF is that same EOF, so nothing after the first EOF is ever read.
- The diagnostics printed with `puts` (lines 41, 56 and 115) are console
  output. Only the error count is modelled.
- The internals of the `AST` class are not shown. A node is a label plus a
  list of possibly absent children, and `addChild` appends.
- `@errors_found` is first assigned in `program`. The constructor only calls
  `consume`, which never counts. A production called on its own before
  `program` would add to an unset count in Ruby. The model starts the count
  at 0 instead, and `Program` resets it as the code does.
- No evaluator or associativity claim is modelled: the code has no evaluator.
- `Unparse.ParseYield` covers only parses with no error. After an error the
  tree may hold placeholders and miss the skipped tokens, so no round trip is
  claimed for that case.
