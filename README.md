# A verified model of the MATLAB-subset parser

This project models the hand-written recursive-descent parser of the
Degree-Project interpreter (`main/II_syntactic/parser.py`). The parser turns
the lexer's token list into an AST whose root is a statement list:

- statements are tried in a fixed order (expression, `clear`, selection,
  iteration, jump), and the first routine that returns a node wins;
- expressions go down a precedence chain: colon, `||`, `&&`, relational,
  additive, multiplicative, prefix, postfix, primary;
- block constructs (`if`/`elseif`/`else`, `switch`/`case`/`otherwise`,
  `while`, `for`) read statement lists up to a set of terminator keywords,
  taken from the tables `SEL_CLAUSES_MAP` and `SEL_TERMINATOR_MAP`.

## Layout

| file | module | contents |
|---|---|---|
| `syntax.dfy` | `Wrappers`, `Syntax` | tokens, AST nodes, the outcome of a routine, `get_token`, `str`, `strip`, the two selection tables |
| `expressions.dfy` | `Expressions` | the expression routines as functions on the remaining tokens |
| `statements.dfy` | `Statements` | the statement routines as functions on the remaining tokens |
| `parser.dfy` | `ParserClass` | the `Parser` class: `var tokens` and one method per routine, each with a loop where the source has one |
| `precedence.dfy` | `Precedence` | expression trees, their tokens, and the proof that parsing the tokens gives back the tree |
| `grouping.dfy` | `Grouping` | associativity and nesting of the operators, as instances of that round trip |
| `statement_facts.dfy` | `StatementFacts` | the EO_STMT check, statement-list stopping rules, error positions, crashes and loops that never end |
| `programs.dfy` | `Programs` | statements and blocks as trees, their tokens, and the proof that a well-formed program parses back to its tree |
| `brackets.dfy` | `Brackets` | array literals and indexing: the children the parser builds for every list of entries, and the None return when the closing token is missing |
| `incomplete.dfy` | `Incomplete` | the None return of an expression routine whose operand or `)` is missing |
| `sequences.dfy` | `Sequences` | regrouping of concatenations |

### How the parser is modelled

Each parsing routine is a function from the remaining tokens to a
`Step(out, rest)`. `rest` is what is left after the routine's `pop(0)` calls.
`out` is one of:

- `Parsed(node)`: the routine returned a node.
- `Absent`: the routine returned `None`, the signal the ordered choice relies on.
- `Err(IncompleteStatement | InvalidExpression, row, col)`: one of the two
  syntactic errors was raised.
- `Crash`: `.get_type()` or `.get_text()` was called on a lookahead that is
  `None`, or `pop(0)` on an empty list. Python raises `AttributeError` or
  `IndexError` here.
- `Diverge`: the statement-list loop would spin forever.

`ParserClass.Parser` holds `tokens: seq<Token>` and has one method per
routine, shaped like the Python. Its `while` loops pop tokens and grow the
children, and so do its nested calls. Each routine method ensures
`Step(r, tokens) == F(old(tokens))`, where `F` is the routine's function.
Every property proved about the functions therefore holds for those methods.
The other methods state their result directly:

- `Pop`, `GetToken` and the constructor give the popped token, the lookahead
  and the initial list.
- `TakeEoStmts` ensures `(marks, tokens) == EoStmtRun(old(tokens))`.
- `ParseSecondaryClause` is one turn of the clause loop. It states how the
  loop goes on or stops after that turn.
- The three literal methods return their leaf and pop exactly one token.

Assumptions about code that is not part of this model:

- `str(token)` is the token's text, and `str(None)` is `"None"`
  (parser.py:82 and 454).
- `if node` means `node is not None` (parser.py:95, 236, 400, 410, 434).
- Token kinds are the categories the parser names. `TokenKind.Unlisted`
  stands for every other category, which the parser only ever compares by
  text (keywords, `==`, the comma, ...).
- The node types CLR_STMT, ID_LIST and INDEXING_EXP exist. The parser uses
  them (parser.py:118, 229 and 430), but the `ASTNodeType` enum in
  `main/II_syntactic/node_types.py:5-30` does not declare them. With that
  enum, those three lines would raise `AttributeError`. The model takes the
  three node types as given.
- The statement round trips take keywords (`if`, `end`, `while`, ...) to be
  of a category that starts no expression and that no expression loop
  consumes. The source leaves keyword categories to the lexer.

### Behaviour of the code that the model keeps

- **Statements must end with an EO_STMT.** An expression or guard at the very
  end of the input does not raise IncompleteStatementError: the postfix loop
  calls `get_type()` on a missing token, which is a crash.
  `StatementFacts.GuardAtEndCrashes` and `StatementFacts.NumberAtEndCrashes`
  prove this.
- **Keyword kinds.** If the lexer gives `if`, `clear`, `while`, ... the kind
  IDENTIFIER, the expression statement, which is tried first, parses the
  keyword as a variable. It then raises InvalidExpressionError at the next
  token (`StatementFacts.KeywordLexedAsIdentifier`). So keyword statements
  are reachable only with a kind the expression chain does not take.
- **No equality level.** The docstring lists `eql_exp`, but no routine parses
  `==`/`~=`. In `x == y;` the statement `x` meets `==` where it expects an
  EO_STMT (`StatementFacts.NoEqualityLevel`).
- **`"None"` as a terminator.** The program list stops at the end of the input,
  and also at a token whose text is `None` (`StatementFacts.ProgramStopsAtEndOrNone`).
- **`end` is not checked.** Selection and iteration statements pop one token as
  `end` without looking at its text.
- **A stray token loops forever.** A token that starts no expression and no
  statement (a stray `)`, say) makes every alternative return None without
  consuming. `None` is appended as a child and the program's loop never ends
  (`StatementFacts.StrayTokenDiverges`). This is `NullChild` and `Diverge` in
  the model. A loop iteration that returns None without consuming leaves the
  state exactly as it was, so this is the only way the loop can fail to end.
  No fuel is needed.
- **`switch`.** The `switch` clause parses a guard and no body; it then skips
  the EO_STMT tokens before the first `case`.

Where the code and the grammar in its own docstring disagree (the equality
level; `itr_stmt` ending without `end`; no `switch` or `for` in the
grammar), the model follows the code.

## Model

| member | source | states |
|---|---|---|
| Syntax.GetToken | main/II_syntactic/parser.py:72-74 | the lookahead is None exactly when the index is past the end, and otherwise is the token at that index |
| Syntax.Str | main/II_syntactic/parser.py:82 | `str` of a lookahead is the token's text, and "None" for a missing token |
| Syntax.StripLeft | main/II_syntactic/parser.py:392 | the result is a suffix of the input, every dropped character is the stripped one, and the result does not start with it |
| Syntax.StripRight | main/II_syntactic/parser.py:392 | the result is a prefix of the input, every dropped character is the stripped one, and the result does not end with it |
| Syntax.ClauseKeywords | main/II_syntactic/parser.py:7-19 | for `if` and for `switch`, the secondary keyword has a terminator set and is neither a final keyword nor `switch`; the final keyword is `else`/`otherwise`, and its body ends only at `end` |
| Expressions.Expression | main/II_syntactic/parser.py:234-240 | parse_expression only pops from the front, never raises, and returns a node only after consuming a token |
| Expressions.AssignmentExpression | main/II_syntactic/parser.py:242-252 | the assignment routine only pops from the front, never raises, and a returned node follows consumption |
| Expressions.ColonExpression | main/II_syntactic/parser.py:254-275 | the colon routine only pops from the front, never raises, and a returned node follows consumption |
| Expressions.ColonTail | main/II_syntactic/parser.py:258-275 | the colon loop only pops from the front and never raises; the None return on a missing operand is stated by `Incomplete.ColonOperandMissing` and `Incomplete.ThirdOperandMissing` |
| Expressions.BinaryExpression | main/II_syntactic/parser.py:277-345 | each binary level only pops from the front, never raises, and a returned node follows consumption |
| Expressions.BinaryTail | main/II_syntactic/parser.py:282-289 | each binary loop only pops from the front and never raises |
| Expressions.Operand | main/II_syntactic/parser.py:278 | the operand of a level comes from the next tighter level, with the same guarantees |
| Expressions.PrefixExpression | main/II_syntactic/parser.py:347-359 | the prefix routine only pops from the front, never raises, and a returned node follows consumption |
| Expressions.PostfixExpression | main/II_syntactic/parser.py:361-373 | the postfix routine only pops from the front, never raises, and a returned node follows consumption |
| Expressions.PostfixTail | main/II_syntactic/parser.py:370-373 | the postfix loop only pops from the front and never raises |
| Expressions.PrimaryExpression | main/II_syntactic/parser.py:375-395 | the primary dispatch returns None on an empty list or an unknown category, and otherwise has the same guarantees |
| Expressions.LiteralExpression | main/II_syntactic/parser.py:388-395 | a literal consumes exactly its own token and gives a leaf; a number leaf keeps the token's text |
| Expressions.IdentifierExpression | main/II_syntactic/parser.py:382-386 | an identifier or an indexing expression, consuming before it returns a node |
| Expressions.ParenExpression | main/II_syntactic/parser.py:397-405 | the parenthesised routine only pops from the front, never raises, and returns the inner node after consuming; the None returns are stated by `Incomplete.ParenEmpty` and `Incomplete.ParenUnclosed` |
| Expressions.BracketExpression | main/II_syntactic/parser.py:407-415 | the bracket routine only pops from the front, never raises, and returns a node after consuming; its node and its None return are stated by `Brackets.ArrayLiteral` and `Brackets.ArrayLiteralUnclosed` |
| Expressions.ArrayList | main/II_syntactic/parser.py:417-427 | the array list only pops from the front and never raises; its children are stated by `Brackets.ElementsParse` and `Brackets.ArrayListShape` |
| Expressions.ArrayListTail | main/II_syntactic/parser.py:419-426 | the array-list loop only pops from the front and never raises; the children it adds are stated by `Brackets.ElementsParse` |
| Expressions.EoStmtRun | main/II_syntactic/parser.py:425-426 | exactly the EO_STMT tokens at the front are taken, one EO_STMT node per token with its text, and what is left does not start with an EO_STMT |
| Expressions.ArrayExpression | main/II_syntactic/parser.py:429-440 | the indexing routine only pops from the front, never raises, and returns a node after consuming; its INDEXING_EXP shape is stated by `Brackets.IndexingShape` and `Brackets.Indexing` |
| Expressions.IndexList | main/II_syntactic/parser.py:442-458 | the index list only pops from the front, never raises, and returns a node after consuming; its entries, bare `:` leaves included, are stated by `Brackets.IndicesParse` |
| Expressions.IndexListTail | main/II_syntactic/parser.py:444-457 | the index-list loop only pops from the front, never raises, and returns a node after consuming; the children it adds are stated by `Brackets.IndicesParse` and `Brackets.IndexListShape` |
| Statements.EndStatement | main/II_syntactic/parser.py:107-110 | the EO_STMT check pops at most one token, and any error it raises is at a non-EO_STMT token of the input |
| Statements.StatementList | main/II_syntactic/parser.py:76-90 | the list returns a STMT_LIST only in front of a terminator, returns None only at the end of the input when "None" is no terminator, and positions every error at an input token |
| Statements.StatementListTail | main/II_syntactic/parser.py:82-89 | the list loop has the same guarantees from any accumulated children |
| Statements.Statement | main/II_syntactic/parser.py:92-99 | parse_statement only pops from the front, positions every error at an input token, and returns a node only after consuming |
| Statements.TryAlternatives | main/II_syntactic/parser.py:93-99 | the ordered choice has the same guarantees from any alternative on |
| Statements.Alternative | main/II_syntactic/parser.py:56-62 | each entry of `statement_cases` has the same guarantees |
| Statements.JumpStatement | main/II_syntactic/parser.py:225-226 | the jump routine returns None and consumes nothing |
| Statements.ExpressionStatement | main/II_syntactic/parser.py:101-112 | the expression statement only pops from the front, positions errors at input tokens, and returns a node after consuming |
| Statements.ClearStatement | main/II_syntactic/parser.py:114-126 | the clear statement only pops from the front, positions errors at input tokens, and returns a node after consuming |
| Statements.IdentifierList | main/II_syntactic/parser.py:228-232 | the identifier list only pops from the front and returns an ID_LIST, or crashes at the end of the input |
| Statements.IdentifierListTail | main/II_syntactic/parser.py:230-231 | the identifier loop has the same guarantees from any accumulated names |
| Statements.SelectionStatement | main/II_syntactic/parser.py:128-163 | the selection statement only pops from the front, positions errors at input tokens, and returns a node after consuming |
| Statements.SelectionTail | main/II_syntactic/parser.py:141-147 | the `elseif`/`case` loop only pops from the front and positions its errors at input tokens or at the starter |
| Statements.SelectionEnd | main/II_syntactic/parser.py:149-163 | the final clause, `end` and the EO_STMT check only pop from the front and position errors at input tokens or at the starter |
| Statements.CloseSelection | main/II_syntactic/parser.py:156-161 | popping `end` and checking the EO_STMT only pops from the front and positions errors at input tokens |
| Statements.SelectionClause | main/II_syntactic/parser.py:165-186 | a selection clause only pops from the front and positions errors at input tokens |
| Statements.ClauseBody | main/II_syntactic/parser.py:175-186 | the body part of a clause only pops from the front and positions errors at input tokens |
| Statements.IterationStatement | main/II_syntactic/parser.py:188-206 | the iteration statement only pops from the front, positions errors at input tokens, and returns a node after consuming |
| Statements.IterationClause | main/II_syntactic/parser.py:208-223 | an iteration clause only pops from the front, positions errors at input tokens, and a parsed clause stops in front of `end` |
| ParserClass.Parser.constructor | main/II_syntactic/parser.py:54-55 | the parser starts on the given token list |
| ParserClass.Parser.GetToken | main/II_syntactic/parser.py:72-74 | the lookahead on the current tokens |
| ParserClass.Parser.Pop | main/II_syntactic/parser.py:87 | `pop(0)` returns the first token and leaves the rest |
| ParserClass.Parser.Parse | main/II_syntactic/parser.py:76-90 | parsing a program is the statement list with the default terminators on the initial tokens |
| ParserClass.Parser.ParseStatementList | main/II_syntactic/parser.py:76-90 | the loop's outcome and remaining tokens are those of `StatementList` on the tokens before the call |
| ParserClass.Parser.ParseStatement | main/II_syntactic/parser.py:92-99 | the ordered choice agrees with `Statement` |
| ParserClass.Parser.ParseAlternative | main/II_syntactic/parser.py:56-62 | each alternative agrees with `Alternative` |
| ParserClass.Parser.EndStatementWith | main/II_syntactic/parser.py:107-110 | the EO_STMT check agrees with `EndStatement` |
| ParserClass.Parser.ParseExpressionStatement | main/II_syntactic/parser.py:101-112 | agrees with `ExpressionStatement` |
| ParserClass.Parser.ParseClearStatement | main/II_syntactic/parser.py:114-126 | agrees with `ClearStatement` |
| ParserClass.Parser.ParseIdentifierList | main/II_syntactic/parser.py:228-232 | the identifier loop agrees with `IdentifierList` |
| ParserClass.Parser.ParseSelectionStatement | main/II_syntactic/parser.py:128-163 | agrees with `SelectionStatement` |
| ParserClass.Parser.ParseSelectionTail | main/II_syntactic/parser.py:141-147 | the clause loop agrees with `SelectionTail` |
| ParserClass.Parser.ParseSecondaryClause | main/II_syntactic/parser.py:143-147 | one turn of the clause loop pops the keyword and parses its clause; it consumes at least one token, and says whether the loop stops with that error, stops with IncompleteStatementError at the starter, or goes on with the clause added |
| ParserClass.Parser.ParseSelectionEnd | main/II_syntactic/parser.py:149-163 | agrees with `SelectionEnd` |
| ParserClass.Parser.ParseSelectionClause | main/II_syntactic/parser.py:165-186 | agrees with `SelectionClause` |
| ParserClass.Parser.TakeEoStmts | main/II_syntactic/parser.py:183-184 | the EO_STMT-skipping loop agrees with `EoStmtRun` |
| ParserClass.Parser.ParseIterationStatement | main/II_syntactic/parser.py:188-206 | agrees with `IterationStatement` |
| ParserClass.Parser.ParseIterationClause | main/II_syntactic/parser.py:208-223 | agrees with `IterationClause` |
| ParserClass.Parser.ParseJumpStatement | main/II_syntactic/parser.py:225-226 | returns None and changes nothing |
| ParserClass.Parser.ParseExpression | main/II_syntactic/parser.py:234-240 | agrees with `Expression` |
| ParserClass.Parser.ParseAssignmentExpression | main/II_syntactic/parser.py:242-252 | agrees with `AssignmentExpression` |
| ParserClass.Parser.ParseColonExpression | main/II_syntactic/parser.py:254-275 | the colon loop agrees with `ColonExpression`, so `Precedence.ColonRoundTrip` and the None returns of `Incomplete.ColonUnfinished` hold for it |
| ParserClass.Parser.ParseOperand | main/II_syntactic/parser.py:278 | agrees with `Operand` |
| ParserClass.Parser.ParseBinaryExpression | main/II_syntactic/parser.py:277-345 | each binary loop agrees with `BinaryExpression` |
| ParserClass.Parser.ParsePrefixExpression | main/II_syntactic/parser.py:347-359 | agrees with `PrefixExpression` |
| ParserClass.Parser.ParsePostfixExpression | main/II_syntactic/parser.py:361-373 | the postfix loop agrees with `PostfixExpression` |
| ParserClass.Parser.ParsePrimaryExpression | main/II_syntactic/parser.py:375-380 | the dispatch agrees with `PrimaryExpression` |
| ParserClass.Parser.ParseIdentifierExpression | main/II_syntactic/parser.py:382-386 | agrees with `IdentifierExpression` |
| ParserClass.Parser.ParseNumberLiteral | main/II_syntactic/parser.py:388-389 | pops the literal and returns a NUMBER_LIT_EXP leaf with its text |
| ParserClass.Parser.ParseStringLiteral | main/II_syntactic/parser.py:391-392 | pops the literal and returns a STRING_LIT_EXP leaf with its `"` stripped |
| ParserClass.Parser.ParseVectorLiteral | main/II_syntactic/parser.py:394-395 | pops the literal and returns a VECTOR_LIT_EXP leaf with its `'` stripped |
| ParserClass.Parser.ParseParenExpression | main/II_syntactic/parser.py:397-405 | agrees with `ParenExpression`, so `Incomplete.ParenEmpty` and `Incomplete.ParenUnclosed` hold for it |
| ParserClass.Parser.ParseBracketExpression | main/II_syntactic/parser.py:407-415 | agrees with `BracketExpression`, so `Brackets.ArrayLiteral` and `Brackets.ArrayLiteralUnclosed` hold for it |
| ParserClass.Parser.ParseArrayList | main/II_syntactic/parser.py:417-427 | the nested loops agree with `ArrayList`, so the children of `Brackets.ElementsParse`, EO_STMT nodes included, are what it builds |
| ParserClass.Parser.ParseArrayExpression | main/II_syntactic/parser.py:429-440 | agrees with `ArrayExpression`, so the INDEXING_EXP shape of `Brackets.IndexingShape` holds for it |
| ParserClass.Parser.ParseIndexList | main/II_syntactic/parser.py:442-458 | the index loop agrees with `IndexList`, so the entries and bare-`:` leaves of `Brackets.IndicesParse` are what it builds |
| Precedence.LevelOperatorLevel | main/II_syntactic/parser.py:277-345 | a category is a level's loop operator exactly when the level is that category's binding level |
| Precedence.LoopStops | main/II_syntactic/parser.py:277-373 | a level's loop in front of a looser operator returns its root and consumes nothing |
| Precedence.FirstToken | main/II_syntactic/parser.py:375-380 | an expression at postfix level or tighter opens with an atom or `(` |
| Precedence.ParseUnparse | main/II_syntactic/parser.py:254-405 | at every level, the tokens of a tree that fits the level parse to exactly the tree's node and hand it to the level's loop with the following tokens untouched |
| Precedence.ColonRoundTrip | main/II_syntactic/parser.py:254-275 | parse_colon_expression is a left inverse of rendering: a well-formed tree parses to its node and stops in front of the next token |
| Precedence.NoAssignmentToken | main/II_syntactic/parser.py:243 | no token of a well-formed tree is an assignment operator |
| Precedence.AssignmentGivesUp | main/II_syntactic/parser.py:243-244 | on a tree that is not an assignment, the assignment routine returns None and consumes nothing |
| Precedence.ExpressionRoundTrip | main/II_syntactic/parser.py:234-240 | parse_expression on a well-formed tree returns the tree's node |
| Precedence.AssignmentParses | main/II_syntactic/parser.py:242-252 | `name = e` is an ASS_EXP with the operator's text, the target identifier and the tree's node |
| Precedence.AssignmentRoundTrip | main/II_syntactic/parser.py:234-252 | parse_expression on `name = e` is that ASS_EXP |
| Grouping.LeftAssociative | main/II_syntactic/parser.py:277-345 | `x op1 y op2 z` at one level is `(x op1 y) op2 z` |
| Grouping.TighterOnTheRight | main/II_syntactic/parser.py:277-345 | `x lo y hi z` with `hi` tighter is `x lo (y hi z)` |
| Grouping.TighterOnTheLeft | main/II_syntactic/parser.py:277-345 | `x hi y lo z` with `hi` tighter is `(x hi y) lo z` |
| Grouping.ParenthesesGroup | main/II_syntactic/parser.py:397-405 | parentheses leave no node and group their contents as one operand |
| Grouping.PrefixNestsRight | main/II_syntactic/parser.py:347-359 | two prefix operators nest to the right, as one-child UOP_EXP nodes |
| Grouping.PostfixWraps | main/II_syntactic/parser.py:361-373 | each postfix operator wraps the tree so far in a new one-child UOP_EXP |
| Grouping.PostfixInsidePrefix | main/II_syntactic/parser.py:347-373 | `-x'` is `-(x')`: postfix binds tighter than prefix |
| Grouping.PrefixAfterBinary | main/II_syntactic/parser.py:333-359 | `x * -y` takes the prefix expression as the right operand |
| Grouping.ColonTwoParts | main/II_syntactic/parser.py:272-274 | `x:y` is a two-child CLN_EXP with the colon's text |
| Grouping.ColonThreeParts | main/II_syntactic/parser.py:264-271 | `x:y:z` is one three-child CLN_EXP with the middle operand second and the second colon's text |
| Grouping.ColonChain | main/II_syntactic/parser.py:258-275 | `w:x:y:z` is `(w:x:y):z`: the previous colon node becomes the first child |
| StatementFacts.EndStatementOutcome | main/II_syntactic/parser.py:107-110 | the EO_STMT check records the separator as the last child, and anything else raises InvalidExpressionError at that token |
| StatementFacts.StatementEndsWithSeparator | main/II_syntactic/parser.py:92-206 | every parsed statement, of any kind, ends with an EO_STMT token, and its last child is the EO_STMT node with that token's text |
| StatementFacts.ExpressionStatementEnds | main/II_syntactic/parser.py:101-112 | a parsed expression statement ends with its EO_STMT node |
| StatementFacts.ClearStatementEnds | main/II_syntactic/parser.py:114-126 | a parsed clear statement ends with its EO_STMT node |
| StatementFacts.SelectionStatementEnds | main/II_syntactic/parser.py:128-163 | a parsed selection statement ends with its EO_STMT node |
| StatementFacts.SelectionTailEnds | main/II_syntactic/parser.py:141-163 | so does everything after the first clause |
| StatementFacts.SelectionEndEnds | main/II_syntactic/parser.py:149-163 | so does everything after the secondary clauses |
| StatementFacts.CloseSelectionEnds | main/II_syntactic/parser.py:156-161 | so does popping `end` and the EO_STMT check |
| StatementFacts.IterationStatementEnds | main/II_syntactic/parser.py:188-206 | a parsed iteration statement ends with its EO_STMT node |
| StatementFacts.AlternativeEnds | main/II_syntactic/parser.py:56-62 | each alternative's parsed statement ends with its EO_STMT node |
| StatementFacts.TryAlternativesEnd | main/II_syntactic/parser.py:93-99 | so does the ordered choice from any alternative on |
| StatementFacts.SeparatorsDropped | main/II_syntactic/parser.py:86-88 | EO_STMT tokens at a statement start are dropped and leave no child |
| StatementFacts.ProgramStopsAtEndOrNone | main/II_syntactic/parser.py:76-90 | with the default terminators, a parsed program stops only at the end of the input or at a token whose text is "None" |
| StatementFacts.ProgramConsumesAll | main/II_syntactic/parser.py:76-90 | without a "None" token, a parsed program consumes every token |
| StatementFacts.BlockListNeedsTerminator | main/II_syntactic/parser.py:82-85 | a block's list returns a node only in front of one of its terminators, and None only when the tokens ran out |
| StatementFacts.BinaryGivesUp | main/II_syntactic/parser.py:277-380 | in front of a token that starts no expression, every binary level returns None and consumes nothing |
| StatementFacts.ExpressionGivesUp | main/II_syntactic/parser.py:234-275 | in front of such a token, parse_expression returns None and consumes nothing |
| StatementFacts.FirstAlternativeDecides | main/II_syntactic/parser.py:93-96 | when the expression statement returns a node or raises, that is the statement's outcome |
| StatementFacts.ExpressionThen | main/II_syntactic/parser.py:101-110 | an expression statement is the expression's node followed by the EO_STMT check at the next token |
| StatementFacts.ExpressionStatementRoundTrip | main/II_syntactic/parser.py:101-112 | `e ;` is an EXP_STMT with the expression's node and the EO_STMT node, and the statement stops after the separator |
| StatementFacts.ExpressionThenStrayToken | main/II_syntactic/parser.py:107-109 | an expression followed by a token that is not an EO_STMT raises InvalidExpressionError at that token |
| StatementFacts.NoEqualityLevel | main/II_syntactic/parser.py:277-345 | `x == y ;` raises InvalidExpressionError at `==`: there is no equality level |
| StatementFacts.KeywordLexedAsIdentifier | main/II_syntactic/parser.py:92-109 | a keyword of kind IDENTIFIER followed by an identifier raises InvalidExpressionError at the identifier |
| StatementFacts.PastExpressionAndClear | main/II_syntactic/parser.py:92-126 | a keyword that starts no expression and is not `clear` goes on to the selection alternative |
| StatementFacts.ListTakesFailure | main/II_syntactic/parser.py:89 | a statement that raises or crashes ends the list with the same outcome |
| StatementFacts.ListSpins | main/II_syntactic/parser.py:82-89 | a statement that returns None without consuming makes the list loop forever |
| StatementFacts.NoStatementAt | main/II_syntactic/parser.py:92-99 | no alternative takes a token that starts no expression and no statement |
| StatementFacts.StrayTokenDiverges | main/II_syntactic/parser.py:82-99 | such a token (a stray `)`, say) makes the list loop forever |
| StatementFacts.LastSeparatorRunsOut | main/II_syntactic/parser.py:82-88 | a block list that meets a last EO_STMT and nothing more returns None |
| StatementFacts.IfClauseRunsOut | main/II_syntactic/parser.py:165-179 | an `if` clause whose body runs out returns None |
| StatementFacts.EmptyClauseIsIncomplete | main/II_syntactic/parser.py:136-138 | a first clause that returns None raises IncompleteStatementError at the `if` token |
| StatementFacts.UnterminatedIf | main/II_syntactic/parser.py:128-179 | `if` with a guard and a separator but no `end` raises IncompleteStatementError at the `if` token |
| StatementFacts.NumberAtEndCrashes | main/II_syntactic/parser.py:370 | a number at the very end of the input crashes in the postfix loop |
| StatementFacts.GuardAtEndCrashes | main/II_syntactic/parser.py:165-179 | `if` and a guard with nothing after it crash instead of raising IncompleteStatementError |
| Programs.OpensWithoutSeparator | main/II_syntactic/parser.py:86 | no well-formed expression opens with an EO_STMT, so the list loop hands it to parse_statement |
| Programs.RenderOpensWithHead | main/II_syntactic/parser.py:86-89 | a statement's tokens open with its head token, which is no EO_STMT |
| Programs.ListRoundTrip | main/II_syntactic/parser.py:76-90 | the tokens of well-formed statements followed by a terminator parse to one child per statement, in order |
| Programs.BlockRoundTrip | main/II_syntactic/parser.py:76-90 | a clause body, with or without an EO_STMT before its first statement, parses to its STMT_LIST and stops in front of the terminator |
| Programs.StatementRoundTrip | main/II_syntactic/parser.py:92-223 | every well-formed statement parses back to its node and stops right after its EO_STMT |
| Programs.ProgramRoundTrip | main/II_syntactic/parser.py:76-90 | the tokens of a well-formed program parse to the STMT_LIST of its statements and consume every token |
| Programs.NamesRoundTrip | main/II_syntactic/parser.py:228-232 | a run of identifiers parses to one IDENTIFIER_EXP per name, in order |
| Programs.ExpressionSkipped | main/II_syntactic/parser.py:93-96 | a keyword statement is not taken by the expression statement |
| Programs.ClearRoundTrip | main/II_syntactic/parser.py:114-126 | `clear` and names and EO_STMT parse to CLR_STMT with the ID_LIST and the EO_STMT node |
| Programs.IterationClosing | main/II_syntactic/parser.py:194-204 | after its clause, an iteration statement pops `end` and records the EO_STMT |
| Programs.WhileRoundTrip | main/II_syntactic/parser.py:188-223 | a well-formed `while`, with or without an EO_STMT after the guard, parses to ITR_STMT holding the ITR_CLS with guard and body, then the EO_STMT node |
| Programs.ForRoundTrip | main/II_syntactic/parser.py:188-223 | a well-formed `for`, with or without an EO_STMT after the range, parses to ITR_STMT whose clause holds the ASS_EXP and the body |
| Programs.ClauseRoundTrip | main/II_syntactic/parser.py:165-186 | a guarded clause, with or without an EO_STMT after the guard, parses to SEL_CLS with its guard and body, and stops at the next keyword |
| Programs.FinalRoundTrip | main/II_syntactic/parser.py:149-161 | the optional final clause, `end` and the EO_STMT close the selection node |
| Programs.ClausesRoundTrip | main/II_syntactic/parser.py:141-161 | the secondary clauses one by one, then the final clause, become the selection node's children in order |
| Programs.IfRoundTrip | main/II_syntactic/parser.py:128-186 | a well-formed `if`/`elseif`/`else` parses back to its SEL_STMT, whether or not an EO_STMT follows each guard and the `else` |
| Programs.SeparatorRun | main/II_syntactic/parser.py:182-184 | the EO_STMT tokens between the `switch` subject and the first `case` are skipped |
| Programs.SwitchHead | main/II_syntactic/parser.py:165-186 | the `switch` clause is a SEL_CLS with the subject only; it skips the EO_STMT tokens after the subject, none or more, and stops at the next token |
| Programs.SwitchRoundTrip | main/II_syntactic/parser.py:128-186 | a well-formed `switch`/`case`/`otherwise` parses back to its SEL_STMT, with any number of EO_STMT tokens after the subject and with or without one after each guard and `otherwise` |
| Programs.BlockFollows | main/II_syntactic/parser.py:165-223 | a clause body followed by a token that ends an expression also opens with such a token, so the guard before it stops there |
| Brackets.SeparatorsTaken | main/II_syntactic/parser.py:425-426 | the separator loop takes a run of EO_STMT tokens and gives one EO_STMT node per token, with its text |
| Brackets.ElementsParse | main/II_syntactic/parser.py:419-426 | the array-list loop, run over the entries, adds each entry's node and then one EO_STMT node per separator written after it, in order |
| Brackets.ArrayLiteral | main/II_syntactic/parser.py:407-427 | `[` entries `]` is one ARRAY_LIST_EXP whose children are the entries' nodes with the EO_STMT nodes kept, and the routine stops after `]` |
| Brackets.ArrayLiteralUnclosed | main/II_syntactic/parser.py:407-427 | `[` entries followed by a token that is not `]` and starts no expression returns None in front of that token |
| Brackets.ListGivesUp | main/II_syntactic/parser.py:417-424 | after its entries, the array list returns None in front of a token that is not `]` and starts no expression |
| Brackets.ArrayListShape | main/II_syntactic/parser.py:417-427 | a parsed array list is an ARRAY_LIST_EXP that keeps the children it started with and stops in front of `]` |
| Brackets.BracketShape | main/II_syntactic/parser.py:407-415 | a parsed bracket expression is an ARRAY_LIST_EXP |
| Brackets.IndexTaken | main/II_syntactic/parser.py:445-451 | one index is taken: a bare `:` as a childless CLN_EXP leaf with the colon's text, anything else as its expression's node |
| Brackets.IndicesParse | main/II_syntactic/parser.py:442-458 | comma-separated indices give one INDEX_LIST_EXP with one child per index, in order, and the list stops in front of the first token that is not a comma |
| Brackets.IndexListShape | main/II_syntactic/parser.py:442-458 | a parsed index list is an INDEX_LIST_EXP that keeps the children it started with, has at least one more, and stops in front of a token that is not a comma |
| Brackets.IndexingShape | main/II_syntactic/parser.py:429-440 | a parsed indexing expression is an INDEXING_EXP with exactly two children: the IDENTIFIER_EXP with the name's text, then an INDEX_LIST_EXP |
| Brackets.Indexing | main/II_syntactic/parser.py:429-458 | `name(` indices `)` is INDEXING_EXP [IDENTIFIER_EXP, INDEX_LIST_EXP of the indices' nodes], and the routine stops after `)` |
| Brackets.IndexingUnclosed | main/II_syntactic/parser.py:429-440 | `name(` indices followed by a token that is not `)` returns None in front of that token |
| Brackets.EmptyIndexing | main/II_syntactic/parser.py:429-458 | `name()` returns None in front of the `)`: an index list needs at least one index |
| Incomplete.RightOperandMissing | main/II_syntactic/parser.py:282-289 | a binary loop whose operator has no operand after it returns None in front of the token where the operand should start |
| Incomplete.BinaryUnfinished | main/II_syntactic/parser.py:277-345 | `x op` followed by such a token makes the binary level return None, after consuming `x op` |
| Incomplete.PrefixOperandMissing | main/II_syntactic/parser.py:352-357 | a prefix operator with no operand returns None |
| Incomplete.ColonOperandMissing | main/II_syntactic/parser.py:258-263 | the colon loop returns None when the operand after `:` is missing |
| Incomplete.ColonUnfinished | main/II_syntactic/parser.py:254-263 | `x:` followed by a token that starts no expression makes parse_colon_expression return None |
| Incomplete.ThirdOperandMissing | main/II_syntactic/parser.py:264-270 | `:b:` with no third operand makes the colon loop return None |
| Incomplete.ParenEmpty | main/II_syntactic/parser.py:397-405 | `(` with no expression inside returns None |
| Incomplete.ParenUnclosed | main/II_syntactic/parser.py:397-405 | `(` and a complete expression followed by a token that is not `)` return None in front of that token |

## Left out

- The lexer, the token class and the AST node class: tokens and nodes are
  datatypes. Printing the tree, exceptions' messages and the rest of the
  interpreter (`main/script_execute.py` and the semantic phase) are not part
  of this model.
- Statements.JumpStatement: the jump routine is an empty stub in the
  source, so it is modelled as returning None and consuming nothing.
- Statements.StatementList: termination is not claimed. A loop iteration
  that consumes nothing is the outcome `Diverge` instead of a real infinite
  loop; every other iteration consumes a token.
- `Crash` merges Python's `AttributeError` and `IndexError`; which one is
  raised, and its message, are not modelled.
- Precedence.ParseUnparse: the expression trees cover atoms, parentheses,
  prefix, postfix, binary and colon expressions. `[...]` array literals and
  indexing `a(...)` are stated separately, by `Brackets.ArrayLiteral` and
  `Brackets.Indexing`. They are not tree cases, so an array literal or an
  indexing expression used as an operand (`a(1) + 2`) has no round trip.
- Brackets.ArrayLiteral: the entries are trees of module Precedence, so a
  nested array literal or indexing expression as an entry is not covered.
  Each entry must be followed by a token that ends it (an EO_STMT, the next
  entry's atom, or `]`).
- Brackets.Indexing: the indices are trees of module Precedence or bare `:`.
  The closing `)` must not have the text `,`.
- Programs.ProgramRoundTrip: the program round trip inherits the limits on
  expressions above. It takes keyword tokens to be of a category that starts
  no expression and that no expression loop consumes.
- Programs.StatementRoundTrip: a clause body without an EO_STMT before it
  must open with a token that ends the guard. A body that opens with `(`, an
  operator or `:` is left out, even where the parser would stop the guard
  there anyway (after a `)`, say).
- Programs.WhileRoundTrip: the same limit on a body without an EO_STMT before it.
- Programs.ForRoundTrip: the same limit on a body without an EO_STMT before it.
- Programs.IfRoundTrip: the same limit on a body without an EO_STMT before it.
- Programs.SwitchRoundTrip: the same limit on a body without an EO_STMT before it.
- ColonTail: its own contract is the consumption and no-error guarantee. The
  None returns on a missing operand are lemmas of module Incomplete.
- ParenExpression: its own contract is the consumption guarantee. The None
  returns are `Incomplete.ParenEmpty` and `Incomplete.ParenUnclosed`.
- ArrayList: its own contract is the consumption guarantee. Its children
  are stated by `Brackets.ElementsParse` and `Brackets.ArrayLiteral`.
- ArrayListTail: the same. The children it adds are stated by
  `Brackets.ElementsParse`.
- ArrayExpression: its own contract is the consumption guarantee. The
  INDEXING_EXP shape is `Brackets.IndexingShape` and `Brackets.Indexing`.
- IndexList: its own contract is the consumption guarantee. The entries and
  the bare-`:` leaves are `Brackets.IndicesParse`.
- IndexListTail: the same, stated by `Brackets.IndicesParse`.
- ParseColonExpression: agrees with `ColonExpression`, so the lemmas named above for
  `ColonExpression` hold for it; its own contract does not repeat them.
- ParseParenExpression: agrees with `ParenExpression`, so the lemmas named above for
  `ParenExpression` hold for it; its own contract does not repeat them.
- ParseArrayList: agrees with `ArrayList`, so the lemmas named above for
  `ArrayList` hold for it; its own contract does not repeat them.
- ParseArrayExpression: agrees with `ArrayExpression`, so the lemmas named above for
  `ArrayExpression` hold for it; its own contract does not repeat them.
- ParseIndexList: agrees with `IndexList`, so the lemmas named above for
  `IndexList` hold for it; its own contract does not repeat them.
- Error messages and the exception class hierarchy: an error is its kind and
  its position only.
