/**
 * The statement level of the parser as functions over the remaining tokens:
 * statement lists with terminator sets, ordered-choice statement dispatch,
 * clear, selection (`if`/`switch`) and iteration (`while`/`for`) statements.
 */
module Statements {
  import opened Wrappers
  import opened Syntax
  import opened Expressions

  /** The keywords that start a block statement; IncompleteStatementError points at one of them. */
  predicate IsBlockKeyword(text: string)
  {
    text == "if" || text == "switch" || text == "while" || text == "for"
  }

  /**
   * Where a syntactic error points: IncompleteStatementError at a block keyword
   * of the input, InvalidExpressionError at a token of the input that is not
   * an EO_STMT.
   */
  predicate ErrorPositioned(ts: seq<Token>, o: Outcome)
  {
    o.Err? ==>
      exists k :: 0 <= k < |ts| && ts[k].row == o.row && ts[k].col == o.col &&
        (if o.error == IncompleteStatement then IsBlockKeyword(ts[k].text) else ts[k].kind != EoStmt)
  }

  lemma PositionedInSuffix(rest: seq<Token>, ts: seq<Token>, o: Outcome)
    requires IsSuffix(rest, ts) && ErrorPositioned(rest, o)
    ensures ErrorPositioned(ts, o)
  {
    if o.Err? {
      var k :| 0 <= k < |rest| && rest[k].row == o.row && rest[k].col == o.col &&
        (if o.error == IncompleteStatement then IsBlockKeyword(rest[k].text) else rest[k].kind != EoStmt);
      assert ts[|ts| - |rest| + k] == rest[k];
    }
  }

  lemma PositionedBehindHead(start: Token, rest: seq<Token>, ts: seq<Token>, o: Outcome)
    requires IsSuffix(rest, ts) && ErrorPositioned([start] + rest, o)
    ensures ErrorPositioned([start] + ts, o)
  {
    if o.Err? {
      var k :| 0 <= k < |[start] + rest| && ([start] + rest)[k].row == o.row && ([start] + rest)[k].col == o.col &&
        (if o.error == IncompleteStatement then IsBlockKeyword(([start] + rest)[k].text) else ([start] + rest)[k].kind != EoStmt);
      if k > 0 {
        assert ([start] + ts)[|ts| - |rest| + k] == ([start] + rest)[k];
      } else {
        assert ([start] + ts)[0] == start;
      }
    }
  }

  /** An IncompleteStatementError raised at a block keyword that opens the tokens. */
  lemma KeywordPositioned(ts: seq<Token>)
    requires |ts| > 0 && IsBlockKeyword(ts[0].text)
    ensures ErrorPositioned(ts, Err(IncompleteStatement, ts[0].row, ts[0].col))
  {
    assert ts[0].row == ts[0].row;
  }

  lemma BehindHead(start: Token, ts: seq<Token>)
    ensures IsSuffix(ts, [start] + ts)
    ensures |ts| > 0 ==> IsSuffix(ts[1..], [start] + ts)
  {
    assert ([start] + ts)[1..] == ts;
  }

  lemma StartPositioned(start: Token, ts: seq<Token>)
    requires start.text in SelClausesMap
    ensures ErrorPositioned([start] + ts, Err(IncompleteStatement, start.row, start.col))
  {
    assert ([start] + ts)[0] == start;
  }

  /** What every statement routine guarantees about consumption and errors. */
  predicate StmtStep(ts: seq<Token>, s: Step)
  {
    && IsSuffix(s.rest, ts)
    && ErrorPositioned(ts, s.out)
    && (s.out.Parsed? ==> |s.rest| < |ts| && s.out.node.Node?)
  }

  /** The same, for routines that may return a node without consuming. */
  predicate ListStep(ts: seq<Token>, s: Step)
  {
    && IsSuffix(s.rest, ts)
    && ErrorPositioned(ts, s.out)
    && (s.out.Parsed? ==> s.out.node.Node?)
  }

  /** An expression routine's step is a statement step: it never raises a syntactic error. */
  lemma ExprStepIsStmtStep(ts: seq<Token>, s: Step)
    requires ExprStep(ts, s)
    ensures StmtStep(ts, s)
  {
  }

  /**
   * The EO_STMT check shared by expression, clear, selection and iteration
   * statements: an EO_STMT token becomes the node's last child, any other
   * token raises InvalidExpressionError at its position.
   */
  function EndStatement(node: Node, ts: seq<Token>): (s: Step)
    requires node.Node?
    ensures StmtStep(ts, s)
  {
    if |ts| == 0 then Step(Crash, ts)
    else if ts[0].kind != EoStmt then
      Step(Err(InvalidExpression, ts[0].row, ts[0].col), ts)
    else
      Step(Parsed(node.(children := node.children + [Leaf(EoStmtMark, ts[0].text)])), ts[1..])
  }

  /**
   * parse_statement_list: statements up to a token whose text is one of the
   * terminators. The Python `while` loop never ends when an iteration returns
   * None without consuming anything (the state is then unchanged); that is
   * `Diverge` here.
   */
  function StatementList(ts: seq<Token>, terminators: seq<string>): (s: Step)
    decreases |ts|, 8, 0
    ensures ListStep(ts, s)
    ensures s.out.Parsed? ==> Str(GetToken(s.rest, 0)) in terminators && s.out.node.kind == StmtList
    ensures s.out.Absent? ==> s.rest == [] && "None" !in terminators
  {
    StatementListTail([], terminators, ts)
  }

  function StatementListTail(children: seq<Node>, terminators: seq<string>, ts: seq<Token>): (s: Step)
    decreases |ts|, 7, 0
    ensures ListStep(ts, s)
    ensures s.out.Parsed? ==> Str(GetToken(s.rest, 0)) in terminators && s.out.node.kind == StmtList
    ensures s.out.Absent? ==> s.rest == [] && "None" !in terminators
  {
    if Str(GetToken(ts, 0)) in terminators then Step(Parsed(Node(StmtList, None, children)), ts)
    else if |ts| == 0 then Step(Absent, ts)
    else if ts[0].kind == EoStmt then
      var s := StatementListTail(children, terminators, ts[1..]);
      SuffixTransitive(s.rest, ts[1..], ts);
      PositionedInSuffix(ts[1..], ts, s.out);
      s
    else
      var st := Statement(ts);
      if st.out.Raised() then st
      else if st.out.Absent? && st.rest == ts then Step(Diverge, ts)
      else
        var child := if st.out.Parsed? then st.out.node else NullChild;
        var s := StatementListTail(children + [child], terminators, st.rest);
        SuffixTransitive(s.rest, st.rest, ts);
        PositionedInSuffix(st.rest, ts, s.out);
        s
  }

  /**
   * parse_statement: the alternatives of `statement_cases` in their fixed
   * order (expression, clear, selection, iteration, jump); each starts where
   * the previous one left the tokens, and the first that returns a node wins.
   */
  function Statement(ts: seq<Token>): (s: Step)
    decreases |ts|, 6, 0
    ensures StmtStep(ts, s)
  {
    TryAlternatives(0, ts)
  }

  /** The `for` loop of parse_statement, from alternative `i` on. */
  function TryAlternatives(i: nat, ts: seq<Token>): (s: Step)
    requires i <= 4
    decreases |ts|, 5, 4 - i
    ensures StmtStep(ts, s)
  {
    var s := Alternative(i, ts);
    if !s.out.Absent? || i == 4 then s
    else
      var s' := TryAlternatives(i + 1, s.rest);
      SuffixTransitive(s'.rest, s.rest, ts);
      PositionedInSuffix(s.rest, ts, s'.out);
      s'
  }

  /** The `i`-th entry of `statement_cases`. */
  function Alternative(i: nat, ts: seq<Token>): (s: Step)
    requires i <= 4
    decreases |ts|, 4, 0
    ensures StmtStep(ts, s)
  {
    match i
    case 0 => ExpressionStatement(ts)
    case 1 => ClearStatement(ts)
    case 2 => SelectionStatement(ts)
    case 3 => IterationStatement(ts)
    case 4 => JumpStatement(ts)
  }

  /** parse_jump_statement is an empty stub: it always returns None. */
  function JumpStatement(ts: seq<Token>): (s: Step)
    ensures s.out.Absent? && s.rest == ts
  {
    Step(Absent, ts)
  }

  /** parse_expression_statement: an expression, then the EO_STMT check. */
  function ExpressionStatement(ts: seq<Token>): (s: Step)
    ensures StmtStep(ts, s)
  {
    var e := Expression(ts);
    if !e.out.Parsed? then e
    else
      var s := EndStatement(Node(ExpStmt, None, [e.out.node]), e.rest);
      SuffixTransitive(s.rest, e.rest, ts);
      PositionedInSuffix(e.rest, ts, s.out);
      s
  }

  /** parse_clear_statement: `clear`, an identifier list, then the EO_STMT check. */
  function ClearStatement(ts: seq<Token>): (s: Step)
    ensures StmtStep(ts, s)
  {
    if |ts| == 0 then Step(Crash, ts)
    else if ts[0].text != "clear" then Step(Absent, ts)
    else
      var ids := IdentifierList(ts[1..]);
      SuffixTransitive(ids.rest, ts[1..], ts);
      if !ids.out.Parsed? then ids
      else
        var s := EndStatement(Node(ClrStmt, None, [ids.out.node]), ids.rest);
        SuffixTransitive(s.rest, ids.rest, ts);
        PositionedInSuffix(ids.rest, ts, s.out);
        s
  }

  /** parse_identifier_list: the identifiers at the front, as IDENTIFIER_EXP nodes. */
  function IdentifierList(ts: seq<Token>): (s: Step)
    ensures IsSuffix(s.rest, ts) && (s.out.Parsed? || s.out.Crash?)
    ensures s.out.Parsed? ==> s.out.node.Node? && s.out.node.kind == IdList
  {
    IdentifierListTail([], ts)
  }

  function IdentifierListTail(names: seq<Node>, ts: seq<Token>): (s: Step)
    decreases |ts|
    ensures IsSuffix(s.rest, ts) && (s.out.Parsed? || s.out.Crash?)
    ensures s.out.Parsed? ==> s.out.node.Node? && s.out.node.kind == IdList
  {
    if |ts| == 0 then Step(Crash, ts)
    else if ts[0].kind == Identifier then
      var s := IdentifierListTail(names + [Leaf(IdentifierExp, ts[0].text)], ts[1..]);
      SuffixTransitive(s.rest, ts[1..], ts);
      s
    else Step(Parsed(Node(IdList, None, names)), ts)
  }

  /**
   * parse_selection_statement: the first clause, then the secondary clauses
   * (`elseif`/`case`), then at most one final clause (`else`/`otherwise`),
   * then one token taken as `end` without looking at it, then the EO_STMT
   * check. A clause that returns None raises IncompleteStatementError at the
   * starting keyword.
   */
  function SelectionStatement(ts: seq<Token>): (s: Step)
    decreases |ts|, 3, 0
    ensures StmtStep(ts, s)
  {
    if |ts| == 0 then Step(Crash, ts)
    else if ts[0].text != "if" && ts[0].text != "switch" then Step(Absent, ts)
    else
      var first := SelectionClause(ts[0].text, ts[1..]);
      SuffixTransitive(first.rest, ts[1..], ts);
      PositionedInSuffix(ts[1..], ts, first.out);
      if first.out.Raised() then first
      else if first.out.Absent? then
        KeywordPositioned(ts);
        Step(Err(IncompleteStatement, ts[0].row, ts[0].col), first.rest)
      else
        var s := SelectionTail(ts[0], [first.out.node], first.rest);
        SuffixTransitive(s.rest, first.rest, ts);
        PositionedBehindHead(ts[0], first.rest, ts[1..], s.out);
        assert [ts[0]] + ts[1..] == ts;
        s
  }

  /** The `elseif`/`case` loop of parse_selection_statement. */
  function SelectionTail(start: Token, clauses: seq<Node>, ts: seq<Token>): (s: Step)
    requires start.text in SelClausesMap
    decreases |ts|, 2, 0
    ensures IsSuffix(s.rest, ts) && ErrorPositioned([start] + ts, s.out)
    ensures s.out.Parsed? ==> s.out.node.Node?
  {
    if |ts| == 0 then Step(Crash, ts)
    else if ts[0].text == SelClausesMap[start.text].0 then
      var c := SelectionClause(ts[0].text, ts[1..]);
      SuffixTransitive(c.rest, ts[1..], ts);
      BehindHead(start, ts);
      PositionedInSuffix(ts[1..], [start] + ts, c.out);
      if c.out.Raised() then c
      else if c.out.Absent? then
        StartPositioned(start, ts);
        Step(Err(IncompleteStatement, start.row, start.col), c.rest)
      else
        var s := SelectionTail(start, clauses + [c.out.node], c.rest);
        SuffixTransitive(s.rest, c.rest, ts);
        PositionedBehindHead(start, c.rest, ts, s.out);
        s
    else SelectionEnd(start, clauses, ts)
  }

  /** One turn of the clause loop, once the clause `c` after the keyword is known. */
  lemma SelectionTailTurn(start: Token, clauses: seq<Node>, ts: seq<Token>, c: Step)
    requires start.text in SelClausesMap && |ts| > 0 && ts[0].text == SelClausesMap[start.text].0
    requires SelectionClause(ts[0].text, ts[1..]) == c
    ensures c.out.Raised() ==> SelectionTail(start, clauses, ts) == c
    ensures c.out.Absent? ==> SelectionTail(start, clauses, ts) == Step(Err(IncompleteStatement, start.row, start.col), c.rest)
    ensures c.out.Parsed? ==> SelectionTail(start, clauses, ts) == SelectionTail(start, clauses + [c.out.node], c.rest)
  {
  }

  /** Any other token ends the secondary clauses. */
  lemma TailToEnd(start: Token, clauses: seq<Node>, ts: seq<Token>)
    requires start.text in SelClausesMap
    requires |ts| > 0 && ts[0].text != SelClausesMap[start.text].0
    ensures SelectionTail(start, clauses, ts) == SelectionEnd(start, clauses, ts)
  {
  }

  /** The optional `else`/`otherwise` clause, then `end` and the EO_STMT check. */
  function SelectionEnd(start: Token, clauses: seq<Node>, ts: seq<Token>): (s: Step)
    requires start.text in SelClausesMap && |ts| > 0
    decreases |ts|, 1, 0
    ensures IsSuffix(s.rest, ts) && ErrorPositioned([start] + ts, s.out)
    ensures s.out.Parsed? ==> s.out.node.Node?
  {
    BehindHead(start, ts);
    if ts[0].text == SelClausesMap[start.text].1 then
      var c := SelectionClause(ts[0].text, ts[1..]);
      SuffixTransitive(c.rest, ts[1..], ts);
      PositionedInSuffix(ts[1..], [start] + ts, c.out);
      if c.out.Raised() then c
      else if c.out.Absent? then
        StartPositioned(start, ts);
        Step(Err(IncompleteStatement, start.row, start.col), c.rest)
      else
        var s := CloseSelection(start, clauses + [c.out.node], c.rest);
        SuffixTransitive(s.rest, c.rest, ts);
        SuffixTransitive(c.rest, ts, [start] + ts);
        PositionedInSuffix(c.rest, [start] + ts, s.out);
        s
    else
      var s := CloseSelection(start, clauses, ts);
      PositionedInSuffix(ts, [start] + ts, s.out);
      s
  }

  /** Pops the token taken as `end` (any text) and checks for EO_STMT. */
  function CloseSelection(start: Token, clauses: seq<Node>, ts: seq<Token>): (s: Step)
    ensures StmtStep(ts, s)
  {
    if |ts| == 0 then Step(Crash, ts)
    else
      var s := EndStatement(Node(SelStmt, Some(start.text), clauses), ts[1..]);
      SuffixTransitive(s.rest, ts[1..], ts);
      PositionedInSuffix(ts[1..], ts, s.out);
      s
  }

  /**
   * parse_selection_clause: a guard unless the clause is `else`/`otherwise`;
   * a body list ended by the clause's terminators unless it is `switch`, which
   * instead skips the EO_STMT tokens before the first `case`.
   */
  function SelectionClause(clause: string, ts: seq<Token>): (s: Step)
    requires IsClauseKeyword(clause)
    decreases |ts|, 10, 0
    ensures ListStep(ts, s)
  {
    if clause == "else" || clause == "otherwise" then ClauseBody(clause, [], ts)
    else
      var guard := ColonExpression(ts);
      if !guard.out.Parsed? then guard
      else
        var s := ClauseBody(clause, [guard.out.node], guard.rest);
        SuffixTransitive(s.rest, guard.rest, ts);
        PositionedInSuffix(guard.rest, ts, s.out);
        s
  }

  function ClauseBody(clause: string, guard: seq<Node>, ts: seq<Token>): (s: Step)
    requires IsClauseKeyword(clause)
    decreases |ts|, 9, 0
    ensures ListStep(ts, s)
  {
    if clause != "switch" then
      var body := StatementList(ts, SelTerminatorMap[clause]);
      if !body.out.Parsed? then body
      else Step(Parsed(Node(SelCls, Some(clause), guard + [body.out.node])), body.rest)
    else
      var (_, rest) := EoStmtRun(ts);
      if |rest| == 0 then Step(Crash, rest)
      else Step(Parsed(Node(SelCls, Some(clause), guard)), rest)
  }

  /**
   * parse_iteration_statement: the clause, then one token taken as `end`,
   * then the EO_STMT check. A clause that returns None raises
   * IncompleteStatementError at the `while`/`for` token.
   */
  function IterationStatement(ts: seq<Token>): (s: Step)
    decreases |ts|, 3, 0
    ensures StmtStep(ts, s)
  {
    if |ts| == 0 then Step(Crash, ts)
    else if ts[0].text != "while" && ts[0].text != "for" then Step(Absent, ts)
    else
      var c := IterationClause(ts[0].text, ts[1..]);
      SuffixTransitive(c.rest, ts[1..], ts);
      PositionedInSuffix(ts[1..], ts, c.out);
      if c.out.Raised() then c
      else if c.out.Absent? then
        KeywordPositioned(ts);
        Step(Err(IncompleteStatement, ts[0].row, ts[0].col), c.rest)
      else if |c.rest| == 0 then Step(Crash, c.rest)
      else
        var s := EndStatement(Node(ItrStmt, Some(ts[0].text), [c.out.node]), c.rest[1..]);
        PopSuffix(c.rest, ts);
        SuffixTransitive(s.rest, c.rest[1..], ts);
        PositionedInSuffix(c.rest[1..], ts, s.out);
        s
  }

  /**
   * parse_iteration_clause: the guard (a colon expression for `while`, an
   * assignment for anything else), then a body list ended by `end`.
   */
  function IterationClause(clause: string, ts: seq<Token>): (s: Step)
    decreases |ts|, 10, 0
    ensures ListStep(ts, s)
    ensures s.out.Parsed? ==> |s.rest| > 0 && s.rest[0].text == "end"
  {
    var guard := if clause == "while" then ColonExpression(ts) else AssignmentExpression(ts);
    if !guard.out.Parsed? then guard
    else
      var body := StatementList(guard.rest, ["end"]);
      SuffixTransitive(body.rest, guard.rest, ts);
      PositionedInSuffix(guard.rest, ts, body.out);
      if !body.out.Parsed? then body
      else Step(Parsed(Node(ItrCls, Some(clause), [guard.out.node, body.out.node])), body.rest)
  }
}
