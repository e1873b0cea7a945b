/**
 * The parser as the source has it: an object holding the remaining tokens,
 * whose routines consume them with `pop(0)` and build nodes in loops. Every
 * method is proved to do exactly what the specification function of the same
 * routine computes: `Step(r, tokens) == Spec(old(tokens))`, that is, the same
 * outcome and the same tokens left.
 */
module ParserClass {
  import opened Wrappers
  import opened Syntax
  import opened Sequences
  import opened Expressions
  import opened Statements

  class Parser {
    /** The remaining tokens; the only mutation is removal from the front. */
    var tokens: seq<Token>

    constructor (tokenList: seq<Token>)
      ensures tokens == tokenList
    {
      tokens := tokenList;
    }

    /** get_token(index): None past the end instead of failing. */
    function GetToken(index: nat): (t: Option<Token>)
      reads this
      ensures t.None? <==> |tokens| <= index
      ensures t.Some? ==> t.value == tokens[index]
    {
      Syntax.GetToken(tokens, index)
    }

    /** `self.tokens.pop(0)`. */
    method Pop() returns (t: Token)
      requires |tokens| > 0
      modifies this
      ensures t == old(tokens)[0] && tokens == old(tokens)[1..]
    {
      t := tokens[0];
      tokens := tokens[1..];
    }

    /** The whole program: a statement list with the default terminators. */
    method Parse() returns (r: Outcome)
      modifies this
      ensures Step(r, tokens) == StatementList(old(tokens), DefaultTerminators)
    {
      r := ParseStatementList(DefaultTerminators);
    }

    // ---------------------------------------------------------------- statements

    method ParseStatementList(terminators: seq<string>) returns (r: Outcome)
      modifies this
      decreases |tokens|, 8, 0
      ensures Step(r, tokens) == StatementList(old(tokens), terminators)
    {
      var children: seq<Node> := [];
      while Str(GetToken(0)) !in terminators
        invariant IsSuffix(tokens, old(tokens))
        invariant StatementListTail(children, terminators, tokens) == StatementList(old(tokens), terminators)
        decreases |tokens|
      {
        if GetToken(0).None? {
          return Absent;
        }
        if tokens[0].kind == EoStmt {
          var _ := Pop();
          continue;
        }
        var before := tokens;
        var node := ParseStatement();
        SuffixTransitive(tokens, before, old(tokens));
        if node.Raised() {
          return node;
        }
        if node.Absent? && tokens == before {
          // the state is what it was: the Python loop repeats this iteration forever
          return Diverge;
        }
        children := children + [if node.Parsed? then node.node else NullChild];
      }
      r := Parsed(Node(StmtList, None, children));
    }

    method ParseStatement() returns (r: Outcome)
      modifies this
      decreases |tokens|, 6, 0
      ensures Step(r, tokens) == Statement(old(tokens))
    {
      var i := 0;
      while i < 5
        invariant 0 <= i <= 5 && IsSuffix(tokens, old(tokens))
        invariant i <= 4 ==> TryAlternatives(i, tokens) == Statement(old(tokens))
        invariant i == 5 ==> Step(Absent, tokens) == Statement(old(tokens))
      {
        ghost var before := tokens;
        r := ParseAlternative(i);
        SuffixTransitive(tokens, before, old(tokens));
        if !r.Absent? {
          return;
        }
        i := i + 1;
      }
      r := Absent;
    }

    /** The `i`-th entry of `statement_cases`. */
    method ParseAlternative(i: nat) returns (r: Outcome)
      requires i <= 4
      modifies this
      decreases |tokens|, 4, 0
      ensures Step(r, tokens) == Alternative(i, old(tokens))
    {
      match i
      case 0 => r := ParseExpressionStatement();
      case 1 => r := ParseClearStatement();
      case 2 => r := ParseSelectionStatement();
      case 3 => r := ParseIterationStatement();
      case 4 => r := ParseJumpStatement();
    }

    /** The EO_STMT check that ends expression, clear, selection and iteration statements. */
    method EndStatementWith(node: Node) returns (r: Outcome)
      requires node.Node?
      modifies this
      ensures Step(r, tokens) == EndStatement(node, old(tokens))
    {
      var current := GetToken(0);
      if current.None? {
        return Crash;
      }
      if current.value.kind != EoStmt {
        return Err(InvalidExpression, current.value.row, current.value.col);
      }
      var eoStmt := Pop();
      r := Parsed(node.(children := node.children + [Leaf(EoStmtMark, eoStmt.text)]));
    }

    method ParseExpressionStatement() returns (r: Outcome)
      modifies this
      ensures Step(r, tokens) == ExpressionStatement(old(tokens))
    {
      var expression := ParseExpression();
      if !expression.Parsed? {
        return expression;
      }
      r := EndStatementWith(Node(ExpStmt, None, [expression.node]));
    }

    method ParseClearStatement() returns (r: Outcome)
      modifies this
      ensures Step(r, tokens) == ClearStatement(old(tokens))
    {
      var current := GetToken(0);
      if current.None? {
        return Crash;
      }
      if current.value.text != "clear" {
        return Absent;
      }
      var _ := Pop();
      var ids := ParseIdentifierList();
      if !ids.Parsed? {
        return ids;
      }
      r := EndStatementWith(Node(ClrStmt, None, [ids.node]));
    }

    method ParseIdentifierList() returns (r: Outcome)
      modifies this
      ensures Step(r, tokens) == IdentifierList(old(tokens))
    {
      var names: seq<Node> := [];
      while true
        invariant IdentifierListTail(names, tokens) == IdentifierList(old(tokens))
        decreases |tokens|
      {
        var current := GetToken(0);
        if current.None? {
          return Crash;
        }
        if current.value.kind != Identifier {
          break;
        }
        var name := Pop();
        names := names + [Leaf(IdentifierExp, name.text)];
      }
      r := Parsed(Node(IdList, None, names));
    }

    method ParseSelectionStatement() returns (r: Outcome)
      modifies this
      decreases |tokens|, 3, 0
      ensures Step(r, tokens) == SelectionStatement(old(tokens))
    {
      var current := GetToken(0);
      if current.None? {
        return Crash;
      }
      if current.value.text != "if" && current.value.text != "switch" {
        return Absent;
      }
      var start := Pop();
      var clause := ParseSelectionClause(start.text);
      if clause.Raised() {
        return clause;
      }
      if clause.Absent? {
        return Err(IncompleteStatement, start.row, start.col);
      }
      r := ParseSelectionTail(start, [clause.node]);
    }

    /** The `elseif`/`case` loop of parse_selection_statement. */
    method ParseSelectionTail(start: Token, clauses: seq<Node>) returns (r: Outcome)
      requires start.text in SelClausesMap
      modifies this
      decreases |tokens|, 2, 0
      ensures Step(r, tokens) == SelectionTail(start, clauses, old(tokens))
    {
      var collected := clauses;
      while true
        invariant SelectionTail(start, collected, tokens) == SelectionTail(start, clauses, old(tokens))
        decreases |tokens|
      {
        var current := GetToken(0);
        if current.None? {
          return Crash;
        }
        if current.value.text != SelClausesMap[start.text].0 {
          TailToEnd(start, collected, tokens);
          break;
        }
        var clause := ParseSecondaryClause(start, collected);
        if clause.Raised() {
          return clause;
        }
        if clause.Absent? {
          return Err(IncompleteStatement, start.row, start.col);
        }
        collected := collected + [clause.node];
      }
      r := ParseSelectionEnd(start, collected);
    }

    /** One turn of the `elseif`/`case` loop: pop the keyword and parse its clause. */
    method ParseSecondaryClause(start: Token, collected: seq<Node>) returns (clause: Outcome)
      requires start.text in SelClausesMap && |tokens| > 0 && tokens[0].text == SelClausesMap[start.text].0
      modifies this
      decreases |tokens|, 1, 1
      ensures |tokens| < |old(tokens)|
      ensures clause.Raised() ==> SelectionTail(start, collected, old(tokens)) == Step(clause, tokens)
      ensures clause.Absent? ==>
        SelectionTail(start, collected, old(tokens)) == Step(Err(IncompleteStatement, start.row, start.col), tokens)
      ensures clause.Parsed? ==>
        SelectionTail(start, collected, old(tokens)) == SelectionTail(start, collected + [clause.node], tokens)
    {
      ghost var before := tokens;
      var keyword := Pop();
      clause := ParseSelectionClause(keyword.text);
      SelectionTailTurn(start, collected, before, Step(clause, tokens));
    }

    /** The optional `else`/`otherwise` clause, then `end` and the EO_STMT check. */
    method ParseSelectionEnd(start: Token, clauses: seq<Node>) returns (r: Outcome)
      requires start.text in SelClausesMap && |tokens| > 0
      modifies this
      decreases |tokens|, 1, 0
      ensures Step(r, tokens) == SelectionEnd(start, clauses, old(tokens))
    {
      var collected := clauses;
      if tokens[0].text == SelClausesMap[start.text].1 {
        var keyword := Pop();
        var clause := ParseSelectionClause(keyword.text);
        if clause.Raised() {
          return clause;
        }
        if clause.Absent? {
          return Err(IncompleteStatement, start.row, start.col);
        }
        collected := collected + [clause.node];
      }
      if |tokens| == 0 {
        // pop(0) of the `end` on an empty list
        return Crash;
      }
      var _ := Pop();  // taken as `end` whatever its text
      r := EndStatementWith(Node(SelStmt, Some(start.text), collected));
    }

    method ParseSelectionClause(clause: string) returns (r: Outcome)
      requires IsClauseKeyword(clause)
      modifies this
      decreases |tokens|, 10, 0
      ensures Step(r, tokens) == SelectionClause(clause, old(tokens))
    {
      var guard: seq<Node> := [];
      if clause != "else" && clause != "otherwise" {
        var expression := ParseColonExpression();
        if !expression.Parsed? {
          return expression;
        }
        guard := [expression.node];
      }
      if clause != "switch" {
        var statementList := ParseStatementList(SelTerminatorMap[clause]);
        if !statementList.Parsed? {
          return statementList;
        }
        r := Parsed(Node(SelCls, Some(clause), guard + [statementList.node]));
      } else {
        // the EO_STMT tokens between `switch` and the first `case` are dropped
        var _ := TakeEoStmts();
        if |tokens| == 0 {
          return Crash;
        }
        r := Parsed(Node(SelCls, Some(clause), guard));
      }
    }

    /**
     * The `while self.get_token(0).get_type() == EO_STMT` loops: pops the
     * EO_STMT tokens at the front, one node per token. The caller crashes
     * when nothing is left, as the loop condition does.
     */
    method TakeEoStmts() returns (marks: seq<Node>)
      modifies this
      ensures (marks, tokens) == EoStmtRun(old(tokens))
    {
      marks := [];
      assert [] + EoStmtRun(old(tokens)).0 == EoStmtRun(old(tokens)).0;
      while |tokens| > 0 && tokens[0].kind == EoStmt
        invariant EoStmtRun(old(tokens)) == (marks + EoStmtRun(tokens).0, EoStmtRun(tokens).1)
        decreases |tokens|
      {
        ghost var before := tokens;
        var eoStmt := Pop();
        var mark := Leaf(EoStmtMark, eoStmt.text);
        EoStmtRunPop(before);
        Assoc(marks, [mark], EoStmtRun(tokens).0);
        marks := marks + [mark];
      }
      assert marks + [] == marks;
    }

    method ParseIterationStatement() returns (r: Outcome)
      modifies this
      decreases |tokens|, 3, 0
      ensures Step(r, tokens) == IterationStatement(old(tokens))
    {
      var current := GetToken(0);
      if current.None? {
        return Crash;
      }
      if current.value.text != "while" && current.value.text != "for" {
        return Absent;
      }
      var start := Pop();
      var clause := ParseIterationClause(start.text);
      if clause.Raised() {
        return clause;
      }
      if clause.Absent? {
        return Err(IncompleteStatement, start.row, start.col);
      }
      if |tokens| == 0 {
        return Crash;
      }
      var _ := Pop();  // taken as `end` whatever its text
      r := EndStatementWith(Node(ItrStmt, Some(start.text), [clause.node]));
    }

    method ParseIterationClause(clause: string) returns (r: Outcome)
      modifies this
      decreases |tokens|, 10, 0
      ensures Step(r, tokens) == IterationClause(clause, old(tokens))
    {
      var expression;
      if clause == "while" {
        expression := ParseColonExpression();
      } else {
        expression := ParseAssignmentExpression();
      }
      if !expression.Parsed? {
        return expression;
      }
      var statementList := ParseStatementList(["end"]);
      if !statementList.Parsed? {
        return statementList;
      }
      r := Parsed(Node(ItrCls, Some(clause), [expression.node, statementList.node]));
    }

    /** parse_jump_statement is an empty stub. */
    method ParseJumpStatement() returns (r: Outcome)
      modifies this
      ensures Step(r, tokens) == JumpStatement(old(tokens))
    {
      r := Absent;
    }

    // --------------------------------------------------------------- expressions

    method ParseExpression() returns (r: Outcome)
      modifies this
      ensures Step(r, tokens) == Expression(old(tokens))
    {
      r := ParseAssignmentExpression();
      if r.Parsed? || r.Crash? {
        return;
      }
      r := ParseColonExpression();
    }

    method ParseAssignmentExpression() returns (r: Outcome)
      modifies this
      ensures Step(r, tokens) == AssignmentExpression(old(tokens))
    {
      var current := GetToken(0);
      if current.None? {
        return Crash;
      }
      if current.value.kind != Identifier {
        return Absent;
      }
      var next := GetToken(1);
      if next.None? {
        return Crash;
      }
      if next.value.kind != Ass {
        return Absent;
      }
      var name := Pop();
      var op := Pop();
      var expression := ParseColonExpression();
      if !expression.Parsed? {
        return expression;
      }
      r := Parsed(Node(AssExp, Some(op.text), [Leaf(IdentifierExp, name.text), expression.node]));
    }

    method ParseColonExpression() returns (r: Outcome)
      modifies this
      decreases |tokens|, 24
      ensures Step(r, tokens) == ColonExpression(old(tokens))
    {
      r := ParseBinaryExpression(1);
      if !r.Parsed? {
        return;
      }
      while true
        invariant r.Parsed? && r.node.Node?
        invariant ColonTail(r.node, tokens) == ColonExpression(old(tokens))
        decreases |tokens|
      {
        var current := GetToken(0);
        if current.None? {
          return Crash;
        }
        if current.value.kind != Cln {
          return;
        }
        var colon := Pop();
        var middle := ParseBinaryExpression(1);
        if !middle.Parsed? {
          return middle;
        }
        var next := GetToken(0);
        if next.None? {
          return Crash;
        }
        if next.value.kind == Cln {
          colon := Pop();
          var last := ParseBinaryExpression(1);
          if !last.Parsed? {
            return last;
          }
          r := Parsed(Node(ClnExp, Some(colon.text), [r.node, middle.node, last.node]));
        } else {
          r := Parsed(Node(ClnExp, Some(colon.text), [r.node, middle.node]));
        }
      }
    }

    /** The routine of the next tighter level. */
    method ParseOperand(lv: BinaryLevel) returns (r: Outcome)
      modifies this
      decreases |tokens|, 3 * (6 - lv) + 3
      ensures Step(r, tokens) == Operand(lv, old(tokens))
    {
      if lv == 5 {
        r := ParsePrefixExpression();
      } else {
        r := ParseBinaryExpression(lv + 1);
      }
    }

    /** parse_logic_or_expression ... parse_multiplicative_expression, by level. */
    method ParseBinaryExpression(lv: BinaryLevel) returns (r: Outcome)
      modifies this
      decreases |tokens|, 3 * (6 - lv) + 5
      ensures Step(r, tokens) == BinaryExpression(lv, old(tokens))
    {
      r := ParseOperand(lv);
      if !r.Parsed? {
        return;
      }
      while true
        invariant r.Parsed? && r.node.Node?
        invariant BinaryTail(lv, r.node, tokens) == BinaryExpression(lv, old(tokens))
        decreases |tokens|
      {
        var current := GetToken(0);
        if current.None? {
          return Crash;
        }
        if current.value.kind != LevelOperator(lv) {
          return;
        }
        var op := Pop();
        var child := ParseOperand(lv);
        if !child.Parsed? {
          return child;
        }
        r := Parsed(Binary(op, r.node, child.node));
      }
    }

    method ParsePrefixExpression() returns (r: Outcome)
      modifies this
      decreases |tokens|, 5
      ensures Step(r, tokens) == PrefixExpression(old(tokens))
    {
      var current := GetToken(0);
      if current.None? {
        return Crash;
      }
      if current.value.kind == Add || current.value.kind == Lnt {
        var op := Pop();
        var child := ParsePrefixExpression();
        if !child.Parsed? {
          return child;
        }
        return Parsed(Node(UopExp, Some(op.text), [child.node]));
      }
      r := ParsePostfixExpression();
    }

    method ParsePostfixExpression() returns (r: Outcome)
      modifies this
      decreases |tokens|, 4
      ensures Step(r, tokens) == PostfixExpression(old(tokens))
    {
      r := ParsePrimaryExpression();
      if !r.Parsed? {
        return;
      }
      while true
        invariant r.Parsed? && r.node.Node?
        invariant PostfixTail(r.node, tokens) == PostfixExpression(old(tokens))
        decreases |tokens|
      {
        var current := GetToken(0);
        if current.None? {
          return Crash;
        }
        if current.value.kind != Tra && current.value.kind != Nct {
          return;
        }
        var op := Pop();
        r := Parsed(Node(UopExp, Some(op.text), [r.node]));
      }
    }

    /** parse_primary_expression and its `primary_cases` table. */
    method ParsePrimaryExpression() returns (r: Outcome)
      modifies this
      decreases |tokens|, 3
      ensures Step(r, tokens) == PrimaryExpression(old(tokens))
    {
      if |tokens| == 0 {
        return Absent;
      }
      match tokens[0].kind
      case Identifier => r := ParseIdentifierExpression();
      case NumberLit => r := ParseNumberLiteral();
      case StringLit => r := ParseStringLiteral();
      case VectorLit => r := ParseVectorLiteral();
      case LParen => r := ParseParenExpression();
      case LBracket => r := ParseBracketExpression();
      case _ => r := Absent;
    }

    method ParseIdentifierExpression() returns (r: Outcome)
      requires |tokens| > 0
      modifies this
      decreases |tokens|, 2
      ensures Step(r, tokens) == IdentifierExpression(old(tokens))
    {
      var next := GetToken(1);
      if next.None? {
        return Crash;
      }
      if next.value.kind == LParen {
        r := ParseArrayExpression();
      } else {
        var name := Pop();
        r := Parsed(Leaf(IdentifierExp, name.text));
      }
    }

    method ParseNumberLiteral() returns (r: Outcome)
      requires |tokens| > 0
      modifies this
      ensures r == Parsed(Leaf(NumberLitExp, old(tokens)[0].text)) && tokens == old(tokens)[1..]
    {
      var literal := Pop();
      r := Parsed(Leaf(NumberLitExp, literal.text));
    }

    method ParseStringLiteral() returns (r: Outcome)
      requires |tokens| > 0
      modifies this
      ensures r == Parsed(Leaf(StringLitExp, Strip(old(tokens)[0].text, '"'))) && tokens == old(tokens)[1..]
    {
      var literal := Pop();
      r := Parsed(Leaf(StringLitExp, Strip(literal.text, '"')));
    }

    method ParseVectorLiteral() returns (r: Outcome)
      requires |tokens| > 0
      modifies this
      ensures r == Parsed(Leaf(VectorLitExp, Strip(old(tokens)[0].text, '\''))) && tokens == old(tokens)[1..]
    {
      var literal := Pop();
      r := Parsed(Leaf(VectorLitExp, Strip(literal.text, '\'')));
    }

    method ParseParenExpression() returns (r: Outcome)
      requires |tokens| > 0
      modifies this
      decreases |tokens|, 1
      ensures Step(r, tokens) == ParenExpression(old(tokens))
    {
      var _ := Pop();  // `(`
      r := ParseColonExpression();
      if !r.Parsed? {
        return;
      }
      var current := GetToken(0);
      if current.None? {
        return Crash;
      }
      if current.value.kind != RParen {
        return Absent;
      }
      var _ := Pop();  // `)`
    }

    method ParseBracketExpression() returns (r: Outcome)
      requires |tokens| > 0
      modifies this
      decreases |tokens|, 1
      ensures Step(r, tokens) == BracketExpression(old(tokens))
    {
      var _ := Pop();  // `[`
      r := ParseArrayList();
      if !r.Parsed? {
        return;
      }
      var current := GetToken(0);
      if current.None? {
        return Crash;
      }
      if current.value.kind != RBracket {
        return Absent;
      }
      var _ := Pop();  // `]`
    }

    method ParseArrayList() returns (r: Outcome)
      modifies this
      decreases |tokens|, 26
      ensures Step(r, tokens) == ArrayList(old(tokens))
    {
      var items: seq<Node> := [];
      while true
        invariant ArrayListTail(items, tokens) == ArrayList(old(tokens))
        decreases |tokens|
      {
        var current := GetToken(0);
        if current.None? {
          return Crash;
        }
        if current.value.kind == RBracket {
          break;
        }
        var child := ParseColonExpression();
        if !child.Parsed? {
          return child;
        }
        var marks := TakeEoStmts();
        if |tokens| == 0 {
          return Crash;
        }
        items := items + [child.node] + marks;
      }
      r := Parsed(Node(ArrayListExp, None, items));
    }

    /** parse_array_expression: the indexing expression `name(...)`. */
    method ParseArrayExpression() returns (r: Outcome)
      requires |tokens| >= 2
      modifies this
      decreases |tokens|, 1
      ensures Step(r, tokens) == ArrayExpression(old(tokens))
    {
      var name := Pop();
      var _ := Pop();  // `(`
      var list := ParseIndexList();
      if !list.Parsed? {
        return list;
      }
      var current := GetToken(0);
      if current.None? {
        return Crash;
      }
      if current.value.kind != RParen {
        return Absent;
      }
      var _ := Pop();  // `)`
      r := Parsed(Node(IndexingExp, None, [Leaf(IdentifierExp, name.text), list.node]));
    }

    method ParseIndexList() returns (r: Outcome)
      modifies this
      decreases |tokens|, 26
      ensures Step(r, tokens) == IndexList(old(tokens))
    {
      var items: seq<Node> := [];
      while true
        invariant IndexListTail(items, tokens) == IndexList(old(tokens))
        decreases |tokens|
      {
        var current := GetToken(0);
        if current.None? {
          return Crash;
        }
        if current.value.kind == Cln {
          var colon := Pop();
          items := items + [Leaf(ClnExp, colon.text)];
        } else {
          var child := ParseColonExpression();
          if !child.Parsed? {
            return child;
          }
          items := items + [child.node];
        }
        if Str(GetToken(0)) != "," {
          break;
        }
        var _ := Pop();  // `,`
      }
      r := Parsed(Node(IndexListExp, None, items));
    }
  }
}
