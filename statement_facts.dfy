/**
 * Properties of the statement level: every statement ends with its EO_STMT,
 * how statement lists stop, what an expression statement parses to, and the
 * outcomes the parser gives for some malformed inputs.
 */
module StatementFacts {
  import opened Wrappers
  import opened Syntax
  import opened Expressions
  import opened Statements
  import opened Precedence
  import opened Sequences

  // ------------------------------------------------------------- separators

  /**
   * A parsed statement's last child is the EO_STMT node of the last token it
   * consumed, and that token is an EO_STMT.
   */
  predicate EndsWithSeparator(ts: seq<Token>, s: Step)
  {
    s.out.Parsed? ==>
      && |s.rest| < |ts| && ts[|ts| - |s.rest| - 1].kind == EoStmt
      && s.out.node.Node? && |s.out.node.children| > 0
      && s.out.node.children[|s.out.node.children| - 1] == Leaf(EoStmtMark, ts[|ts| - |s.rest| - 1].text)
  }

  lemma SeparatorInSuffix(x: seq<Token>, ts: seq<Token>, s: Step)
    requires IsSuffix(x, ts) && IsSuffix(s.rest, x) && EndsWithSeparator(x, s)
    ensures EndsWithSeparator(ts, s)
  {
    if s.out.Parsed? {
      assert ts[|ts| - |s.rest| - 1] == x[|x| - |s.rest| - 1];
    }
  }

  /** The EO_STMT check: a separator is recorded, anything else raises at its own position. */
  lemma EndStatementOutcome(node: Node, ts: seq<Token>)
    requires node.Node?
    ensures EndsWithSeparator(ts, EndStatement(node, ts))
    ensures |ts| > 0 && ts[0].kind != EoStmt ==>
      EndStatement(node, ts) == Step(Err(InvalidExpression, ts[0].row, ts[0].col), ts)
    ensures EndStatement(node, ts).out.Parsed? ==>
      EndStatement(node, ts).out.node.children[..|node.children|] == node.children
  {
    if |ts| > 0 && ts[0].kind == EoStmt {
      assert ts[|ts| - |ts[1..]| - 1] == ts[0];
    }
  }

  lemma {:induction false} SelectionTailEnds(start: Token, clauses: seq<Node>, ts: seq<Token>)
    requires start.text in SelClausesMap
    ensures EndsWithSeparator(ts, SelectionTail(start, clauses, ts))
    decreases |ts|
  {
    if |ts| > 0 {
      if ts[0].text == SelClausesMap[start.text].0 {
        var c := SelectionClause(ts[0].text, ts[1..]);
        SuffixTransitive(c.rest, ts[1..], ts);
        if c.out.Parsed? {
          SelectionTailEnds(start, clauses + [c.out.node], c.rest);
          SeparatorInSuffix(c.rest, ts, SelectionTail(start, clauses + [c.out.node], c.rest));
        }
      } else {
        SelectionEndEnds(start, clauses, ts);
      }
    }
  }

  lemma SelectionEndEnds(start: Token, clauses: seq<Node>, ts: seq<Token>)
    requires start.text in SelClausesMap && |ts| > 0
    ensures EndsWithSeparator(ts, SelectionEnd(start, clauses, ts))
  {
    if ts[0].text == SelClausesMap[start.text].1 {
      var c := SelectionClause(ts[0].text, ts[1..]);
      SuffixTransitive(c.rest, ts[1..], ts);
      if c.out.Parsed? {
        CloseSelectionEnds(start, clauses + [c.out.node], c.rest);
        SeparatorInSuffix(c.rest, ts, CloseSelection(start, clauses + [c.out.node], c.rest));
      }
    } else {
      CloseSelectionEnds(start, clauses, ts);
    }
  }

  lemma CloseSelectionEnds(start: Token, clauses: seq<Node>, ts: seq<Token>)
    ensures EndsWithSeparator(ts, CloseSelection(start, clauses, ts))
  {
    if |ts| > 0 {
      var node := Node(SelStmt, Some(start.text), clauses);
      EndStatementOutcome(node, ts[1..]);
      SeparatorInSuffix(ts[1..], ts, EndStatement(node, ts[1..]));
    }
  }

  lemma ExpressionStatementEnds(ts: seq<Token>)
    ensures EndsWithSeparator(ts, ExpressionStatement(ts))
  {
    var e := Expression(ts);
    if e.out.Parsed? {
      var node := Node(ExpStmt, None, [e.out.node]);
      EndStatementOutcome(node, e.rest);
      SeparatorInSuffix(e.rest, ts, EndStatement(node, e.rest));
    }
  }

  lemma ClearStatementEnds(ts: seq<Token>)
    ensures EndsWithSeparator(ts, ClearStatement(ts))
  {
    if |ts| > 0 && ts[0].text == "clear" {
      var ids := IdentifierList(ts[1..]);
      SuffixTransitive(ids.rest, ts[1..], ts);
      if ids.out.Parsed? {
        var node := Node(ClrStmt, None, [ids.out.node]);
        EndStatementOutcome(node, ids.rest);
        SeparatorInSuffix(ids.rest, ts, EndStatement(node, ids.rest));
      }
    }
  }

  lemma SelectionStatementEnds(ts: seq<Token>)
    ensures EndsWithSeparator(ts, SelectionStatement(ts))
  {
    if |ts| > 0 && (ts[0].text == "if" || ts[0].text == "switch") {
      var first := SelectionClause(ts[0].text, ts[1..]);
      SuffixTransitive(first.rest, ts[1..], ts);
      if first.out.Parsed? {
        var s := SelectionTail(ts[0], [first.out.node], first.rest);
        assert SelectionStatement(ts) == s;
        SelectionTailEnds(ts[0], [first.out.node], first.rest);
        SeparatorInSuffix(first.rest, ts, s);
      }
    }
  }

  lemma IterationStatementEnds(ts: seq<Token>)
    ensures EndsWithSeparator(ts, IterationStatement(ts))
  {
    if |ts| > 0 && (ts[0].text == "while" || ts[0].text == "for") {
      var c := IterationClause(ts[0].text, ts[1..]);
      SuffixTransitive(c.rest, ts[1..], ts);
      if c.out.Parsed? && |c.rest| > 0 {
        var node := Node(ItrStmt, Some(ts[0].text), [c.out.node]);
        var s := EndStatement(node, c.rest[1..]);
        assert IterationStatement(ts) == s;
        EndStatementOutcome(node, c.rest[1..]);
        SuffixTransitive(c.rest[1..], c.rest, ts);
        SeparatorInSuffix(c.rest[1..], ts, s);
      }
    }
  }

  lemma AlternativeEnds(i: nat, ts: seq<Token>)
    requires i <= 4
    ensures EndsWithSeparator(ts, Alternative(i, ts))
  {
    match i
    case 0 => ExpressionStatementEnds(ts);
    case 1 => ClearStatementEnds(ts);
    case 2 => SelectionStatementEnds(ts);
    case 3 => IterationStatementEnds(ts);
    case 4 =>
  }

  lemma {:induction false} TryAlternativesEnd(i: nat, ts: seq<Token>)
    requires i <= 4
    ensures EndsWithSeparator(ts, TryAlternatives(i, ts))
    decreases 4 - i
  {
    var s := Alternative(i, ts);
    AlternativeEnds(i, ts);
    if s.out.Absent? && i < 4 {
      TryAlternativesEnd(i + 1, s.rest);
      SeparatorInSuffix(s.rest, ts, TryAlternatives(i + 1, s.rest));
    }
  }

  /**
   * Whatever kind it is, a statement that parses ends with an EO_STMT token,
   * and its last child is the EO_STMT node carrying that token's text.
   */
  lemma StatementEndsWithSeparator(ts: seq<Token>)
    ensures EndsWithSeparator(ts, Statement(ts))
  {
    TryAlternativesEnd(0, ts);
  }

  // -------------------------------------------------------- statement lists

  /** EO_STMT tokens between statements are dropped: they leave no node. */
  lemma {:induction false} SeparatorsDropped(children: seq<Node>, terminators: seq<string>,
                                             seps: seq<Token>, ts: seq<Token>)
    requires forall k :: 0 <= k < |seps| ==> seps[k].kind == EoStmt && seps[k].text !in terminators
    ensures StatementListTail(children, terminators, seps + ts) == StatementListTail(children, terminators, ts)
    decreases |seps|
  {
    if |seps| > 0 {
      assert (seps + ts)[0] == seps[0] && (seps + ts)[1..] == seps[1..] + ts;
      assert Str(GetToken(seps + ts, 0)) == seps[0].text;
      assert StatementListTail(children, terminators, seps + ts)
          == StatementListTail(children, terminators, seps[1..] + ts);
      assert forall k :: 0 <= k < |seps[1..]| ==> seps[1..][k] == seps[k + 1];
      SeparatorsDropped(children, terminators, seps[1..], ts);
    } else {
      assert seps + ts == ts;
    }
  }

  /**
   * The program list (default terminators) stops only when the tokens run out
   * or at a token whose text is "None", which it takes for its terminator.
   */
  lemma ProgramStopsAtEndOrNone(ts: seq<Token>)
    ensures var s := StatementList(ts, DefaultTerminators);
      s.out.Parsed? ==> s.rest == [] || s.rest[0].text == "None"
  {
    var s := StatementList(ts, DefaultTerminators);
    if s.out.Parsed? && s.rest != [] {
      assert Str(GetToken(s.rest, 0)) == s.rest[0].text;
    }
  }

  /** Without a token whose text is "None", a program that parses consumes every token. */
  lemma ProgramConsumesAll(ts: seq<Token>)
    requires forall k :: 0 <= k < |ts| ==> ts[k].text != "None"
    ensures var s := StatementList(ts, DefaultTerminators);
      s.out.Parsed? ==> s.rest == []
  {
    var s := StatementList(ts, DefaultTerminators);
    ProgramStopsAtEndOrNone(ts);
  }

  /**
   * A block's list (terminators without "None") returns a node only in front
   * of one of its terminators, and returns None only when the tokens ran out.
   */
  lemma BlockListNeedsTerminator(ts: seq<Token>, terminators: seq<string>)
    requires "None" !in terminators
    ensures var s := StatementList(ts, terminators);
      (s.out.Parsed? ==> |s.rest| > 0 && s.rest[0].text in terminators) &&
      (s.out.Absent? ==> s.rest == [])
  {
    var s := StatementList(ts, terminators);
    if s.out.Parsed? {
      assert |s.rest| > 0;
      assert Str(GetToken(s.rest, 0)) == s.rest[0].text;
    }
  }

  // ---------------------------------------------------- expression statements

  /** A token kind that starts no expression and is no EO_STMT. */
  predicate StartsNoExpression(k: TokenKind)
  {
    !IsAtomKind(k) && k != LParen && k != LBracket && k != Add && k != Lnt && k != EoStmt
  }

  lemma {:induction false} BinaryGivesUp(lv: BinaryLevel, ts: seq<Token>)
    requires |ts| > 0 && StartsNoExpression(ts[0].kind)
    ensures BinaryExpression(lv, ts) == Step(Absent, ts)
    decreases 5 - lv
  {
    if lv < 5 {
      BinaryGivesUp(lv + 1, ts);
      assert Operand(lv, ts) == Step(Absent, ts);
    } else {
      PrefixGivesUp(ts);
      assert Operand(lv, ts) == Step(Absent, ts);
    }
  }

  /** The same for the prefix, postfix and primary routines. */
  lemma PrefixGivesUp(ts: seq<Token>)
    requires |ts| > 0 && StartsNoExpression(ts[0].kind)
    ensures PrefixExpression(ts) == Step(Absent, ts)
  {
    assert PrimaryExpression(ts) == Step(Absent, ts);
    assert PostfixExpression(ts) == Step(Absent, ts);
  }

  /** In front of a token that starts no expression, parse_expression returns None and consumes nothing. */
  lemma ExpressionGivesUp(ts: seq<Token>)
    requires |ts| > 0 && StartsNoExpression(ts[0].kind)
    ensures ColonExpression(ts) == Step(Absent, ts)
    ensures Expression(ts) == Step(Absent, ts)
  {
    BinaryGivesUp(1, ts);
    assert AssignmentExpression(ts) == Step(Absent, ts);
  }

  /** The first alternative wins when it returns a node or raises. */
  lemma FirstAlternativeDecides(ts: seq<Token>)
    requires !ExpressionStatement(ts).out.Absent?
    ensures Statement(ts) == ExpressionStatement(ts)
  {
    assert Alternative(0, ts) == ExpressionStatement(ts);
  }

  /** An expression statement: the expression, then the EO_STMT check at the token after it. */
  lemma ExpressionThen(e: Expr, s: seq<Token>)
    requires WellFormed(e) && Stop(s) && s[0].kind != Ass
    ensures Statement(Unparse(e) + s) == EndStatement(Node(ExpStmt, None, [ToNode(e)]), s)
  {
    var ts := Unparse(e) + s;
    ExpressionRoundTrip(e, s);
    ExpressionStatementOf(ts, ToNode(e), s);
    FirstAlternativeDecides(ts);
  }

  /** Once parse_expression has returned `n`, the expression statement is the EO_STMT check after it. */
  lemma ExpressionStatementOf(ts: seq<Token>, n: Node, rest: seq<Token>)
    requires n.Node? && |rest| > 0 && Expression(ts) == Step(Parsed(n), rest)
    ensures ExpressionStatement(ts) == EndStatement(Node(ExpStmt, None, [n]), rest)
    ensures !ExpressionStatement(ts).out.Absent?
  {
  }

  /**
   * An expression statement is the expression's node followed by the EO_STMT
   * node, and the statement stops right after the separator.
   */
  lemma ExpressionStatementRoundTrip(e: Expr, eo: Token, rest: seq<Token>)
    requires WellFormed(e) && eo.kind == EoStmt
    ensures Statement(Unparse(e) + [eo] + rest)
         == Step(Parsed(Node(ExpStmt, None, [ToNode(e), Leaf(EoStmtMark, eo.text)])), rest)
  {
    var s := [eo] + rest;
    assert Unparse(e) + [eo] + rest == Unparse(e) + s;
    assert s[0] == eo && s[1..] == rest;
    ExpressionThen(e, s);
  }

  /**
   * An expression followed by a token that no expression loop takes and that
   * is not an EO_STMT: InvalidExpressionError at that token.
   */
  lemma ExpressionThenStrayToken(e: Expr, u: Token, rest: seq<Token>)
    requires WellFormed(e) && Stop([u] + rest) && u.kind != Ass && u.kind != EoStmt
    ensures Statement(Unparse(e) + [u] + rest) == Step(Err(InvalidExpression, u.row, u.col), [u] + rest)
  {
    var s := [u] + rest;
    assert Unparse(e) + [u] + rest == Unparse(e) + s;
    assert s[0] == u;
    ExpressionThen(e, s);
  }

  /**
   * There is no equality level: in `x == y;` (with `==` of a category the
   * parser never names) the statement `x` meets `==` where it expects an
   * EO_STMT.
   */
  lemma NoEqualityLevel(x: Expr, eq: Token, y: Expr, eo: Token, rest: seq<Token>)
    requires WellFormed(x) && WellFormed(y) && eq.kind == Unlisted && eq.text == "==" && eo.kind == EoStmt
    ensures Statement(Unparse(x) + [eq] + Unparse(y) + [eo] + rest)
         == Step(Err(InvalidExpression, eq.row, eq.col), [eq] + Unparse(y) + [eo] + rest)
  {
    var after := Unparse(y) + [eo] + rest;
    Assoc(Unparse(x) + [eq], Unparse(y), [eo]);
    Assoc(Unparse(x) + [eq], Unparse(y) + [eo], rest);
    Assoc([eq], Unparse(y), [eo]);
    Assoc([eq], Unparse(y) + [eo], rest);
    ExpressionThenStrayToken(x, eq, after);
  }

  /**
   * A keyword lexed as IDENTIFIER never reaches its statement routine: the
   * expression statement, tried first, takes it for a variable and raises
   * InvalidExpressionError at the next token (here, an identifier).
   */
  lemma KeywordLexedAsIdentifier(kw: Token, next: Token, rest: seq<Token>)
    requires kw.kind == Identifier && IsBlockKeyword(kw.text) && next.kind == Identifier
    ensures Statement([kw, next] + rest) == Step(Err(InvalidExpression, next.row, next.col), [next] + rest)
  {
    assert [kw, next] + rest == Unparse(Atom(kw)) + [next] + rest;
    ExpressionThenStrayToken(Atom(kw), next, rest);
  }

  // ----------------------------------------------------- malformed programs

  /** A keyword token of a category the expressions never take skips the first two alternatives. */
  lemma PastExpressionAndClear(ts: seq<Token>)
    requires |ts| > 0 && StartsNoExpression(ts[0].kind) && ts[0].text != "clear"
    ensures Statement(ts) == TryAlternatives(2, ts)
  {
    ExpressionGivesUp(ts);
    assert Alternative(0, ts) == Step(Absent, ts);
    assert Alternative(1, ts) == Step(Absent, ts);
    assert TryAlternatives(1, ts) == TryAlternatives(2, ts);
  }

  /** One statement that raises or crashes ends the list with the same outcome. */
  lemma ListTakesFailure(ts: seq<Token>, terminators: seq<string>)
    requires |ts| > 0 && ts[0].kind != EoStmt && ts[0].text !in terminators
    requires Statement(ts).out.Raised()
    ensures StatementList(ts, terminators) == Statement(ts)
  {
    assert Str(GetToken(ts, 0)) == ts[0].text;
  }

  /** A statement that returns None without consuming makes the list's loop spin forever. */
  lemma ListSpins(ts: seq<Token>, terminators: seq<string>)
    requires |ts| > 0 && ts[0].kind != EoStmt && ts[0].text !in terminators
    requires Statement(ts) == Step(Absent, ts)
    ensures StatementList(ts, terminators) == Step(Diverge, ts)
  {
    assert Str(GetToken(ts, 0)) == ts[0].text;
  }

  /** No alternative takes a token that starts no expression and no statement. */
  lemma NoStatementAt(ts: seq<Token>)
    requires |ts| > 0 && StartsNoExpression(ts[0].kind)
    requires ts[0].text != "clear" && !IsBlockKeyword(ts[0].text)
    ensures Statement(ts) == Step(Absent, ts)
  {
    PastExpressionAndClear(ts);
    BlockAlternativesGiveUp(ts);
  }

  /** The selection, iteration and jump alternatives take only their own keywords. */
  lemma BlockAlternativesGiveUp(ts: seq<Token>)
    requires |ts| > 0 && !IsBlockKeyword(ts[0].text)
    ensures TryAlternatives(2, ts) == Step(Absent, ts)
  {
    var text := ts[0].text;
    assert text != "if" && text != "switch" && text != "while" && text != "for";
    SelectionGivesUp(ts);
    IterationGivesUp(ts);
    assert TryAlternatives(4, ts) == Step(Absent, ts);
    assert TryAlternatives(3, ts) == Step(Absent, ts);
  }

  lemma SelectionGivesUp(ts: seq<Token>)
    requires |ts| > 0 && ts[0].text != "if" && ts[0].text != "switch"
    ensures Alternative(2, ts) == Step(Absent, ts)
  {
  }

  lemma IterationGivesUp(ts: seq<Token>)
    requires |ts| > 0 && ts[0].text != "while" && ts[0].text != "for"
    ensures Alternative(3, ts) == Step(Absent, ts)
  {
  }

  /**
   * A token that starts nothing (a stray `)`, say) makes every alternative
   * return None without consuming: the program's loop then never ends.
   */
  lemma StrayTokenDiverges(t: Token, rest: seq<Token>, terminators: seq<string>)
    requires StartsNoExpression(t.kind) && t.text !in terminators
    requires t.text != "clear" && !IsBlockKeyword(t.text)
    ensures StatementList([t] + rest, terminators) == Step(Diverge, [t] + rest)
  {
    var ts := [t] + rest;
    assert ts[0] == t;
    NoStatementAt(ts);
    ListSpins(ts, terminators);
  }

  /** The body list of an `if` that meets a last EO_STMT and nothing else runs out. */
  lemma LastSeparatorRunsOut(eo: Token, terminators: seq<string>)
    requires eo.kind == EoStmt && eo.text !in terminators && "None" !in terminators
    ensures StatementList([eo], terminators) == Step(Absent, [])
  {
    assert Str(GetToken([eo], 0)) == eo.text;
    assert [eo][1..] == [];
    assert Str(GetToken([], 0)) == "None";
    assert StatementListTail([], terminators, []) == Step(Absent, []);
  }

  lemma IfClauseRunsOut(guard: Expr, eo: Token)
    requires WellFormed(guard) && eo.kind == EoStmt && eo.text !in SelTerminatorMap["if"]
    ensures SelectionClause("if", Unparse(guard) + [eo]) == Step(Absent, [])
  {
    ColonRoundTrip(guard, [eo]);
    LastSeparatorRunsOut(eo, SelTerminatorMap["if"]);
    assert ClauseBody("if", [ToNode(guard)], [eo]) == Step(Absent, []);
  }

  /** A first clause that returns None: IncompleteStatementError at the keyword, through parse_statement. */
  lemma EmptyClauseIsIncomplete(ts: seq<Token>)
    requires |ts| > 0 && ts[0].text == "if" && StartsNoExpression(ts[0].kind)
    requires SelectionClause("if", ts[1..]) == Step(Absent, [])
    ensures Statement(ts) == Step(Err(IncompleteStatement, ts[0].row, ts[0].col), [])
  {
    PastExpressionAndClear(ts);
    assert SelectionStatement(ts) == Step(Err(IncompleteStatement, ts[0].row, ts[0].col), []);
    assert Alternative(2, ts) == SelectionStatement(ts);
  }

  /**
   * `if` with a guard and a separator but no `end`: the clause's list runs
   * out, and IncompleteStatementError is raised at the `if` token.
   */
  lemma UnterminatedIf(kw: Token, guard: Expr, eo: Token)
    requires kw.text == "if" && StartsNoExpression(kw.kind) && WellFormed(guard)
    requires eo.kind == EoStmt && eo.text !in SelTerminatorMap["if"]
    ensures StatementList([kw] + Unparse(guard) + [eo], DefaultTerminators)
         == Step(Err(IncompleteStatement, kw.row, kw.col), [])
  {
    var ts := [kw] + Unparse(guard) + [eo];
    var tail := Unparse(guard) + [eo];
    Assoc([kw], Unparse(guard), [eo]);
    assert ts == [kw] + tail;
    assert ts[0] == kw && ts[1..] == tail;
    IfClauseRunsOut(guard, eo);
    EmptyClauseIsIncomplete(ts);
    ListTakesFailure(ts, DefaultTerminators);
  }

  /** A number at the very end of the tokens: the postfix loop looks for one more token and crashes. */
  lemma NumberAtEndCrashes(n: Token)
    requires n.kind == NumberLit
    ensures ColonExpression([n]) == Step(Crash, [])
  {
    assert [n][1..] == [];
    assert PrimaryExpression([n]) == Step(Parsed(Leaf(NumberLitExp, n.text)), []);
    assert PostfixExpression([n]) == Step(Crash, []);
    assert PrefixExpression([n]) == Step(Crash, []);
    assert BinaryExpression(5, [n]) == Step(Crash, []);
    assert BinaryExpression(4, [n]) == Step(Crash, []);
    assert BinaryExpression(3, [n]) == Step(Crash, []);
    assert BinaryExpression(2, [n]) == Step(Crash, []);
    assert BinaryExpression(1, [n]) == Step(Crash, []);
  }

  /**
   * `if` and a guard with nothing after it: the guard's postfix loop asks for
   * the type of a missing token, which is a crash, not IncompleteStatementError.
   */
  lemma GuardAtEndCrashes(kw: Token, guard: Token)
    requires kw.text == "if" && StartsNoExpression(kw.kind) && guard.kind == NumberLit
    ensures StatementList([kw, guard], DefaultTerminators) == Step(Crash, [])
  {
    var ts := [kw, guard];
    PastExpressionAndClear(ts);
    assert ts[1..] == [guard];
    NumberAtEndCrashes(guard);
    assert SelectionClause("if", [guard]) == Step(Crash, []);
    assert SelectionStatement(ts) == Step(Crash, []);
    assert Alternative(2, ts) == SelectionStatement(ts);
    ListTakesFailure(ts, DefaultTerminators);
  }
}
