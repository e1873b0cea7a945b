/**
 * Programs as written: statements, blocks and clauses as trees, their token
 * sequence, and the parse tree the parser builds for them. The round trip of
 * this module says that parsing the tokens of a well-formed program yields
 * exactly its tree, for every statement kind the parser knows.
 */
module Programs {
  import opened Wrappers
  import opened Syntax
  import opened Expressions
  import opened Statements
  import opened Precedence
  import opened Sequences
  import opened StatementFacts

  /** A statement as written; every statement ends with its own EO_STMT token `eo`. */
  datatype Stmt =
    | ExprStmt(e: Expr, eo: Token)
    | Clear(kw: Token, names: seq<Token>, eo: Token)
    | While(kw: Token, guard: Expr, body: Block, end: Token, eo: Token)
    | For(kw: Token, name: Token, eq: Token, range: Expr, body: Block, end: Token, eo: Token)
    | If(kw: Token, guard: Expr, body: Block, alts: seq<Clause>, final: Option<Final>, end: Token, eo: Token)
    | Switch(kw: Token, subject: Expr, seps: seq<Token>, alts: seq<Clause>, final: Option<Final>, end: Token, eo: Token)

  /**
   * A clause body: the EO_STMT written after the guard or keyword, if any,
   * then the statements.
   */
  datatype Block = Block(sep: Option<Token>, stmts: seq<Stmt>)

  /** An `elseif` or `case` clause; also the shape of an `if`'s own first clause. */
  datatype Clause = Clause(kw: Token, guard: Expr, body: Block)

  /** An `else` or `otherwise` clause. */
  datatype Final = Final(kw: Token, body: Block)

  // ------------------------------------------------------------ rendering

  function Render(st: Stmt): seq<Token>
  {
    match st
    case ExprStmt(e, eo) => Unparse(e) + [eo]
    case Clear(kw, names, eo) => [kw] + names + [eo]
    case While(kw, g, b, end, eo) => [kw] + Unparse(g) + RenderBlock(b) + [end, eo]
    case For(kw, name, eq, r, b, end, eo) => [kw, name, eq] + Unparse(r) + RenderBlock(b) + [end, eo]
    case If(kw, g, b, alts, f, end, eo) =>
      [kw] + Unparse(g) + RenderBlock(b) + RenderClauses(alts) + RenderFinal(f) + [end, eo]
    case Switch(kw, g, seps, alts, f, end, eo) =>
      [kw] + Unparse(g) + seps + RenderClauses(alts) + RenderFinal(f) + [end, eo]
  }

  function RenderBlock(b: Block): seq<Token>
  {
    SepTokens(b.sep) + RenderList(b.stmts)
  }

  function SepTokens(sep: Option<Token>): seq<Token>
  {
    match sep
    case None => []
    case Some(t) => [t]
  }

  function RenderList(sts: seq<Stmt>): seq<Token>
  {
    if |sts| == 0 then [] else Render(sts[0]) + RenderList(sts[1..])
  }

  function RenderClauses(cs: seq<Clause>): seq<Token>
  {
    if |cs| == 0 then [] else RenderClause(cs[0]) + RenderClauses(cs[1..])
  }

  function RenderClause(c: Clause): seq<Token>
  {
    [c.kw] + Unparse(c.guard) + RenderBlock(c.body)
  }

  function RenderFinal(f: Option<Final>): seq<Token>
  {
    match f
    case None => []
    case Some(x) => [x.kw] + RenderBlock(x.body)
  }

  // ---------------------------------------------------------- parse trees

  function Separator(eo: Token): Node
  {
    Leaf(EoStmtMark, eo.text)
  }

  /** The tree the parser builds for a statement. */
  function StmtNode(st: Stmt): Node
  {
    match st
    case ExprStmt(e, eo) => Node(ExpStmt, None, [ToNode(e), Separator(eo)])
    case Clear(kw, names, eo) => Node(ClrStmt, None, [Node(IdList, None, NameNodes(names)), Separator(eo)])
    case While(kw, g, b, end, eo) =>
      Node(ItrStmt, Some(kw.text), [Node(ItrCls, Some(kw.text), [ToNode(g), BlockNode(b)]), Separator(eo)])
    case For(kw, name, eq, r, b, end, eo) =>
      var target := Node(AssExp, Some(eq.text), [Leaf(IdentifierExp, name.text), ToNode(r)]);
      Node(ItrStmt, Some(kw.text), [Node(ItrCls, Some(kw.text), [target, BlockNode(b)]), Separator(eo)])
    case If(kw, g, b, alts, f, end, eo) =>
      Node(SelStmt, Some(kw.text),
           [Node(SelCls, Some(kw.text), [ToNode(g), BlockNode(b)])] + ClauseNodes(alts) + FinalNodes(f) + [Separator(eo)])
    case Switch(kw, g, seps, alts, f, end, eo) =>
      Node(SelStmt, Some(kw.text),
           [Node(SelCls, Some(kw.text), [ToNode(g)])] + ClauseNodes(alts) + FinalNodes(f) + [Separator(eo)])
  }

  function BlockNode(b: Block): Node
  {
    Node(StmtList, None, ListNodes(b.stmts))
  }

  function ListNodes(sts: seq<Stmt>): seq<Node>
  {
    if |sts| == 0 then [] else [StmtNode(sts[0])] + ListNodes(sts[1..])
  }

  function NameNodes(names: seq<Token>): seq<Node>
  {
    if |names| == 0 then [] else [Leaf(IdentifierExp, names[0].text)] + NameNodes(names[1..])
  }

  function ClauseNodes(cs: seq<Clause>): seq<Node>
  {
    if |cs| == 0 then []
    else [ClauseNode(cs[0])] + ClauseNodes(cs[1..])
  }

  function ClauseNode(c: Clause): Node
  {
    Node(SelCls, Some(c.kw.text), [ToNode(c.guard), BlockNode(c.body)])
  }

  function FinalNodes(f: Option<Final>): seq<Node>
  {
    match f
    case None => []
    case Some(x) => [Node(SelCls, Some(x.kw.text), [BlockNode(x.body)])]
  }

  // -------------------------------------------------------- well-formedness

  /**
   * A keyword token: the given text, of a category that no expression starts
   * with and no expression loop consumes.
   */
  predicate Keyword(t: Token, text: string)
  {
    t.text == text && StartsNoExpression(t.kind) && LoopLevel(t.kind) < 0
  }

  /** The first token of a statement. */
  function Head(st: Stmt): Token
  {
    match st
    case ExprStmt(e, _) => Unparse(e)[0]
    case Clear(kw, _, _) => kw
    case While(kw, _, _, _, _) => kw
    case For(kw, _, _, _, _, _, _) => kw
    case If(kw, _, _, _, _, _, _) => kw
    case Switch(kw, _, _, _, _, _, _) => kw
  }

  predicate WellFormedStmt(st: Stmt)
  {
    match st
    case ExprStmt(e, eo) => WellFormed(e) && eo.kind == EoStmt
    case Clear(kw, names, eo) =>
      Keyword(kw, "clear") && (forall k :: 0 <= k < |names| ==> names[k].kind == Identifier) && eo.kind == EoStmt
    case While(kw, g, b, end, eo) =>
      Keyword(kw, "while") && WellFormed(g) && WellFormedBlock(b, ["end"]) && Keyword(end, "end") && eo.kind == EoStmt
    case For(kw, name, eq, r, b, end, eo) =>
      Keyword(kw, "for") && name.kind == Identifier && eq.kind == Ass && WellFormed(r)
      && WellFormedBlock(b, ["end"]) && Keyword(end, "end") && eo.kind == EoStmt
    case If(kw, g, b, alts, f, end, eo) =>
      Keyword(kw, "if") && WellFormed(g) && WellFormedBlock(b, SelTerminatorMap["if"])
      && WellFormedClauses(alts, "elseif") && WellFormedFinal(f, "else") && Keyword(end, "end") && eo.kind == EoStmt
    case Switch(kw, g, seps, alts, f, end, eo) =>
      Keyword(kw, "switch") && WellFormed(g) && (forall k :: 0 <= k < |seps| ==> seps[k].kind == EoStmt)
      && WellFormedClauses(alts, "case") && WellFormedFinal(f, "otherwise") && Keyword(end, "end") && eo.kind == EoStmt
  }

  /**
   * A block whose list ends at one of `terminators`: no statement may start
   * with one of them. Without a separator, the first statement's head must
   * end the guard written before it.
   */
  predicate WellFormedBlock(b: Block, terminators: seq<string>)
  {
    && (match b.sep
        case Some(t) => t.kind == EoStmt && t.text !in terminators
        case None => |b.stmts| == 0 || Stop([Head(b.stmts[0])]))
    && WellFormedList(b.stmts, terminators)
  }

  predicate WellFormedList(sts: seq<Stmt>, terminators: seq<string>)
  {
    |sts| == 0 ||
    (WellFormedStmt(sts[0]) && Head(sts[0]).text !in terminators && WellFormedList(sts[1..], terminators))
  }

  predicate WellFormedClauses(cs: seq<Clause>, keyword: string)
  {
    |cs| == 0 || (WellFormedClause(cs[0], keyword) && WellFormedClauses(cs[1..], keyword))
  }

  predicate WellFormedClause(c: Clause, keyword: string)
  {
    keyword in SelTerminatorMap && Keyword(c.kw, keyword) && WellFormed(c.guard) && WellFormedBlock(c.body, SelTerminatorMap[keyword])
  }

  predicate WellFormedFinal(f: Option<Final>, keyword: string)
  {
    f.Some? ==> keyword in SelTerminatorMap && Keyword(f.value.kw, keyword) && WellFormedBlock(f.value.body, SelTerminatorMap[keyword])
  }

  /** A program: a statement list ended by the end of the tokens. */
  predicate WellFormedProgram(sts: seq<Stmt>)
  {
    WellFormedList(sts, DefaultTerminators)
  }

  // ------------------------------------------------------------- measures

  function Size(st: Stmt): (n: nat)
    ensures n > 0
  {
    match st
    case ExprStmt(_, _) => 1
    case Clear(_, _, _) => 1
    case While(_, _, b, _, _) => 1 + BlockSize(b)
    case For(_, _, _, _, b, _, _) => 1 + BlockSize(b)
    case If(_, _, b, alts, f, _, _) => 2 + BlockSize(b) + ClausesSize(alts) + FinalSize(f)
    case Switch(_, _, _, alts, f, _, _) => 1 + ClausesSize(alts) + FinalSize(f)
  }

  function BlockSize(b: Block): nat
  {
    1 + ListSize(b.stmts)
  }

  function ListSize(sts: seq<Stmt>): nat
  {
    if |sts| == 0 then 0 else Size(sts[0]) + ListSize(sts[1..])
  }

  function ClausesSize(cs: seq<Clause>): nat
  {
    if |cs| == 0 then 0 else ClauseSize(cs[0]) + ClausesSize(cs[1..])
  }

  function ClauseSize(c: Clause): nat
  {
    1 + BlockSize(c.body)
  }

  function FinalSize(f: Option<Final>): nat
  {
    match f
    case None => 0
    case Some(x) => 1 + BlockSize(x.body)
  }

  // ------------------------------------------------------------ round trip

  /** No well-formed expression opens with an EO_STMT. */
  lemma {:induction false} OpensWithoutSeparator(e: Expr)
    requires WellFormed(e)
    ensures Unparse(e)[0].kind != EoStmt
  {
    match e
    case Atom(_) =>
    case Paren(_, _, _) =>
    case Prefix(_, _) =>
    case Postfix(x, _) =>
      OpensWithoutSeparator(x);
      assert Unparse(e)[0] == Unparse(x)[0];
    case Bin(_, l, _) =>
      OpensWithoutSeparator(l);
      assert Unparse(e)[0] == Unparse(l)[0];
    case Span(_, lo, _) =>
      ColonHeadWellFormed(lo);
      OpensWithoutSeparator(lo);
      assert Unparse(e)[0] == Unparse(lo)[0];
    case Stepped(_, lo, _, _, _) =>
      ColonHeadWellFormed(lo);
      OpensWithoutSeparator(lo);
      assert Unparse(e)[0] == Unparse(lo)[0];
  }

  /** A statement's tokens open with its head, which is no EO_STMT. */
  lemma RenderOpensWithHead(st: Stmt, rest: seq<Token>)
    requires WellFormedStmt(st)
    ensures |Render(st) + rest| > 0 && (Render(st) + rest)[0] == Head(st) && Head(st).kind != EoStmt
  {
    if st.ExprStmt? {
      OpensWithoutSeparator(st.e);
    }
  }

  /** The body list of a block, after its leading separator, up to a terminator. */
  lemma BlockRoundTrip(b: Block, terminators: seq<string>, tail: seq<Token>)
    requires WellFormedBlock(b, terminators) && Str(GetToken(tail, 0)) in terminators
    ensures StatementList(RenderBlock(b) + tail, terminators) == Step(Parsed(BlockNode(b)), tail)
    decreases BlockSize(b), 3
  {
    BlockOpens(b, terminators, tail);
    ListRoundTrip([], b.stmts, terminators, tail);
    assert [] + ListNodes(b.stmts) == ListNodes(b.stmts);
  }

  /** The separator that may open a block leaves no node. */
  lemma BlockOpens(b: Block, terminators: seq<string>, tail: seq<Token>)
    requires WellFormedBlock(b, terminators)
    ensures StatementList(RenderBlock(b) + tail, terminators)
         == StatementListTail([], terminators, RenderList(b.stmts) + tail)
  {
    var body := RenderList(b.stmts) + tail;
    Assoc(SepTokens(b.sep), RenderList(b.stmts), tail);
    match b.sep
    case None =>
      assert RenderBlock(b) + tail == body;
    case Some(t) =>
      assert RenderBlock(b) + tail == [t] + body;
      assert [t][0] == t;
      SeparatorsDropped([], terminators, [t], body);
  }

  /** A block, with or without its separator, ends the guard written before it. */
  lemma BlockFollows(b: Block, terminators: seq<string>, after: seq<Token>)
    requires WellFormedBlock(b, terminators) && Stop(after)
    ensures Stop(RenderBlock(b) + after)
  {
    Assoc(SepTokens(b.sep), RenderList(b.stmts), after);
    match b.sep
    case Some(t) =>
      assert (RenderBlock(b) + after)[0] == t;
    case None =>
      if |b.stmts| == 0 {
        assert RenderBlock(b) + after == after;
      } else {
        var st := b.stmts[0];
        assert RenderList(b.stmts) == Render(st) + RenderList(b.stmts[1..]);
        Assoc(Render(st), RenderList(b.stmts[1..]), after);
        RenderOpensWithHead(st, RenderList(b.stmts[1..]) + after);
        assert (RenderBlock(b) + after)[0] == Head(st);
      }
  }

  /** The statement list, statement by statement, up to a terminator. */
  lemma {:induction false} ListRoundTrip(children: seq<Node>, sts: seq<Stmt>, terminators: seq<string>, tail: seq<Token>)
    requires WellFormedList(sts, terminators) && Str(GetToken(tail, 0)) in terminators
    ensures StatementListTail(children, terminators, RenderList(sts) + tail)
         == Step(Parsed(Node(StmtList, None, children + ListNodes(sts))), tail)
    decreases ListSize(sts), 4
  {
    if |sts| == 0 {
      assert RenderList(sts) + tail == tail;
      assert children + ListNodes(sts) == children;
    } else {
      var after := RenderList(sts[1..]) + tail;
      var ts := Render(sts[0]) + after;
      assert RenderList(sts) == Render(sts[0]) + RenderList(sts[1..]);
      Assoc(Render(sts[0]), RenderList(sts[1..]), tail);
      RenderOpensWithHead(sts[0], after);
      assert Str(GetToken(ts, 0)) == Head(sts[0]).text;
      StatementRoundTrip(sts[0], after);
      ListTakesStatement(children, terminators, ts, StmtNode(sts[0]), after);
      ListRoundTrip(children + [StmtNode(sts[0])], sts[1..], terminators, tail);
      assert ListNodes(sts) == [StmtNode(sts[0])] + ListNodes(sts[1..]);
      Assoc(children, [StmtNode(sts[0])], ListNodes(sts[1..]));
    }
  }

  /** A statement that parses becomes the list's next child. */
  lemma ListTakesStatement(children: seq<Node>, terminators: seq<string>, ts: seq<Token>, node: Node, after: seq<Token>)
    requires |ts| > 0 && ts[0].kind != EoStmt && Str(GetToken(ts, 0)) !in terminators
    requires Statement(ts) == Step(Parsed(node), after)
    ensures StatementListTail(children, terminators, ts) == StatementListTail(children + [node], terminators, after)
  {
  }

  /** Every well-formed statement parses back to its tree and stops right after its EO_STMT. */
  lemma StatementRoundTrip(st: Stmt, rest: seq<Token>)
    requires WellFormedStmt(st)
    ensures Statement(Render(st) + rest) == Step(Parsed(StmtNode(st)), rest)
    decreases Size(st), 2
  {
    match st
    case ExprStmt(e, eo) => ExpressionStatementRoundTrip(e, eo, rest);
    case Clear(_, _, _) => ClearRoundTrip(st, rest);
    case While(_, _, _, _, _) => WhileRoundTrip(st, rest);
    case For(_, _, _, _, _, _, _) => ForRoundTrip(st, rest);
    case If(_, _, _, _, _, _, _) => IfRoundTrip(st, rest);
    case Switch(_, _, _, _, _, _, _) => SwitchRoundTrip(st, rest);
  }

  /** The program: every statement in order, and every token consumed. */
  lemma ProgramRoundTrip(sts: seq<Stmt>)
    requires WellFormedProgram(sts)
    ensures StatementList(RenderList(sts), DefaultTerminators)
         == Step(Parsed(Node(StmtList, None, ListNodes(sts))), [])
  {
    assert Str(GetToken([], 0)) == "None";
    ListRoundTrip([], sts, DefaultTerminators, []);
    assert RenderList(sts) + [] == RenderList(sts);
    assert [] + ListNodes(sts) == ListNodes(sts);
  }

  // ------------------------------------------------------ clear statements

  lemma {:induction false} NamesRoundTrip(acc: seq<Node>, names: seq<Token>, s: seq<Token>)
    requires forall k :: 0 <= k < |names| ==> names[k].kind == Identifier
    requires |s| > 0 && s[0].kind != Identifier
    ensures IdentifierListTail(acc, names + s) == Step(Parsed(Node(IdList, None, acc + NameNodes(names))), s)
    decreases |names|
  {
    if |names| == 0 {
      assert names + s == s;
      assert acc + NameNodes(names) == acc;
    } else {
      assert (names + s)[0] == names[0] && (names + s)[1..] == names[1..] + s;
      NamesRoundTrip(acc + [Leaf(IdentifierExp, names[0].text)], names[1..], s);
      assert acc + [Leaf(IdentifierExp, names[0].text)] + NameNodes(names[1..]) == acc + NameNodes(names);
    }
  }

  /** A keyword statement is not taken by the expression statement. */
  lemma ExpressionSkipped(ts: seq<Token>)
    requires |ts| > 0 && StartsNoExpression(ts[0].kind)
    ensures Statement(ts) == TryAlternatives(1, ts)
  {
    ExpressionGivesUp(ts);
    assert Alternative(0, ts) == Step(Absent, ts);
  }

  /** `clear`, the names and the EO_STMT. */
  lemma ClearClosing(kw: Token, tail: seq<Token>, ids: Node, eo: Token, rest: seq<Token>)
    requires kw.text == "clear" && ids.Node? && IdentifierList(tail) == Step(Parsed(ids), [eo] + rest) && eo.kind == EoStmt
    ensures ClearStatement([kw] + tail) == Step(Parsed(Node(ClrStmt, None, [ids, Separator(eo)])), rest)
  {
    assert ([kw] + tail)[0] == kw && ([kw] + tail)[1..] == tail;
    assert ([eo] + rest)[0] == eo && ([eo] + rest)[1..] == rest;
  }

  /** `clear`, identifiers and the EO_STMT, through parse_clear_statement. */
  lemma ClearParses(kw: Token, names: seq<Token>, eo: Token, rest: seq<Token>)
    requires kw.text == "clear" && eo.kind == EoStmt
    requires forall k :: 0 <= k < |names| ==> names[k].kind == Identifier
    ensures ClearStatement([kw] + (names + ([eo] + rest)))
         == Step(Parsed(Node(ClrStmt, None, [Node(IdList, None, NameNodes(names)), Separator(eo)])), rest)
  {
    var after := [eo] + rest;
    NamesRoundTrip([], names, after);
    assert [] + NameNodes(names) == NameNodes(names);
    ClearClosing(kw, names + after, Node(IdList, None, NameNodes(names)), eo, rest);
  }

  /** A node from parse_clear_statement is what parse_statement returns for a keyword token. */
  lemma ClearChosen(ts: seq<Token>, node: Node, rest: seq<Token>)
    requires |ts| > 0 && StartsNoExpression(ts[0].kind)
    requires ClearStatement(ts) == Step(Parsed(node), rest)
    ensures Statement(ts) == Step(Parsed(node), rest)
  {
    ExpressionSkipped(ts);
    assert Alternative(1, ts) == ClearStatement(ts);
  }

  lemma ClearRoundTrip(st: Stmt, rest: seq<Token>)
    requires st.Clear? && WellFormedStmt(st)
    ensures Statement(Render(st) + rest) == Step(Parsed(StmtNode(st)), rest)
  {
    var ts := [st.kw] + (st.names + ([st.eo] + rest));
    assert Render(st) + rest == ts;
    ClearParses(st.kw, st.names, st.eo, rest);
    assert ts[0] == st.kw;
    ClearChosen(ts, StmtNode(st), rest);
  }

  // -------------------------------------------------- iteration statements

  /** The `end` and EO_STMT after an iteration clause. */
  lemma IterationClosing(kw: Token, tail: seq<Token>, c: Node, end: Token, eo: Token, rest: seq<Token>)
    requires kw.text == "while" || kw.text == "for"
    requires IterationClause(kw.text, tail) == Step(Parsed(c), [end, eo] + rest) && eo.kind == EoStmt
    ensures IterationStatement([kw] + tail) == Step(Parsed(Node(ItrStmt, Some(kw.text), [c, Separator(eo)])), rest)
  {
    IterationTakesEnd(kw, tail, c, [end, eo] + rest);
    assert ([end, eo] + rest)[1..] == [eo] + rest;
    SeparatorEnds(Node(ItrStmt, Some(kw.text), [c]), eo, rest);
  }

  /** After its clause, an iteration statement pops one token as `end`, whatever its text. */
  lemma IterationTakesEnd(kw: Token, tail: seq<Token>, c: Node, after: seq<Token>)
    requires kw.text == "while" || kw.text == "for"
    requires IterationClause(kw.text, tail) == Step(Parsed(c), after) && |after| > 0
    ensures IterationStatement([kw] + tail) == EndStatement(Node(ItrStmt, Some(kw.text), [c]), after[1..])
  {
    assert ([kw] + tail)[0] == kw && ([kw] + tail)[1..] == tail;
  }

  /** The EO_STMT that closes a statement becomes its last child. */
  lemma SeparatorEnds(node: Node, eo: Token, rest: seq<Token>)
    requires node.Node? && eo.kind == EoStmt
    ensures EndStatement(node, [eo] + rest) == Step(Parsed(node.(children := node.children + [Separator(eo)])), rest)
  {
    assert ([eo] + rest)[0] == eo && ([eo] + rest)[1..] == rest;
  }

  /** An iteration clause followed by `end` and an EO_STMT, through parse_statement. */
  lemma IterationFromClause(kw: Token, tail: seq<Token>, c: Node, end: Token, eo: Token, rest: seq<Token>)
    requires StartsNoExpression(kw.kind) && (kw.text == "while" || kw.text == "for")
    requires IterationClause(kw.text, tail) == Step(Parsed(c), [end, eo] + rest) && eo.kind == EoStmt
    ensures Statement([kw] + tail) == Step(Parsed(Node(ItrStmt, Some(kw.text), [c, Separator(eo)])), rest)
  {
    var ts := [kw] + tail;
    assert ts[0] == kw;
    PastExpressionAndClear(ts);
    assert Alternative(2, ts) == Step(Absent, ts);
    IterationClosing(kw, tail, c, end, eo, rest);
    assert Alternative(3, ts) == IterationStatement(ts);
    assert TryAlternatives(2, ts) == TryAlternatives(3, ts);
  }

  /** An iteration clause whose guard and body both parse. */
  lemma LoopClauseParsed(clause: string, ts: seq<Token>, guard: Node, body: seq<Token>, block: Node, after: seq<Token>)
    requires (if clause == "while" then ColonExpression(ts) else AssignmentExpression(ts)) == Step(Parsed(guard), body)
    requires StatementList(body, ["end"]) == Step(Parsed(block), after)
    ensures IterationClause(clause, ts) == Step(Parsed(Node(ItrCls, Some(clause), [guard, block])), after)
  {
  }

  /** The tokens of a `while`, regrouped as the parser consumes them. */
  lemma WhileTokens(st: Stmt, rest: seq<Token>)
    requires st.While?
    ensures Render(st) + rest == [st.kw] + (Unparse(st.guard) + (RenderBlock(st.body) + ([st.end, st.eo] + rest)))
  {
    Regroup([st.kw], Unparse(st.guard), RenderBlock(st.body), [], [], [st.end, st.eo], rest);
  }

  lemma WhileRoundTrip(st: Stmt, rest: seq<Token>)
    requires st.While? && WellFormedStmt(st)
    ensures Statement(Render(st) + rest) == Step(Parsed(StmtNode(st)), rest)
    decreases Size(st), 1
  {
    var after := [st.end, st.eo] + rest;
    var body := RenderBlock(st.body) + after;
    var tail := Unparse(st.guard) + body;
    WhileTokens(st, rest);
    assert after[0] == st.end;
    BlockFollows(st.body, ["end"], after);
    ColonRoundTrip(st.guard, body);
    assert Str(GetToken(after, 0)) == "end";
    BlockRoundTrip(st.body, ["end"], after);
    LoopClauseParsed("while", tail, ToNode(st.guard), body, BlockNode(st.body), after);
    var c := Node(ItrCls, Some("while"), [ToNode(st.guard), BlockNode(st.body)]);
    IterationFromClause(st.kw, tail, c, st.end, st.eo, rest);
  }

  /** The tokens of a `for`, regrouped as the parser consumes them. */
  lemma ForTokens(st: Stmt, rest: seq<Token>)
    requires st.For?
    ensures Render(st) + rest
         == [st.kw] + ([st.name, st.eq] + (Unparse(st.range) + (RenderBlock(st.body) + ([st.end, st.eo] + rest))))
  {
    Regroup([st.kw], [st.name, st.eq], Unparse(st.range), RenderBlock(st.body), [], [st.end, st.eo], rest);
  }

  lemma ForRoundTrip(st: Stmt, rest: seq<Token>)
    requires st.For? && WellFormedStmt(st)
    ensures Statement(Render(st) + rest) == Step(Parsed(StmtNode(st)), rest)
    decreases Size(st), 1
  {
    var after := [st.end, st.eo] + rest;
    var body := RenderBlock(st.body) + after;
    var tail := [st.name, st.eq] + (Unparse(st.range) + body);
    ForTokens(st, rest);
    assert after[0] == st.end;
    BlockFollows(st.body, ["end"], after);
    AssignmentParses(st.name, st.eq, st.range, body);
    assert Str(GetToken(after, 0)) == "end";
    BlockRoundTrip(st.body, ["end"], after);
    var target := Node(AssExp, Some(st.eq.text), [Leaf(IdentifierExp, st.name.text), ToNode(st.range)]);
    LoopClauseParsed("for", tail, target, body, BlockNode(st.body), after);
    var c := Node(ItrCls, Some("for"), [target, BlockNode(st.body)]);
    IterationFromClause(st.kw, tail, c, st.end, st.eo, rest);
  }

  // -------------------------------------------------- selection statements

  /** The token after a clause: the next clause's keyword, the final clause's, or `end`. */
  lemma TrailerHead(sec: string, fin: string, cs: seq<Clause>, f: Option<Final>, end: Token, eo: Token, rest: seq<Token>)
    requires sec in SelTerminatorMap && fin in SelTerminatorMap
    requires WellFormedClauses(cs, sec) && WellFormedFinal(f, fin) && Keyword(end, "end")
    ensures var t := RenderClauses(cs) + (RenderFinal(f) + ([end, eo] + rest));
      |t| > 0 && StartsNoExpression(t[0].kind) && Stop(t) &&
      t[0].text == (if |cs| > 0 then sec else if f.Some? then fin else "end")
  {
    var t := RenderClauses(cs) + (RenderFinal(f) + ([end, eo] + rest));
    if |cs| > 0 {
      assert t[0] == RenderClause(cs[0])[0] == cs[0].kw;
    } else if f.Some? {
      assert t[0] == f.value.kw;
    } else {
      assert t[0] == end;
    }
  }

  /** A selection statement's first clause, then the rest of it, through parse_statement. */
  lemma SelectionFromClause(kw: Token, tail: seq<Token>, first: Node, after: seq<Token>)
    requires StartsNoExpression(kw.kind) && (kw.text == "if" || kw.text == "switch")
    requires SelectionClause(kw.text, tail) == Step(Parsed(first), after)
    requires SelectionTail(kw, [first], after).out.Parsed?
    ensures Statement([kw] + tail) == SelectionTail(kw, [first], after)
  {
    var ts := [kw] + tail;
    assert ts[0] == kw && ts[1..] == tail;
    PastExpressionAndClear(ts);
    assert SelectionStatement(ts) == SelectionTail(kw, [first], after);
    assert Alternative(2, ts) == SelectionStatement(ts);
  }

  /** The token taken as `end`, then the EO_STMT check. */
  lemma CloseRoundTrip(start: Token, clauses: seq<Node>, end: Token, eo: Token, rest: seq<Token>)
    requires eo.kind == EoStmt
    ensures CloseSelection(start, clauses, [end, eo] + rest)
         == Step(Parsed(Node(SelStmt, Some(start.text), clauses + [Separator(eo)])), rest)
  {
    assert ([end, eo] + rest)[1..] == [eo] + rest;
    assert ([eo] + rest)[0] == eo && ([eo] + rest)[1..] == rest;
  }

  /** A clause body that parses closes the clause: its node holds the guard, if any, then the body. */
  lemma ClauseBodyParsed(clause: string, guard: seq<Node>, body: seq<Token>, block: Node, after: seq<Token>)
    requires IsClauseKeyword(clause) && clause != "switch"
    requires StatementList(body, SelTerminatorMap[clause]) == Step(Parsed(block), after)
    ensures ClauseBody(clause, guard, body) == Step(Parsed(Node(SelCls, Some(clause), guard + [block])), after)
  {
  }

  /** A clause with a guard: the guard, then its body up to the clause's terminators. */
  lemma GuardedClause(keyword: string, tail: seq<Token>, guard: Node, body: seq<Token>, block: Node, after: seq<Token>)
    requires keyword in SelTerminatorMap && keyword != "else" && keyword != "otherwise" && keyword != "switch"
    requires ColonExpression(tail) == Step(Parsed(guard), body)
    requires StatementList(body, SelTerminatorMap[keyword]) == Step(Parsed(block), after)
    ensures SelectionClause(keyword, tail) == Step(Parsed(Node(SelCls, Some(keyword), [guard, block])), after)
  {
    assert [guard] + [block] == [guard, block];
    ClauseBodyParsed(keyword, [guard], body, block, after);
    assert keyword != "else" && keyword != "otherwise";
    assert SelectionClause(keyword, tail) == ClauseBody(keyword, [guard], body);
  }

  /** A final clause: its body up to `end`. */
  lemma UnguardedClause(keyword: string, tail: seq<Token>, block: Node, after: seq<Token>)
    requires keyword in SelTerminatorMap && keyword != "switch" && (keyword == "else" || keyword == "otherwise")
    requires StatementList(tail, SelTerminatorMap[keyword]) == Step(Parsed(block), after)
    ensures SelectionClause(keyword, tail) == Step(Parsed(Node(SelCls, Some(keyword), [block])), after)
  {
    ClauseBodyParsed(keyword, [], tail, block, after);
    assert [] + [block] == [block];
  }

  /** A secondary clause that parses joins the clauses, and the loop goes on after it. */
  lemma TailTakesClause(start: Token, clauses: seq<Node>, kw: Token, tail: seq<Token>, node: Node, after: seq<Token>)
    requires start.text in SelClausesMap
    requires kw.text == SelClausesMap[start.text].0
    requires SelectionClause(kw.text, tail) == Step(Parsed(node), after)
    ensures SelectionTail(start, clauses, [kw] + tail) == SelectionTail(start, clauses + [node], after)
  {
    assert ([kw] + tail)[0] == kw && ([kw] + tail)[1..] == tail;
  }

  /** A final clause that parses joins the clauses before `end`. */
  lemma EndTakesFinal(start: Token, clauses: seq<Node>, kw: Token, tail: seq<Token>, node: Node, after: seq<Token>)
    requires start.text in SelClausesMap
    requires kw.text == SelClausesMap[start.text].1
    requires SelectionClause(kw.text, tail) == Step(Parsed(node), after)
    ensures SelectionEnd(start, clauses, [kw] + tail) == CloseSelection(start, clauses + [node], after)
  {
    assert ([kw] + tail)[0] == kw && ([kw] + tail)[1..] == tail;
  }

  /** An `if`, `elseif` or `case` clause parses to its node and stops at the next keyword. */
  lemma ClauseRoundTrip(c: Clause, keyword: string, after: seq<Token>)
    requires keyword in SelTerminatorMap && keyword != "else" && keyword != "otherwise" && keyword != "switch"
    requires WellFormedClause(c, keyword) && Str(GetToken(after, 0)) in SelTerminatorMap[keyword] && Stop(after)
    ensures SelectionClause(keyword, Unparse(c.guard) + (RenderBlock(c.body) + after)) == Step(Parsed(ClauseNode(c)), after)
    decreases ClauseSize(c), 5
  {
    var body := RenderBlock(c.body) + after;
    BlockFollows(c.body, SelTerminatorMap[keyword], after);
    ColonRoundTrip(c.guard, body);
    BlockRoundTrip(c.body, SelTerminatorMap[keyword], after);
    GuardedClause(keyword, Unparse(c.guard) + body, ToNode(c.guard), body, BlockNode(c.body), after);
  }

  /** The optional final clause, `end` and the EO_STMT. */
  lemma FinalRoundTrip(start: Token, clauses: seq<Node>, f: Option<Final>, end: Token, eo: Token, rest: seq<Token>)
    requires start.text in SelClausesMap
    requires WellFormedFinal(f, SelClausesMap[start.text].1) && Keyword(end, "end") && eo.kind == EoStmt
    ensures SelectionEnd(start, clauses, RenderFinal(f) + ([end, eo] + rest))
         == Step(Parsed(Node(SelStmt, Some(start.text), clauses + FinalNodes(f) + [Separator(eo)])), rest)
    decreases FinalSize(f), 5
  {
    var trailer := [end, eo] + rest;
    if f.Some? {
      var x := f.value;
      assert RenderFinal(f) == [x.kw] + RenderBlock(x.body);
      Assoc([x.kw], RenderBlock(x.body), trailer);
      FinalClauseParses(start, clauses, x, end, eo, rest);
      CloseRoundTrip(start, clauses + FinalNodes(f), end, eo, rest);
    } else {
      assert RenderFinal(f) == [] && FinalNodes(f) == [];
      assert [] + trailer == trailer && clauses + [] == clauses;
      CloseRoundTrip(start, clauses, end, eo, rest);
    }
  }

  /** A present final clause parses up to `end` and joins the clauses. */
  lemma FinalClauseParses(start: Token, clauses: seq<Node>, x: Final, end: Token, eo: Token, rest: seq<Token>)
    requires start.text in SelClausesMap
    requires WellFormedFinal(Some(x), SelClausesMap[start.text].1) && Keyword(end, "end")
    ensures SelectionEnd(start, clauses, [x.kw] + (RenderBlock(x.body) + ([end, eo] + rest)))
         == CloseSelection(start, clauses + FinalNodes(Some(x)), [end, eo] + rest)
    decreases FinalSize(Some(x)), 4
  {
    var trailer := [end, eo] + rest;
    var tail := RenderBlock(x.body) + trailer;
    assert Str(GetToken(trailer, 0)) == "end";
    ClauseKeywords(start.text);
    assert SelTerminatorMap[x.kw.text] == ["end"];
    BlockRoundTrip(x.body, ["end"], trailer);
    UnguardedClause(x.kw.text, tail, BlockNode(x.body), trailer);
    var node := Node(SelCls, Some(x.kw.text), [BlockNode(x.body)]);
    EndTakesFinal(start, clauses, x.kw, tail, node, trailer);
    assert FinalNodes(Some(x)) == [node];
  }

  /** One secondary clause parses and joins the clauses; the loop goes on behind it. */
  lemma ClauseThenTail(start: Token, clauses: seq<Node>, cs: seq<Clause>, f: Option<Final>,
                       end: Token, eo: Token, rest: seq<Token>)
    requires start.text in SelClausesMap
    requires |cs| > 0 && WellFormedClauses(cs, SelClausesMap[start.text].0)
    requires WellFormedFinal(f, SelClausesMap[start.text].1) && Keyword(end, "end")
    ensures var finalTokens := RenderFinal(f) + ([end, eo] + rest);
      SelectionTail(start, clauses, RenderClauses(cs) + finalTokens)
      == SelectionTail(start, clauses + [ClauseNode(cs[0])], RenderClauses(cs[1..]) + finalTokens)
    decreases ClausesSize(cs) + FinalSize(f), 6
  {
    var sec := SelClausesMap[start.text].0;
    var fin := SelClausesMap[start.text].1;
    var finalTokens := RenderFinal(f) + ([end, eo] + rest);
    var c := cs[0];
    var after := RenderClauses(cs[1..]) + finalTokens;
    var tail := Unparse(c.guard) + (RenderBlock(c.body) + after);
    ClauseTokens(cs, finalTokens);
    ClauseKeywords(start.text);
    TrailerHead(sec, fin, cs[1..], f, end, eo, rest);
    assert Str(GetToken(after, 0)) in SelTerminatorMap[sec];
    ClauseRoundTrip(c, sec, after);
    TailTakesClause(start, clauses, c.kw, tail, ClauseNode(c), after);
  }

  /** The tokens of a clause list, regrouped as the loop takes its first clause. */
  lemma ClauseTokens(cs: seq<Clause>, finalTokens: seq<Token>)
    requires |cs| > 0
    ensures RenderClauses(cs) + finalTokens
         == [cs[0].kw] + (Unparse(cs[0].guard) + (RenderBlock(cs[0].body) + (RenderClauses(cs[1..]) + finalTokens)))
  {
    var c := cs[0];
    assert RenderClauses(cs) == RenderClause(c) + RenderClauses(cs[1..]);
    assert RenderClause(c) == [c.kw] + Unparse(c.guard) + RenderBlock(c.body);
    Regroup4([c.kw], Unparse(c.guard), RenderBlock(c.body), RenderClauses(cs[1..]), finalTokens);
  }

  /** With no secondary clause left, the loop hands over to the final clause and `end`. */
  lemma NoClauseLeft(start: Token, clauses: seq<Node>, f: Option<Final>, end: Token, eo: Token, rest: seq<Token>)
    requires start.text in SelClausesMap
    requires WellFormedFinal(f, SelClausesMap[start.text].1) && Keyword(end, "end") && eo.kind == EoStmt
    ensures SelectionTail(start, clauses, RenderFinal(f) + ([end, eo] + rest))
         == Step(Parsed(Node(SelStmt, Some(start.text), clauses + FinalNodes(f) + [Separator(eo)])), rest)
    decreases FinalSize(f), 6
  {
    var finalTokens := RenderFinal(f) + ([end, eo] + rest);
    ClauseKeywords(start.text);
    TrailerHead(SelClausesMap[start.text].0, SelClausesMap[start.text].1, [], f, end, eo, rest);
    TailToEnd(start, clauses, finalTokens);
    FinalRoundTrip(start, clauses, f, end, eo, rest);
  }

  lemma ClausesShrink(cs: seq<Clause>, keyword: string)
    requires |cs| > 0 && keyword in SelTerminatorMap && WellFormedClauses(cs, keyword)
    ensures WellFormedClauses(cs[1..], keyword) && ClausesSize(cs[1..]) < ClausesSize(cs)
  {
  }

  lemma NodesAppend(clauses: seq<Node>, cs: seq<Clause>)
    requires |cs| > 0
    ensures clauses + [ClauseNode(cs[0])] + ClauseNodes(cs[1..]) == clauses + ClauseNodes(cs)
  {
    assert ClauseNodes(cs) == [ClauseNode(cs[0])] + ClauseNodes(cs[1..]);
    AppendOne(clauses, ClauseNode(cs[0]), ClauseNodes(cs[1..]));
  }

  /** The secondary clauses one by one, then the final clause, `end` and the EO_STMT. */
  lemma {:induction false} ClausesRoundTrip(start: Token, clauses: seq<Node>, cs: seq<Clause>, f: Option<Final>,
                                            end: Token, eo: Token, rest: seq<Token>)
    requires start.text in SelClausesMap
    requires WellFormedClauses(cs, SelClausesMap[start.text].0) && WellFormedFinal(f, SelClausesMap[start.text].1)
    requires Keyword(end, "end") && eo.kind == EoStmt
    ensures SelectionTail(start, clauses, RenderClauses(cs) + (RenderFinal(f) + ([end, eo] + rest)))
         == Step(Parsed(Node(SelStmt, Some(start.text), clauses + ClauseNodes(cs) + FinalNodes(f) + [Separator(eo)])), rest)
    decreases ClausesSize(cs) + FinalSize(f), 7
  {
    if |cs| > 0 {
      ClauseThenTail(start, clauses, cs, f, end, eo, rest);
      ClausesShrink(cs, SelClausesMap[start.text].0);
      ClausesRoundTrip(start, clauses + [ClauseNode(cs[0])], cs[1..], f, end, eo, rest);
      NodesAppend(clauses, cs);
    } else {
      assert RenderClauses(cs) == [] && ClauseNodes(cs) == [];
      assert RenderClauses(cs) + (RenderFinal(f) + ([end, eo] + rest)) == RenderFinal(f) + ([end, eo] + rest);
      NoClauseLeft(start, clauses, f, end, eo, rest);
      assert clauses + ClauseNodes(cs) == clauses;
    }
  }

  /** The tokens of an `if`: its own clause, then the trailer that stops its body. */
  lemma IfTokens(st: Stmt, rest: seq<Token>)
    requires st.If? && WellFormedStmt(st)
    ensures var trailer := RenderClauses(st.alts) + (RenderFinal(st.final) + ([st.end, st.eo] + rest));
      && Render(st) + rest == [st.kw] + (Unparse(st.guard) + (RenderBlock(st.body) + trailer))
      && Str(GetToken(trailer, 0)) in SelTerminatorMap["if"] && Stop(trailer)
  {
    TrailerHead("elseif", "else", st.alts, st.final, st.end, st.eo, rest);
    var trailer := RenderClauses(st.alts) + (RenderFinal(st.final) + ([st.end, st.eo] + rest));
    Regroup([st.kw], Unparse(st.guard), RenderBlock(st.body), RenderClauses(st.alts), RenderFinal(st.final),
            [st.end, st.eo], rest);
  }

  lemma IfRoundTrip(st: Stmt, rest: seq<Token>)
    requires st.If? && WellFormedStmt(st)
    ensures Statement(Render(st) + rest) == Step(Parsed(StmtNode(st)), rest)
    decreases Size(st), 1
  {
    var c := Clause(st.kw, st.guard, st.body);
    var trailer := RenderClauses(st.alts) + (RenderFinal(st.final) + ([st.end, st.eo] + rest));
    var tail := Unparse(st.guard) + (RenderBlock(st.body) + trailer);
    IfTokens(st, rest);
    ClauseRoundTrip(c, "if", trailer);
    ClausesRoundTrip(st.kw, [ClauseNode(c)], st.alts, st.final, st.end, st.eo, rest);
    SelectionFromClause(st.kw, tail, ClauseNode(c), trailer);
  }

  /** The EO_STMT tokens between `switch`'s subject and its first clause leave no node. */
  lemma {:induction false} SeparatorRun(seps: seq<Token>, tail: seq<Token>)
    requires forall k :: 0 <= k < |seps| ==> seps[k].kind == EoStmt
    requires |tail| > 0 && tail[0].kind != EoStmt
    ensures EoStmtRun(seps + tail).1 == tail
    decreases |seps|
  {
    if |seps| == 0 {
      assert seps + tail == tail;
    } else {
      assert (seps + tail)[0] == seps[0] && (seps + tail)[1..] == seps[1..] + tail;
      SeparatorRun(seps[1..], tail);
    }
  }

  /** `switch`'s first clause: its subject, then the EO_STMT tokens it skips. */
  lemma SwitchClause(subject: Node, tail: seq<Token>, body: seq<Token>, trailer: seq<Token>)
    requires ColonExpression(tail) == Step(Parsed(subject), body)
    requires |trailer| > 0 && EoStmtRun(body).1 == trailer
    ensures SelectionClause("switch", tail) == Step(Parsed(Node(SelCls, Some("switch"), [subject])), trailer)
  {
    assert ClauseBody("switch", [subject], body) == Step(Parsed(Node(SelCls, Some("switch"), [subject])), trailer);
  }

  lemma SwitchHead(subject: Expr, seps: seq<Token>, trailer: seq<Token>)
    requires WellFormed(subject) && forall k :: 0 <= k < |seps| ==> seps[k].kind == EoStmt
    requires Stop(trailer) && StartsNoExpression(trailer[0].kind)
    ensures SelectionClause("switch", Unparse(subject) + (seps + trailer))
         == Step(Parsed(Node(SelCls, Some("switch"), [ToNode(subject)])), trailer)
  {
    var body := seps + trailer;
    if |seps| == 0 {
      assert body == trailer;
    } else {
      assert body[0] == seps[0];
    }
    ColonRoundTrip(subject, body);
    SeparatorRun(seps, trailer);
    SwitchClause(ToNode(subject), Unparse(subject) + body, body, trailer);
  }

  /** The tokens of a `switch`: subject, separators, then the trailer of clauses. */
  lemma SwitchTokens(st: Stmt, rest: seq<Token>)
    requires st.Switch? && WellFormedStmt(st)
    ensures var trailer := RenderClauses(st.alts) + (RenderFinal(st.final) + ([st.end, st.eo] + rest));
      && Render(st) + rest == [st.kw] + (Unparse(st.subject) + (st.seps + trailer))
      && Stop(trailer) && StartsNoExpression(trailer[0].kind)
  {
    TrailerHead("case", "otherwise", st.alts, st.final, st.end, st.eo, rest);
    Regroup([st.kw], Unparse(st.subject), st.seps, RenderClauses(st.alts), RenderFinal(st.final),
            [st.end, st.eo], rest);
  }

  lemma SwitchRoundTrip(st: Stmt, rest: seq<Token>)
    requires st.Switch? && WellFormedStmt(st)
    ensures Statement(Render(st) + rest) == Step(Parsed(StmtNode(st)), rest)
    decreases Size(st), 1
  {
    var trailer := RenderClauses(st.alts) + (RenderFinal(st.final) + ([st.end, st.eo] + rest));
    var tail := Unparse(st.subject) + (st.seps + trailer);
    SwitchTokens(st, rest);
    SwitchHead(st.subject, st.seps, trailer);
    var first := Node(SelCls, Some("switch"), [ToNode(st.subject)]);
    assert SelClausesMap[st.kw.text] == ("case", "otherwise");
    ClausesRoundTrip(st.kw, [first], st.alts, st.final, st.end, st.eo, rest);
    SelectionFromClause(st.kw, tail, first, trailer);
  }
}
