/**
 * What the expression chain means: a concrete syntax tree `Expr` of the
 * expression language, its token rendering `Unparse`, and the node `ToNode`
 * the parser should build for it. The main theorem is the round trip: parsing
 * the rendering of a well-formed tree yields exactly that tree's node and
 * leaves the following tokens untouched. Associativity, precedence, the
 * nesting of prefix and postfix operators and the arity of colon expressions
 * are instances of it.
 */
module Precedence {
  import opened Wrappers
  import opened Syntax
  import opened Sequences
  import opened Expressions

  /**
   * The level whose loop consumes an operator category: 0 colon, 1 `||`,
   * 2 `&&`, 3 relational, 4 additive, 5 multiplicative, 7 postfix; -1 for a
   * category that no loop consumes (an expression stops in front of it).
   */
  function LoopLevel(k: TokenKind): int
  {
    match k
    case Cln => 0
    case Lor => 1
    case Lan => 2
    case Rel => 3
    case Add => 4
    case Mul => 5
    case Tra => 7
    case Nct => 7
    case _ => -1
  }

  lemma LevelOperatorLevel(lv: BinaryLevel, k: TokenKind)
    ensures k == LevelOperator(lv) <==> LoopLevel(k) == lv
  {
  }

  /** The categories that form a primary expression on their own. */
  predicate IsAtomKind(k: TokenKind)
  {
    k == Identifier || k == NumberLit || k == StringLit || k == VectorLit
  }

  /** Expression trees as written, parentheses included. */
  datatype Expr =
    | Atom(token: Token)
    | Paren(open: Token, inner: Expr, close: Token)
    | Postfix(operand: Expr, op: Token)
    | Prefix(op: Token, operand: Expr)
    | Bin(op: Token, left: Expr, right: Expr)
    | Span(colon: Token, low: Expr, high: Expr)                             // low:high
    | Stepped(colon: Token, low: Expr, colon2: Token, step: Expr, high: Expr) // low:step:high

  /** The precedence level of a tree's outermost construct (8 primary ... 0 colon). */
  function ExprLevel(e: Expr): int
  {
    match e
    case Atom(_) => 8
    case Paren(_, _, _) => 8
    case Postfix(_, _) => 7
    case Prefix(_, _) => 6
    case Bin(op, _, _) => LoopLevel(op.kind)
    case Span(_, _, _) => 0
    case Stepped(_, _, _, _, _) => 0
  }

  /**
   * The tree can be written without parentheses it does not have: operator
   * tokens of the right category, left operands at the operator's own level
   * (left associativity), right operands strictly tighter, prefix operands at
   * prefix level, postfix operands at postfix level.
   */
  predicate WellFormed(e: Expr)
    decreases e, 1
  {
    match e
    case Atom(t) => IsAtomKind(t.kind)
    case Paren(o, x, c) => o.kind == LParen && c.kind == RParen && WellFormed(x)
    case Postfix(x, op) => (op.kind == Tra || op.kind == Nct) && Fits(x, 7)
    case Prefix(op, x) => (op.kind == Add || op.kind == Lnt) && Fits(x, 6)
    case Bin(op, l, r) =>
      1 <= LoopLevel(op.kind) <= 5 && Fits(l, LoopLevel(op.kind)) && Fits(r, LoopLevel(op.kind) + 1)
    case Span(c, lo, hi) => c.kind == Cln && ColonHead(lo) && Fits(hi, 1)
    case Stepped(c1, lo, c2, st, hi) =>
      c1.kind == Cln && c2.kind == Cln && ColonHead(lo) && Fits(st, 1) && Fits(hi, 1)
  }

  /** `e` is well formed and binds at least as tightly as level `L`. */
  predicate Fits(e: Expr, L: int)
    decreases e, 2
  {
    L <= ExprLevel(e) && WellFormed(e)
  }

  /**
   * What can stand left of a colon: a `||` expression or a three-part colon
   * expression (`a:b` followed by `:` reads as `a:b:...` instead).
   */
  predicate ColonHead(e: Expr)
    decreases e, 3
  {
    Fits(e, 1) || (e.Stepped? && WellFormed(e))
  }

  /** The tokens of a tree, left to right. */
  function Unparse(e: Expr): (u: seq<Token>)
    ensures |u| > 0
  {
    match e
    case Atom(t) => [t]
    case Paren(o, x, c) => [o] + Unparse(x) + [c]
    case Postfix(x, op) => Unparse(x) + [op]
    case Prefix(op, x) => [op] + Unparse(x)
    case Bin(op, l, r) => Unparse(l) + [op] + Unparse(r)
    case Span(c, lo, hi) => Unparse(lo) + [c] + Unparse(hi)
    case Stepped(c1, lo, c2, st, hi) => Unparse(lo) + [c1] + Unparse(st) + [c2] + Unparse(hi)
  }

  /** The leaf the parser makes of an atom; literal quotes are stripped. */
  function AtomNode(t: Token): Node
  {
    match t.kind
    case NumberLit => Leaf(NumberLitExp, t.text)
    case StringLit => Leaf(StringLitExp, Strip(t.text, '"'))
    case VectorLit => Leaf(VectorLitExp, Strip(t.text, '\''))
    case _ => Leaf(IdentifierExp, t.text)
  }

  /**
   * The node a tree should become: parentheses leave no node, unary and
   * binary operators and colons carry their operator's text, and a
   * three-part colon expression carries the text of its second colon.
   */
  function ToNode(e: Expr): (n: Node)
    ensures n.Node?
  {
    match e
    case Atom(t) => AtomNode(t)
    case Paren(_, x, _) => ToNode(x)
    case Postfix(x, op) => Node(UopExp, Some(op.text), [ToNode(x)])
    case Prefix(op, x) => Node(UopExp, Some(op.text), [ToNode(x)])
    case Bin(op, l, r) => Binary(op, ToNode(l), ToNode(r))
    case Span(c, lo, hi) => Node(ClnExp, Some(c.text), [ToNode(lo), ToNode(hi)])
    case Stepped(_, lo, c2, st, hi) => Node(ClnExp, Some(c2.text), [ToNode(lo), ToNode(st), ToNode(hi)])
  }

  /** The parsing routine of level `L`. */
  function Level(L: int, ts: seq<Token>): Step
    requires 0 <= L <= 8
  {
    if L == 0 then ColonExpression(ts)
    else if L <= 5 then BinaryExpression(L, ts)
    else if L == 6 then PrefixExpression(ts)
    else if L == 7 then PostfixExpression(ts)
    else PrimaryExpression(ts)
  }

  /** The loop of level `L` continuing from `root` (prefix and primary have none). */
  function Loop(L: int, root: Node, ts: seq<Token>): Step
    requires 0 <= L <= 8 && root.Node?
  {
    if L == 0 then ColonTail(root, ts)
    else if L <= 5 then BinaryTail(L, root, ts)
    else if L == 7 then PostfixTail(root, ts)
    else Step(Parsed(root), ts)
  }

  /**
   * What may follow an expression parsed at level `L` whose loop is to go on:
   * some token, not `(`, and no operator of a tighter level.
   */
  predicate Cont(L: int, s: seq<Token>)
  {
    |s| > 0 && s[0].kind != LParen && LoopLevel(s[0].kind) <= L
  }

  /** What may follow a complete expression: some token that no loop consumes, not `(`. */
  predicate Stop(s: seq<Token>)
  {
    |s| > 0 && s[0].kind != LParen && LoopLevel(s[0].kind) < 0
  }

  /** A loop of a level tighter than the next token's operator returns its root untouched. */
  lemma LoopStops(L: int, root: Node, s: seq<Token>)
    requires 1 <= L <= 8 && root.Node? && |s| > 0 && LoopLevel(s[0].kind) < L
    ensures Loop(L, root, s) == Step(Parsed(root), s)
  {
    if 1 <= L <= 5 {
      LevelOperatorLevel(L, s[0].kind);
    }
  }

  lemma WellFormedLevel(e: Expr)
    requires WellFormed(e)
    ensures 0 <= ExprLevel(e) <= 8
  {
  }

  lemma ColonHeadWellFormed(e: Expr)
    requires ColonHead(e)
    ensures WellFormed(e) && !e.Span?
  {
  }

  /** The first token of an expression at postfix level or tighter opens a primary. */
  lemma {:induction false} FirstToken(e: Expr)
    requires WellFormed(e) && ExprLevel(e) >= 7
    ensures IsAtomKind(Unparse(e)[0].kind) || Unparse(e)[0].kind == LParen
  {
    match e
    case Atom(_) =>
    case Paren(_, _, _) =>
    case Postfix(x, op) =>
      FirstToken(x);
      assert Unparse(e)[0] == Unparse(x)[0];
  }

  /**
   * The round trip at every level: the routine of level `L`, given the
   * rendering of a tree that fits the level followed by tokens the level's
   * loop may see, parses exactly the tree and hands the tree's node to the
   * level's loop with the following tokens untouched.
   */
  lemma {:induction false} ParseUnparse(e: Expr, L: int, s: seq<Token>)
    requires 0 <= L <= 8 && Fits(e, L) && Cont(L, s)
    requires e.Span? ==> s[0].kind != Cln
    ensures Level(L, Unparse(e) + s) == Loop(L, ToNode(e), s)
    decreases e, 8 - L, 2
  {
    if L < ExprLevel(e) {
      Descend(e, L, s);
    } else {
      match e
      case Atom(_) => AtomCase(e, s);
      case Paren(_, _, _) => ParenCase(e, s);
      case Postfix(_, _) => PostfixCase(e, s);
      case Prefix(_, _) => PrefixCase(e, s);
      case Bin(_, _, _) => BinCase(e, s);
      case Span(_, _, _) => SpanCase(e, s);
      case Stepped(_, _, _, _, _) => SteppedCase(e, s);
    }
  }

  /** A tree tighter than the level: the next level parses it and its loop stops at once. */
  lemma {:induction false} Descend(e: Expr, L: int, s: seq<Token>)
    requires 0 <= L < ExprLevel(e) && Fits(e, L) && Cont(L, s)
    ensures Level(L, Unparse(e) + s) == Loop(L, ToNode(e), s)
    decreases e, 8 - L, 1
  {
    var ts := Unparse(e) + s;
    var n := ToNode(e);
    WellFormedLevel(e);
    ParseUnparse(e, L + 1, s);
    LoopStops(L + 1, n, s);
    if L == 6 {
      OpensWithPrimary(e, s);
    }
    LevelHandsOver(L, ts, n, s);
  }

  /** The same with tokens after it: such an expression does not open with a prefix operator. */
  lemma OpensWithPrimary(e: Expr, s: seq<Token>)
    requires WellFormed(e) && ExprLevel(e) >= 7
    ensures |Unparse(e) + s| > 0
    ensures (Unparse(e) + s)[0].kind != Add && (Unparse(e) + s)[0].kind != Lnt
  {
    FirstToken(e);
    assert (Unparse(e) + s)[0] == Unparse(e)[0];
  }

  /** Once the next level has parsed `root`, level `L` runs its own loop from it. */
  lemma LevelHandsOver(L: int, ts: seq<Token>, root: Node, s: seq<Token>)
    requires 0 <= L <= 7 && root.Node? && Level(L + 1, ts) == Step(Parsed(root), s)
    requires L == 6 ==> |ts| > 0 && ts[0].kind != Add && ts[0].kind != Lnt
    ensures Level(L, ts) == Loop(L, root, s)
  {
    if L == 0 {
      assert ColonExpression(ts) == ColonTail(root, s);
    } else if L <= 5 {
      assert Operand(L, ts) == Level(L + 1, ts);
      assert BinaryExpression(L, ts) == BinaryTail(L, root, s);
    } else if L == 6 {
      assert PrefixExpression(ts) == PostfixExpression(ts);
    } else {
      assert PostfixExpression(ts) == PostfixTail(root, s);
    }
  }

  lemma {:induction false} AtomCase(e: Expr, s: seq<Token>)
    requires e.Atom? && WellFormed(e) && Cont(8, s)
    ensures Level(8, Unparse(e) + s) == Loop(8, ToNode(e), s)
  {
    var ts := Unparse(e) + s;
    assert ts[0] == e.token && ts[1] == s[0] && ts[1..] == s;
    if e.token.kind == Identifier {
      assert IdentifierExpression(ts) == Step(Parsed(ToNode(e)), s);
    }
  }

  lemma {:induction false} ParenCase(e: Expr, s: seq<Token>)
    requires e.Paren? && WellFormed(e) && Cont(8, s)
    ensures Level(8, Unparse(e) + s) == Loop(8, ToNode(e), s)
    decreases e, 0, 1
  {
    var c := e.close;
    Assoc([e.open] + Unparse(e.inner), [c], s);
    Assoc([e.open], Unparse(e.inner), [c] + s);
    WellFormedLevel(e.inner);
    ParseUnparse(e.inner, 0, [c] + s);
    ParenCloses(e.open, Unparse(e.inner) + ([c] + s), ToNode(e.inner), c, s);
  }

  /** `( ... )`: the inner expression, then the `)` that closes it. */
  lemma ParenCloses(open: Token, tail: seq<Token>, node: Node, close: Token, s: seq<Token>)
    requires open.kind == LParen && close.kind == RParen
    requires ColonExpression(tail) == Step(Parsed(node), [close] + s)
    ensures PrimaryExpression([open] + tail) == Step(Parsed(node), s)
  {
    var ts := [open] + tail;
    assert ts[0] == open && ts[1..] == tail;
    assert ([close] + s)[0] == close && ([close] + s)[1..] == s;
    assert ParenExpression(ts) == Step(Parsed(node), s);
  }

  lemma {:induction false} PostfixCase(e: Expr, s: seq<Token>)
    requires e.Postfix? && WellFormed(e) && Cont(7, s)
    ensures Level(7, Unparse(e) + s) == Loop(7, ToNode(e), s)
    decreases e, 1, 1
  {
    var op := e.op;
    assert Unparse(e) + s == Unparse(e.operand) + ([op] + s);
    ParseUnparse(e.operand, 7, [op] + s);
    assert ([op] + s)[1..] == s;
  }

  lemma {:induction false} PrefixCase(e: Expr, s: seq<Token>)
    requires e.Prefix? && WellFormed(e) && Cont(6, s)
    ensures Level(6, Unparse(e) + s) == Loop(6, ToNode(e), s)
    decreases e, 2, 1
  {
    var ts := Unparse(e) + s;
    assert ts[0] == e.op && ts[1..] == Unparse(e.operand) + s;
    ParseUnparse(e.operand, 6, s);
  }

  lemma {:induction false} BinCase(e: Expr, s: seq<Token>)
    requires e.Bin? && WellFormed(e) && Cont(ExprLevel(e), s)
    ensures 1 <= ExprLevel(e) <= 5
    ensures Level(ExprLevel(e), Unparse(e) + s) == Loop(ExprLevel(e), ToNode(e), s)
    decreases e, 8 - ExprLevel(e), 1
  {
    var op, l, r := e.op, e.left, e.right;
    var lv := LoopLevel(op.kind);
    var s1 := [op] + (Unparse(r) + s);
    Assoc(Unparse(l) + [op], Unparse(r), s);
    Assoc(Unparse(l), [op], Unparse(r) + s);
    assert Unparse(e) + s == Unparse(l) + s1;
    ParseUnparse(l, lv, s1);
    LevelOperatorLevel(lv, op.kind);
    ParseUnparse(r, lv + 1, s);
    LoopStops(lv + 1, ToNode(r), s);
    BinaryTailTakes(lv, ToNode(l), op, Unparse(r) + s, ToNode(r), s);
  }

  /** One turn of a binary loop: the operator, then an operand from the next tighter level. */
  lemma BinaryTailTakes(lv: BinaryLevel, root: Node, op: Token, ts: seq<Token>, right: Node, s: seq<Token>)
    requires root.Node? && right.Node? && op.kind == LevelOperator(lv)
    requires Level(lv + 1, ts) == Step(Parsed(right), s)
    ensures BinaryTail(lv, root, [op] + ts) == BinaryTail(lv, Binary(op, root, right), s)
  {
    assert ([op] + ts)[0] == op && ([op] + ts)[1..] == ts;
    assert Operand(lv, ts) == Level(lv + 1, ts);
  }

  /** Removing the first token of `[t] + a + b`. */
  lemma DropHead(t: Token, a: seq<Token>, b: seq<Token>)
    ensures ([t] + a + b)[0] == t && ([t] + a + b)[1..] == a + b
  {
  }

  /** The colon loop over `:mid` when no second colon follows: a two-child CLN_EXP. */
  lemma ColonTailTwo(root: Node, c: Token, mid: seq<Token>, midNode: Node, s: seq<Token>)
    requires root.Node? && midNode.Node? && c.kind == Cln && |s| > 0 && s[0].kind != Cln
    requires BinaryExpression(1, mid + s) == Step(Parsed(midNode), s)
    ensures ColonTail(root, [c] + mid + s) == ColonTail(Node(ClnExp, Some(c.text), [root, midNode]), s)
  {
    DropHead(c, mid, s);
  }

  /** The colon loop over `:mid:high`: a three-child CLN_EXP with the second colon's text. */
  lemma ColonTailThree(root: Node, c1: Token, mid: seq<Token>, midNode: Node,
                       after: seq<Token>, highNode: Node, s: seq<Token>)
    requires root.Node? && midNode.Node? && highNode.Node?
    requires c1.kind == Cln && |after| > 0 && after[0].kind == Cln
    requires BinaryExpression(1, mid + after) == Step(Parsed(midNode), after)
    requires BinaryExpression(1, after[1..]) == Step(Parsed(highNode), s)
    ensures ColonTail(root, [c1] + mid + after)
         == ColonTail(Node(ClnExp, Some(after[0].text), [root, midNode, highNode]), s)
  {
    DropHead(c1, mid, after);
  }

  lemma {:induction false} SpanCase(e: Expr, s: seq<Token>)
    requires e.Span? && WellFormed(e) && Cont(0, s) && s[0].kind != Cln
    ensures Level(0, Unparse(e) + s) == Loop(0, ToNode(e), s)
    decreases e, 8, 1
  {
    var c, lo, hi := e.colon, e.low, e.high;
    var s1 := [c] + Unparse(hi) + s;
    assert Unparse(e) + s == Unparse(lo) + s1;
    ColonHeadWellFormed(lo);
    WellFormedLevel(lo);
    ParseUnparse(lo, 0, s1);
    ParseUnparse(hi, 1, s);
    LoopStops(1, ToNode(hi), s);
    ColonTailTwo(ToNode(lo), c, Unparse(hi), ToNode(hi), s);
  }

  lemma {:induction false} SteppedCase(e: Expr, s: seq<Token>)
    requires e.Stepped? && WellFormed(e) && Cont(0, s)
    ensures Level(0, Unparse(e) + s) == Loop(0, ToNode(e), s)
    decreases e, 8, 1
  {
    var c1, lo, c2, st, hi := e.colon, e.low, e.colon2, e.step, e.high;
    var s1 := [c1] + Unparse(st) + ([c2] + Unparse(hi) + s);
    assert Unparse(e) + s == Unparse(lo) + s1;
    ColonHeadWellFormed(lo);
    WellFormedLevel(lo);
    DropHead(c1, Unparse(st), [c2] + Unparse(hi) + s);
    ParseUnparse(lo, 0, s1);
    SteppedRest(e, s);
  }

  /** After the low part of `low:step:high`, the colon loop takes `:step:high` as one node. */
  lemma {:induction false} SteppedRest(e: Expr, s: seq<Token>)
    requires e.Stepped? && WellFormed(e) && Cont(0, s)
    ensures ColonTail(ToNode(e.low), [e.colon] + Unparse(e.step) + ([e.colon2] + Unparse(e.high) + s))
         == ColonTail(ToNode(e), s)
    decreases e, 8, 0
  {
    var s2 := [e.colon2] + Unparse(e.high) + s;
    DropHead(e.colon2, Unparse(e.high), s);
    ParseUnparse(e.step, 1, s2);
    LoopStops(1, ToNode(e.step), s2);
    ParseUnparse(e.high, 1, s);
    LoopStops(1, ToNode(e.high), s);
    ColonTailThree(ToNode(e.low), e.colon, Unparse(e.step), ToNode(e.step), s2, ToNode(e.high), s);
  }

  /**
   * parse_colon_expression is a left inverse of `Unparse`: for every
   * well-formed tree and every following token that no loop consumes, it
   * returns the tree's node and stops in front of that token.
   */
  lemma ColonRoundTrip(e: Expr, s: seq<Token>)
    requires WellFormed(e) && Stop(s)
    ensures ColonExpression(Unparse(e) + s) == Step(Parsed(ToNode(e)), s)
  {
    ParseUnparse(e, 0, s);
  }

  /** No token of a well-formed tree is an assignment operator. */
  lemma {:induction false} NoAssignmentToken(e: Expr)
    requires WellFormed(e)
    ensures forall k :: 0 <= k < |Unparse(e)| ==> Unparse(e)[k].kind != Ass
  {
    match e
    case Atom(_) =>
    case Paren(o, x, c) =>
      NoAssignmentToken(x);
      NoAssignmentInJoin([o], Unparse(x));
      NoAssignmentInJoin([o] + Unparse(x), [c]);
    case Postfix(x, op) =>
      NoAssignmentToken(x);
      NoAssignmentInJoin(Unparse(x), [op]);
    case Prefix(op, x) =>
      NoAssignmentToken(x);
      NoAssignmentInJoin([op], Unparse(x));
    case Bin(op, l, r) =>
      NoAssignmentToken(l); NoAssignmentToken(r);
      NoAssignmentInJoin(Unparse(l), [op]);
      NoAssignmentInJoin(Unparse(l) + [op], Unparse(r));
    case Span(c, lo, hi) =>
      ColonHeadWellFormed(lo);
      NoAssignmentToken(lo); NoAssignmentToken(hi);
      NoAssignmentInJoin(Unparse(lo), [c]);
      NoAssignmentInJoin(Unparse(lo) + [c], Unparse(hi));
    case Stepped(c1, lo, c2, st, hi) =>
      ColonHeadWellFormed(lo);
      NoAssignmentToken(lo); NoAssignmentToken(st); NoAssignmentToken(hi);
      NoAssignmentInJoin(Unparse(lo), [c1]);
      NoAssignmentInJoin(Unparse(lo) + [c1], Unparse(st));
      NoAssignmentInJoin(Unparse(lo) + [c1] + Unparse(st), [c2]);
      NoAssignmentInJoin(Unparse(lo) + [c1] + Unparse(st) + [c2], Unparse(hi));
  }

  lemma NoAssignmentInJoin(a: seq<Token>, b: seq<Token>)
    requires forall k :: 0 <= k < |a| ==> a[k].kind != Ass
    requires forall k :: 0 <= k < |b| ==> b[k].kind != Ass
    ensures forall k :: 0 <= k < |a + b| ==> (a + b)[k].kind != Ass
  {
  }

  /**
   * parse_expression on a tree that is not an assignment: the assignment
   * attempt gives up without consuming, and the colon expression returns
   * the tree's node.
   */
  lemma ExpressionRoundTrip(e: Expr, s: seq<Token>)
    requires WellFormed(e) && Stop(s) && s[0].kind != Ass
    ensures Expression(Unparse(e) + s) == Step(Parsed(ToNode(e)), s)
  {
    AssignmentGivesUp(e, s);
    ColonRoundTrip(e, s);
  }

  /** The assignment attempt on a tree that is not an assignment gives up without consuming. */
  lemma AssignmentGivesUp(e: Expr, s: seq<Token>)
    requires WellFormed(e) && |s| > 0 && s[0].kind != Ass
    ensures AssignmentExpression(Unparse(e) + s) == Step(Absent, Unparse(e) + s)
  {
    var ts := Unparse(e) + s;
    NoAssignmentToken(e);
    if ts[0].kind == Identifier {
      if |Unparse(e)| == 1 {
        assert ts[1] == s[0];
      } else {
        assert ts[1] == Unparse(e)[1];
      }
    }
  }

  /** `name = e`: the assignment routine builds its node from the target and the parsed right side. */
  lemma AssignmentParses(name: Token, eq: Token, e: Expr, s: seq<Token>)
    requires name.kind == Identifier && eq.kind == Ass && WellFormed(e) && Stop(s)
    ensures AssignmentExpression([name, eq] + (Unparse(e) + s))
         == Step(Parsed(Node(AssExp, Some(eq.text), [Leaf(IdentifierExp, name.text), ToNode(e)])), s)
  {
    var ts := [name, eq] + (Unparse(e) + s);
    assert ts[0] == name && ts[1] == eq && ts[2..] == Unparse(e) + s;
    ColonRoundTrip(e, s);
  }

  /**
   * parse_expression on `name = tree`: an ASS_EXP whose text is the
   * operator's, with the target identifier and the tree's node as children.
   */
  lemma AssignmentRoundTrip(name: Token, eq: Token, e: Expr, s: seq<Token>)
    requires name.kind == Identifier && eq.kind == Ass && WellFormed(e) && Stop(s)
    ensures Expression([name, eq] + Unparse(e) + s)
         == Step(Parsed(Node(AssExp, Some(eq.text), [Leaf(IdentifierExp, name.text), ToNode(e)])), s)
  {
    assert [name, eq] + Unparse(e) + s == [name, eq] + (Unparse(e) + s);
    AssignmentParses(name, eq, e, s);
  }
}
