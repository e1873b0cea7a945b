/**
 * How the parser groups operators, for all operands and all operator tokens
 * of the named categories: each lemma is an instance of the round trip of
 * module Precedence.
 */
module Grouping {
  import opened Wrappers
  import opened Syntax
  import opened Sequences
  import opened Expressions
  import opened Precedence

  /** Two operators of one binary level group to the left: `x op1 y op2 z` is `(x op1 y) op2 z`. */
  lemma LeftAssociative(x: Expr, op1: Token, y: Expr, op2: Token, z: Expr, s: seq<Token>)
    requires 1 <= LoopLevel(op1.kind) <= 5 && op2.kind == op1.kind
    requires Fits(x, LoopLevel(op1.kind) + 1) && Fits(y, LoopLevel(op1.kind) + 1)
    requires Fits(z, LoopLevel(op1.kind) + 1) && Stop(s)
    ensures ColonExpression(Unparse(x) + [op1] + Unparse(y) + [op2] + Unparse(z) + s)
         == Step(Parsed(Binary(op2, Binary(op1, ToNode(x), ToNode(y)), ToNode(z))), s)
  {
    var e := Bin(op2, Bin(op1, x, y), z);
    assert Fits(Bin(op1, x, y), LoopLevel(op1.kind));
    assert WellFormed(e);
    assert Unparse(e) + s == Unparse(x) + [op1] + Unparse(y) + [op2] + Unparse(z) + s;
    ColonRoundTrip(e, s);
  }

  /**
   * A tighter operator on the right binds first: `x lo y hi z` is
   * `x lo (y hi z)` when `hi`'s level is tighter than `lo`'s.
   */
  lemma TighterOnTheRight(x: Expr, lo: Token, y: Expr, hi: Token, z: Expr, s: seq<Token>)
    requires 1 <= LoopLevel(lo.kind) < LoopLevel(hi.kind) <= 5
    requires Fits(x, 6) && Fits(y, 6) && Fits(z, 6) && Stop(s)
    ensures ColonExpression(Unparse(x) + [lo] + Unparse(y) + [hi] + Unparse(z) + s)
         == Step(Parsed(Binary(lo, ToNode(x), Binary(hi, ToNode(y), ToNode(z)))), s)
  {
    var e := Bin(lo, x, Bin(hi, y, z));
    assert Fits(Bin(hi, y, z), LoopLevel(lo.kind) + 1);
    assert WellFormed(e);
    RightNested(x, lo, y, hi, z, s);
    ColonRoundTrip(e, s);
  }

  /** The tokens of `x lo (y hi z)` are those of `x lo y hi z`. */
  lemma RightNested(x: Expr, lo: Token, y: Expr, hi: Token, z: Expr, s: seq<Token>)
    ensures Unparse(Bin(lo, x, Bin(hi, y, z))) + s == Unparse(x) + [lo] + Unparse(y) + [hi] + Unparse(z) + s
  {
    Regroup4(Unparse(x), [lo], Unparse(y), [hi], Unparse(z));
  }

  /** A tighter operator on the left binds first: `x hi y lo z` is `(x hi y) lo z`. */
  lemma TighterOnTheLeft(x: Expr, hi: Token, y: Expr, lo: Token, z: Expr, s: seq<Token>)
    requires 1 <= LoopLevel(lo.kind) < LoopLevel(hi.kind) <= 5
    requires Fits(x, 6) && Fits(y, 6) && Fits(z, 6) && Stop(s)
    ensures ColonExpression(Unparse(x) + [hi] + Unparse(y) + [lo] + Unparse(z) + s)
         == Step(Parsed(Binary(lo, Binary(hi, ToNode(x), ToNode(y)), ToNode(z))), s)
  {
    var e := Bin(lo, Bin(hi, x, y), z);
    assert Fits(Bin(hi, x, y), LoopLevel(lo.kind));
    assert WellFormed(e);
    assert Unparse(e) + s == Unparse(x) + [hi] + Unparse(y) + [lo] + Unparse(z) + s;
    ColonRoundTrip(e, s);
  }

  /**
   * Parentheses override precedence and leave no node: `(g) op z` has the
   * parenthesised tree as left operand whatever its own operators are.
   */
  lemma ParenthesesGroup(open: Token, g: Expr, close: Token, op: Token, z: Expr, s: seq<Token>)
    requires open.kind == LParen && close.kind == RParen && 1 <= LoopLevel(op.kind) <= 5
    requires WellFormed(g) && Fits(z, LoopLevel(op.kind) + 1) && Stop(s)
    ensures ColonExpression([open] + Unparse(g) + [close, op] + Unparse(z) + s)
         == Step(Parsed(Binary(op, ToNode(g), ToNode(z))), s)
  {
    var p := Paren(open, g, close);
    var e := Bin(op, p, z);
    assert Unparse(p) + [op] == [open] + Unparse(g) + [close, op];
    ColonRoundTrip(e, s);
  }

  /** Prefix operators nest to the right: `op1 op2 x` is `op1 (op2 x)`. */
  lemma PrefixNestsRight(op1: Token, op2: Token, x: Expr, s: seq<Token>)
    requires (op1.kind == Add || op1.kind == Lnt) && (op2.kind == Add || op2.kind == Lnt)
    requires Fits(x, 6) && Stop(s)
    ensures ColonExpression([op1, op2] + Unparse(x) + s)
         == Step(Parsed(Node(UopExp, Some(op1.text), [Node(UopExp, Some(op2.text), [ToNode(x)])])), s)
  {
    var inner := Prefix(op2, x);
    var e := Prefix(op1, inner);
    assert WellFormed(inner) && ExprLevel(inner) == 6;
    assert WellFormed(e);
    assert [op1] + [op2] == [op1, op2];
    Assoc([op1], [op2], Unparse(x));
    assert Unparse(e) == [op1, op2] + Unparse(x);
    assert ToNode(e) == Node(UopExp, Some(op1.text), [Node(UopExp, Some(op2.text), [ToNode(x)])]);
    ColonRoundTrip(e, s);
  }

  /** Postfix operators wrap in order: `x op1 op2` is `(x op1) op2`. */
  lemma PostfixWraps(x: Expr, op1: Token, op2: Token, s: seq<Token>)
    requires (op1.kind == Tra || op1.kind == Nct) && (op2.kind == Tra || op2.kind == Nct)
    requires Fits(x, 7) && Stop(s)
    ensures ColonExpression(Unparse(x) + [op1, op2] + s)
         == Step(Parsed(Node(UopExp, Some(op2.text), [Node(UopExp, Some(op1.text), [ToNode(x)])])), s)
  {
    var inner := Postfix(x, op1);
    var e := Postfix(inner, op2);
    assert WellFormed(inner) && ExprLevel(inner) == 7;
    assert WellFormed(e);
    assert [op1] + [op2] == [op1, op2];
    Assoc(Unparse(x), [op1], [op2]);
    assert Unparse(e) == Unparse(x) + [op1, op2];
    assert ToNode(e) == Node(UopExp, Some(op2.text), [Node(UopExp, Some(op1.text), [ToNode(x)])]);
    ColonRoundTrip(e, s);
  }

  /** A postfix operator binds tighter than a prefix one: `pre x post` is `pre (x post)`. */
  lemma PostfixInsidePrefix(pre: Token, x: Expr, post: Token, s: seq<Token>)
    requires (pre.kind == Add || pre.kind == Lnt) && (post.kind == Tra || post.kind == Nct)
    requires Fits(x, 7) && Stop(s)
    ensures ColonExpression([pre] + Unparse(x) + [post] + s)
         == Step(Parsed(Node(UopExp, Some(pre.text), [Node(UopExp, Some(post.text), [ToNode(x)])])), s)
  {
    var inner := Postfix(x, post);
    var e := Prefix(pre, inner);
    assert WellFormed(inner) && ExprLevel(inner) == 7;
    assert WellFormed(e);
    Assoc([pre], Unparse(x), [post]);
    assert Unparse(e) == [pre] + Unparse(x) + [post];
    assert ToNode(e) == Node(UopExp, Some(pre.text), [Node(UopExp, Some(post.text), [ToNode(x)])]);
    ColonRoundTrip(e, s);
  }

  /** A prefix `-` on the right of a binary operator: `x op - y` is `x op (-y)`. */
  lemma PrefixAfterBinary(x: Expr, op: Token, pre: Token, y: Expr, s: seq<Token>)
    requires 1 <= LoopLevel(op.kind) <= 5 && (pre.kind == Add || pre.kind == Lnt)
    requires Fits(x, LoopLevel(op.kind)) && Fits(y, 6) && Stop(s)
    ensures ColonExpression(Unparse(x) + [op, pre] + Unparse(y) + s)
         == Step(Parsed(Binary(op, ToNode(x), Node(UopExp, Some(pre.text), [ToNode(y)]))), s)
  {
    var right := Prefix(pre, y);
    var e := Bin(op, x, right);
    assert WellFormed(right) && ExprLevel(right) == 6;
    assert WellFormed(e);
    assert [op] + [pre] == [op, pre];
    Assoc(Unparse(x), [op], [pre]);
    Assoc(Unparse(x) + [op], [pre], Unparse(y));
    assert Unparse(e) == Unparse(x) + [op, pre] + Unparse(y);
    assert ToNode(e) == Binary(op, ToNode(x), Node(UopExp, Some(pre.text), [ToNode(y)]));
    ColonRoundTrip(e, s);
  }

  /** `x:y` is a CLN_EXP with two children and the colon's text. */
  lemma ColonTwoParts(x: Expr, c: Token, y: Expr, s: seq<Token>)
    requires c.kind == Cln && Fits(x, 1) && Fits(y, 1) && Stop(s)
    ensures ColonExpression(Unparse(x) + [c] + Unparse(y) + s)
         == Step(Parsed(Node(ClnExp, Some(c.text), [ToNode(x), ToNode(y)])), s)
  {
    var e := Span(c, x, y);
    assert WellFormed(e);
    assert Unparse(e) + s == Unparse(x) + [c] + Unparse(y) + s;
    assert ToNode(e) == Node(ClnExp, Some(c.text), [ToNode(x), ToNode(y)]);
    ColonRoundTrip(e, s);
  }

  /** `x:y:z` is one CLN_EXP with three children and the text of the second colon. */
  lemma ColonThreeParts(x: Expr, c1: Token, y: Expr, c2: Token, z: Expr, s: seq<Token>)
    requires c1.kind == Cln && c2.kind == Cln && Fits(x, 1) && Fits(y, 1) && Fits(z, 1) && Stop(s)
    ensures ColonExpression(Unparse(x) + [c1] + Unparse(y) + [c2] + Unparse(z) + s)
         == Step(Parsed(Node(ClnExp, Some(c2.text), [ToNode(x), ToNode(y), ToNode(z)])), s)
  {
    var e := Stepped(c1, x, c2, y, z);
    assert WellFormed(e);
    assert Unparse(e) + s == Unparse(x) + [c1] + Unparse(y) + [c2] + Unparse(z) + s;
    assert ToNode(e) == Node(ClnExp, Some(c2.text), [ToNode(x), ToNode(y), ToNode(z)]);
    ColonRoundTrip(e, s);
  }

  /**
   * Colon expressions chain to the left, three parts first:
   * `w:x:y:z` is `(w:x:y):z`.
   */
  lemma ColonChain(w: Expr, c1: Token, x: Expr, c2: Token, y: Expr, c3: Token, z: Expr, s: seq<Token>)
    requires c1.kind == Cln && c2.kind == Cln && c3.kind == Cln
    requires Fits(w, 1) && Fits(x, 1) && Fits(y, 1) && Fits(z, 1) && Stop(s)
    ensures ColonExpression(Unparse(w) + [c1] + Unparse(x) + [c2] + Unparse(y) + [c3] + Unparse(z) + s)
         == Step(Parsed(Node(ClnExp, Some(c3.text),
                             [Node(ClnExp, Some(c2.text), [ToNode(w), ToNode(x), ToNode(y)]), ToNode(z)])), s)
  {
    var head := Stepped(c1, w, c2, x, y);
    var e := Span(c3, head, z);
    assert WellFormed(head) && ColonHead(head);
    assert WellFormed(e);
    assert Unparse(e) + s == Unparse(w) + [c1] + Unparse(x) + [c2] + Unparse(y) + [c3] + Unparse(z) + s;
    var n := Node(ClnExp, Some(c2.text), [ToNode(w), ToNode(x), ToNode(y)]);
    assert ToNode(head) == n;
    assert ToNode(e) == Node(ClnExp, Some(c3.text), [n, ToNode(z)]);
    ColonRoundTrip(e, s);
  }
}
