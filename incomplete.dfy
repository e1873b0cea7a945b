/**
 * An expression routine that misses a required part returns None, not a
 * partial node: the operand after a binary operator, a prefix operator or a
 * colon, and the `)` of a parenthesised expression. The tokens already
 * taken stay consumed; the routine stops in front of the token where the
 * missing part should start.
 */
module Incomplete {
  import opened Wrappers
  import opened Syntax
  import opened Sequences
  import opened Expressions
  import opened Precedence
  import opened StatementFacts

  /** The operand after a binary operator is missing: the level's loop returns None. */
  lemma RightOperandMissing(lv: BinaryLevel, root: Node, op: Token, t: Token, r: seq<Token>)
    requires root.Node? && op.kind == LevelOperator(lv) && StartsNoExpression(t.kind)
    ensures BinaryTail(lv, root, [op, t] + r) == Step(Absent, [t] + r)
  {
    var ts := [op, t] + r;
    assert ts[1..] == [t] + r;
    if lv == 5 {
      PrefixGivesUp([t] + r);
    } else {
      BinaryGivesUp(lv + 1, [t] + r);
    }
  }

  /** `x op` followed by a token that starts no expression: the binary routine returns None. */
  lemma BinaryUnfinished(lv: BinaryLevel, x: Expr, op: Token, t: Token, r: seq<Token>)
    requires Fits(x, lv) && op.kind == LevelOperator(lv) && StartsNoExpression(t.kind)
    ensures BinaryExpression(lv, Unparse(x) + ([op, t] + r)) == Step(Absent, [t] + r)
  {
    LevelOperatorLevel(lv, op.kind);
    ParseUnparse(x, lv, [op, t] + r);
    RightOperandMissing(lv, ToNode(x), op, t, r);
  }

  /** A prefix operator with no operand: the prefix routine returns None. */
  lemma PrefixOperandMissing(op: Token, t: Token, r: seq<Token>)
    requires (op.kind == Add || op.kind == Lnt) && StartsNoExpression(t.kind)
    ensures PrefixExpression([op, t] + r) == Step(Absent, [t] + r)
  {
    var ts := [op, t] + r;
    assert ts[1..] == [t] + r;
    PrefixGivesUp([t] + r);
  }

  /** The operand after a colon is missing: the colon loop returns None. */
  lemma ColonOperandMissing(root: Node, c: Token, t: Token, r: seq<Token>)
    requires root.Node? && c.kind == Cln && StartsNoExpression(t.kind)
    ensures ColonTail(root, [c, t] + r) == Step(Absent, [t] + r)
  {
    var ts := [c, t] + r;
    assert ts[1..] == [t] + r;
    BinaryGivesUp(1, [t] + r);
  }

  /** `x:` followed by a token that starts no expression: parse_colon_expression returns None. */
  lemma ColonUnfinished(x: Expr, c: Token, t: Token, r: seq<Token>)
    requires Fits(x, 1) && c.kind == Cln && StartsNoExpression(t.kind)
    ensures ColonExpression(Unparse(x) + ([c, t] + r)) == Step(Absent, [t] + r)
  {
    ParseUnparse(x, 1, [c, t] + r);
    LoopStops(1, ToNode(x), [c, t] + r);
    ColonOperandMissing(ToNode(x), c, t, r);
  }

  /** The third operand of `a:b:` is missing: the colon loop returns None. */
  lemma ThirdOperandMissing(root: Node, c1: Token, x: Expr, c2: Token, t: Token, r: seq<Token>)
    requires root.Node? && c1.kind == Cln && c2.kind == Cln && Fits(x, 1) && StartsNoExpression(t.kind)
    ensures ColonTail(root, [c1] + Unparse(x) + ([c2, t] + r)) == Step(Absent, [t] + r)
  {
    var after := [c2, t] + r;
    Assoc([c1], Unparse(x), after);
    ParseUnparse(x, 1, after);
    LoopStops(1, ToNode(x), after);
    ThirdGivesUp(root, c1, Unparse(x) + after, ToNode(x), c2, t, r);
  }

  /** The colon loop after `:b:` when no third operand follows. */
  lemma ThirdGivesUp(root: Node, c1: Token, tail: seq<Token>, mid: Node, c2: Token, t: Token, r: seq<Token>)
    requires root.Node? && mid.Node? && c1.kind == Cln && c2.kind == Cln && StartsNoExpression(t.kind)
    requires BinaryExpression(1, tail) == Step(Parsed(mid), [c2, t] + r)
    ensures ColonTail(root, [c1] + tail) == Step(Absent, [t] + r)
  {
    assert ([c2, t] + r)[1..] == [t] + r;
    BinaryGivesUp(1, [t] + r);
    assert ([c1] + tail)[0] == c1 && ([c1] + tail)[1..] == tail;
  }

  /** parse_primary_expression hands a `(` to parse_paren_expression. */
  lemma PrimaryParen(ts: seq<Token>)
    requires |ts| > 0 && ts[0].kind == LParen
    ensures PrimaryExpression(ts) == ParenExpression(ts)
  {
  }

  /** `(` with no expression inside: parse_paren_expression returns None. */
  lemma ParenEmpty(open: Token, t: Token, r: seq<Token>)
    requires open.kind == LParen && StartsNoExpression(t.kind)
    ensures PrimaryExpression([open, t] + r) == Step(Absent, [t] + r)
  {
    var ts := [open, t] + r;
    assert ts[0] == open && ts[1..] == [t] + r;
    BinaryGivesUp(1, [t] + r);
    assert ColonExpression([t] + r) == Step(Absent, [t] + r);
    PrimaryParen(ts);
  }

  /**
   * `(` and a complete expression, but the next token is not `)`:
   * parse_paren_expression returns None in front of that token.
   */
  lemma ParenUnclosed(open: Token, e: Expr, t: Token, r: seq<Token>)
    requires open.kind == LParen && WellFormed(e) && t.kind != RParen && Stop([t] + r)
    ensures PrimaryExpression([open] + Unparse(e) + ([t] + r)) == Step(Absent, [t] + r)
  {
    var ts := [open] + Unparse(e) + ([t] + r);
    Assoc([open], Unparse(e), [t] + r);
    assert ts[1..] == Unparse(e) + ([t] + r);
    ColonRoundTrip(e, [t] + r);
    PrimaryParen(ts);
  }
}
