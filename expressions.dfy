/**
 * The expression chain of the parser as functions that take the remaining
 * tokens and return a `Step`: the outcome together with the tokens left.
 * Each function follows one routine of the parser branch by branch; a lookahead
 * that has run out where the routine calls `.get_type()` on it is a `Crash`.
 *
 * Precedence levels, loosest first: colon, then the binary levels
 * 1 `||`, 2 `&&`, 3 relational, 4 additive, 5 multiplicative, then prefix,
 * postfix and primary. There is no equality level.
 */
module Expressions {
  import opened Wrappers
  import opened Syntax

  /** The binary levels of the chain: 1 `||` ... 5 multiplicative. */
  type BinaryLevel = lv: nat | 1 <= lv <= 5 witness 1

  /** The operator category that each binary level loops on. */
  function LevelOperator(lv: BinaryLevel): TokenKind
  {
    match lv
    case 1 => Lor
    case 2 => Lan
    case 3 => Rel
    case 4 => Add
    case 5 => Mul
  }

  /**
   * What every expression routine guarantees: it only removes tokens from the
   * front, it never raises a syntactic error nor loops, and a node it returns
   * is a real node built after consuming at least one token.
   */
  predicate ExprStep(ts: seq<Token>, s: Step)
  {
    && IsSuffix(s.rest, ts)
    && (s.out.Parsed? || s.out.Absent? || s.out.Crash?)
    && (s.out.Parsed? ==> |s.rest| < |ts| && s.out.node.Node?)
  }

  /** The same for the `while` loop of a routine, which may stop without consuming. */
  predicate TailStep(ts: seq<Token>, s: Step)
  {
    && IsSuffix(s.rest, ts)
    && (s.out.Parsed? || s.out.Absent? || s.out.Crash?)
    && (s.out.Parsed? ==> s.out.node.Node?)
  }

  /** A binary-operation node. */
  function Binary(op: Token, left: Node, right: Node): Node
  {
    Node(BopExp, Some(op.text), [left, right])
  }

  /** parse_expression: an assignment if there is one, otherwise a colon expression. */
  function Expression(ts: seq<Token>): (s: Step)
    decreases |ts|, 30
    ensures ExprStep(ts, s)
  {
    var a := AssignmentExpression(ts);
    if a.out.Parsed? || a.out.Crash? then a
    else
      var c := ColonExpression(a.rest);
      SuffixTransitive(c.rest, a.rest, ts);
      c
  }

  /**
   * parse_assignment_expression: only when the current token is an identifier
   * and the next one an assignment operator; then a colon expression follows.
   */
  function AssignmentExpression(ts: seq<Token>): (s: Step)
    decreases |ts|, 1
    ensures ExprStep(ts, s)
  {
    if |ts| == 0 then Step(Crash, ts)
    else if ts[0].kind != Identifier then Step(Absent, ts)
    else if |ts| < 2 then Step(Crash, ts)
    else if ts[1].kind != Ass then Step(Absent, ts)
    else
      var e := ColonExpression(ts[2..]);
      SuffixTransitive(e.rest, ts[2..], ts);
      if !e.out.Parsed? then e
      else
        var target := Leaf(IdentifierExp, ts[0].text);
        Step(Parsed(Node(AssExp, Some(ts[1].text), [target, e.out.node])), e.rest)
  }

  /** parse_colon_expression: a `||` operand followed by the colon loop. */
  function ColonExpression(ts: seq<Token>): (s: Step)
    decreases |ts|, 24
    ensures ExprStep(ts, s)
  {
    var first := BinaryExpression(1, ts);
    if !first.out.Parsed? then first
    else
      var s := ColonTail(first.out.node, first.rest);
      SuffixTransitive(s.rest, first.rest, ts);
      s
  }

  /**
   * The loop of parse_colon_expression: `:b` makes `[root, b]`, `:b:c` makes
   * `[root, b, c]`; the node takes the text of the last colon consumed.
   */
  function ColonTail(root: Node, ts: seq<Token>): (s: Step)
    requires root.Node?
    decreases |ts|, 23
    ensures TailStep(ts, s)
  {
    if |ts| == 0 then Step(Crash, ts)
    else if ts[0].kind != Cln then Step(Parsed(root), ts)
    else
      var mid := BinaryExpression(1, ts[1..]);
      SuffixTransitive(mid.rest, ts[1..], ts);
      if !mid.out.Parsed? then mid
      else if |mid.rest| == 0 then Step(Crash, mid.rest)
      else if mid.rest[0].kind == Cln then
        var last := BinaryExpression(1, mid.rest[1..]);
        SuffixTransitive(last.rest, mid.rest[1..], mid.rest);
        SuffixTransitive(last.rest, mid.rest, ts);
        if !last.out.Parsed? then last
        else
          var node := Node(ClnExp, Some(mid.rest[0].text), [root, mid.out.node, last.out.node]);
          var s := ColonTail(node, last.rest);
          SuffixTransitive(s.rest, last.rest, ts);
          s
      else
        var s := ColonTail(Node(ClnExp, Some(ts[0].text), [root, mid.out.node]), mid.rest);
        SuffixTransitive(s.rest, mid.rest, ts);
        s
  }

  /** The next tighter level's routine: the next binary level, or prefix after level 5. */
  function Operand(lv: BinaryLevel, ts: seq<Token>): (s: Step)
    decreases |ts|, 3 * (6 - lv) + 3
    ensures ExprStep(ts, s)
  {
    if lv == 5 then PrefixExpression(ts) else BinaryExpression(lv + 1, ts)
  }

  /**
   * parse_logic_or_expression ... parse_multiplicative_expression: an operand
   * of the next tighter level followed by the level's loop.
   */
  function BinaryExpression(lv: BinaryLevel, ts: seq<Token>): (s: Step)
    decreases |ts|, 3 * (6 - lv) + 5
    ensures ExprStep(ts, s)
  {
    var first := Operand(lv, ts);
    if !first.out.Parsed? then first
    else
      var s := BinaryTail(lv, first.out.node, first.rest);
      SuffixTransitive(s.rest, first.rest, ts);
      s
  }

  /** The loop of a binary level: each operator makes the tree so far the left child. */
  function BinaryTail(lv: BinaryLevel, root: Node, ts: seq<Token>): (s: Step)
    requires root.Node?
    decreases |ts|, 3 * (6 - lv) + 4
    ensures TailStep(ts, s)
  {
    if |ts| == 0 then Step(Crash, ts)
    else if ts[0].kind != LevelOperator(lv) then Step(Parsed(root), ts)
    else
      var right := Operand(lv, ts[1..]);
      SuffixTransitive(right.rest, ts[1..], ts);
      if !right.out.Parsed? then right
      else
        var s := BinaryTail(lv, Binary(ts[0], root, right.out.node), right.rest);
        SuffixTransitive(s.rest, right.rest, ts);
        s
  }

  /** parse_prefix_expression: `+`, `-` and logical-not nest to the right. */
  function PrefixExpression(ts: seq<Token>): (s: Step)
    decreases |ts|, 5
    ensures ExprStep(ts, s)
  {
    if |ts| == 0 then Step(Crash, ts)
    else if ts[0].kind == Add || ts[0].kind == Lnt then
      var operand := PrefixExpression(ts[1..]);
      SuffixTransitive(operand.rest, ts[1..], ts);
      if !operand.out.Parsed? then operand
      else Step(Parsed(Node(UopExp, Some(ts[0].text), [operand.out.node])), operand.rest)
    else PostfixExpression(ts)
  }

  /** parse_postfix_expression: a primary followed by any number of TRA/NCT operators. */
  function PostfixExpression(ts: seq<Token>): (s: Step)
    decreases |ts|, 4
    ensures ExprStep(ts, s)
  {
    var p := PrimaryExpression(ts);
    if !p.out.Parsed? then p
    else
      var s := PostfixTail(p.out.node, p.rest);
      SuffixTransitive(s.rest, p.rest, ts);
      s
  }

  /** The loop of parse_postfix_expression: each operator wraps the tree so far. */
  function PostfixTail(root: Node, ts: seq<Token>): (s: Step)
    requires root.Node?
    decreases |ts|
    ensures TailStep(ts, s)
  {
    if |ts| == 0 then Step(Crash, ts)
    else if ts[0].kind == Tra || ts[0].kind == Nct then
      var s := PostfixTail(Node(UopExp, Some(ts[0].text), [root]), ts[1..]);
      SuffixTransitive(s.rest, ts[1..], ts);
      s
    else Step(Parsed(root), ts)
  }

  /**
   * parse_primary_expression with its dispatch table: identifiers, the three
   * literal kinds, parentheses and brackets; any other category is Absent.
   * String literals lose every surrounding `"`, char vectors every surrounding `'`.
   */
  function PrimaryExpression(ts: seq<Token>): (s: Step)
    decreases |ts|, 3
    ensures ExprStep(ts, s)
  {
    if |ts| == 0 then Step(Absent, ts)
    else
      TailIsSuffix(ts);
      match ts[0].kind
      case Identifier => IdentifierExpression(ts)
      case NumberLit | StringLit | VectorLit => LiteralExpression(ts)
      case LParen => ParenExpression(ts)
      case LBracket => BracketExpression(ts)
      case _ => Step(Absent, ts)
  }

  /**
   * parse_number_literal, parse_string_literal and parse_vector_literal: one
   * leaf for the literal token, whose text keeps a number as written and loses
   * the quotes around a string or a char vector.
   */
  function LiteralExpression(ts: seq<Token>): (s: Step)
    requires |ts| > 0 && (ts[0].kind == NumberLit || ts[0].kind == StringLit || ts[0].kind == VectorLit)
    ensures ExprStep(ts, s) && s.rest == ts[1..] && s.out.Parsed?
    ensures ts[0].kind == NumberLit ==> s.out.node == Leaf(NumberLitExp, ts[0].text)
  {
    TailIsSuffix(ts);
    if ts[0].kind == NumberLit then Step(Parsed(Leaf(NumberLitExp, ts[0].text)), ts[1..])
    else if ts[0].kind == StringLit then Step(Parsed(Leaf(StringLitExp, Strip(ts[0].text, '"'))), ts[1..])
    else Step(Parsed(Leaf(VectorLitExp, Strip(ts[0].text, '\''))), ts[1..])
  }

  /** parse_identifier_expression: an indexing expression when `(` follows, else the identifier. */
  function IdentifierExpression(ts: seq<Token>): (s: Step)
    requires |ts| > 0
    decreases |ts|, 2
    ensures ExprStep(ts, s)
  {
    if |ts| < 2 then Step(Crash, ts)
    else if ts[1].kind == LParen then ArrayExpression(ts)
    else Step(Parsed(Leaf(IdentifierExp, ts[0].text)), ts[1..])
  }

  /** parse_paren_expression: the inner node itself, with no wrapper. */
  function ParenExpression(ts: seq<Token>): (s: Step)
    requires |ts| > 0
    decreases |ts|, 1
    ensures ExprStep(ts, s)
  {
    var inner := ColonExpression(ts[1..]);
    SuffixTransitive(inner.rest, ts[1..], ts);
    if !inner.out.Parsed? then inner
    else if |inner.rest| == 0 then Step(Crash, inner.rest)
    else if inner.rest[0].kind == RParen then Step(inner.out, inner.rest[1..])
    else Step(Absent, inner.rest)
  }

  /** parse_bracket_expression: the array list, which must be closed by `]`. */
  function BracketExpression(ts: seq<Token>): (s: Step)
    requires |ts| > 0
    decreases |ts|, 1
    ensures ExprStep(ts, s)
  {
    var list := ArrayList(ts[1..]);
    SuffixTransitive(list.rest, ts[1..], ts);
    if !list.out.Parsed? then list
    else if |list.rest| == 0 then Step(Crash, list.rest)
    else if list.rest[0].kind == RBracket then Step(list.out, list.rest[1..])
    else Step(Absent, list.rest)
  }

  /** parse_array_list: colon expressions, each followed by its EO_STMT nodes, up to `]`. */
  function ArrayList(ts: seq<Token>): (s: Step)
    decreases |ts|, 26
    ensures TailStep(ts, s)
  {
    ArrayListTail([], ts)
  }

  /** The loop of parse_array_list, with the children collected so far. */
  function ArrayListTail(items: seq<Node>, ts: seq<Token>): (s: Step)
    decreases |ts|, 25
    ensures TailStep(ts, s)
  {
    if |ts| == 0 then Step(Crash, ts)
    else if ts[0].kind == RBracket then Step(Parsed(Node(ArrayListExp, None, items)), ts)
    else
      var item := ColonExpression(ts);
      if !item.out.Parsed? then item
      else
        var (marks, rest) := EoStmtRun(item.rest);
        SuffixTransitive(rest, item.rest, ts);
        if |rest| == 0 then Step(Crash, rest)
        else
          var s := ArrayListTail(items + [item.out.node] + marks, rest);
          SuffixTransitive(s.rest, rest, ts);
          s
  }

  /**
   * The inner loop of parse_array_list: consumes the EO_STMT tokens at the
   * front and returns one EO_STMT node per token, carrying its text.
   */
  function EoStmtRun(ts: seq<Token>): (r: (seq<Node>, seq<Token>))
    ensures IsSuffix(r.1, ts)
    ensures r.1 == [] || r.1[0].kind != EoStmt
    ensures |r.0| == |ts| - |r.1|
    ensures forall k :: 0 <= k < |r.0| ==> ts[k].kind == EoStmt && r.0[k] == Leaf(EoStmtMark, ts[k].text)
  {
    if |ts| > 0 && ts[0].kind == EoStmt then
      var (marks, rest) := EoStmtRun(ts[1..]);
      TailIsSuffix(ts);
      SuffixTransitive(rest, ts[1..], ts);
      var r := ([Leaf(EoStmtMark, ts[0].text)] + marks, rest);
      assert forall k :: 1 <= k < |r.0| ==> r.0[k] == marks[k - 1] && ts[k] == ts[1..][k - 1];
      r
    else ([], ts)
  }

  /** One EO_STMT token taken off the front of a run. */
  lemma EoStmtRunPop(ts: seq<Token>)
    requires |ts| > 0 && ts[0].kind == EoStmt
    ensures EoStmtRun(ts) == ([Leaf(EoStmtMark, ts[0].text)] + EoStmtRun(ts[1..]).0, EoStmtRun(ts[1..]).1)
  {
  }

  /** parse_array_expression: `name(` index list `)` as `[IDENTIFIER_EXP, INDEX_LIST_EXP]`. */
  function ArrayExpression(ts: seq<Token>): (s: Step)
    requires |ts| >= 2
    decreases |ts|, 1
    ensures ExprStep(ts, s)
  {
    var list := IndexList(ts[2..]);
    SuffixTransitive(list.rest, ts[2..], ts);
    if !list.out.Parsed? then list
    else if |list.rest| == 0 then Step(Crash, list.rest)
    else if list.rest[0].kind == RParen then
      var root := Node(IndexingExp, None, [Leaf(IdentifierExp, ts[0].text), list.out.node]);
      Step(Parsed(root), list.rest[1..])
    else Step(Absent, list.rest)
  }

  /**
   * parse_index_list: comma-separated entries, each a bare `:` (a childless
   * CLN_EXP) or a colon expression.
   */
  function IndexList(ts: seq<Token>): (s: Step)
    decreases |ts|, 26
    ensures ExprStep(ts, s)
  {
    IndexListTail([], ts)
  }

  /** The loop of parse_index_list, with the children collected so far. */
  function IndexListTail(items: seq<Node>, ts: seq<Token>): (s: Step)
    decreases |ts|, 25
    ensures ExprStep(ts, s)
  {
    if |ts| == 0 then Step(Crash, ts)
    else
      var item :=
        if ts[0].kind == Cln then Step(Parsed(Leaf(ClnExp, ts[0].text)), ts[1..])
        else ColonExpression(ts);
      if !item.out.Parsed? then item
      else if Str(GetToken(item.rest, 0)) == "," then
        var s := IndexListTail(items + [item.out.node], item.rest[1..]);
        SuffixTransitive(s.rest, item.rest[1..], item.rest);
        SuffixTransitive(s.rest, item.rest, ts);
        s
      else Step(Parsed(Node(IndexListExp, None, items + [item.out.node])), item.rest)
  }
}
