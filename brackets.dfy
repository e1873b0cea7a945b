/**
 * Array literals `[a; b c]` and indexing `name(i, :, j:k)`: the forms the
 * precedence round trip leaves aside. Each is stated for every list of
 * well-formed entries: the array list keeps one EO_STMT node per separator
 * written after an entry, and an index that is a bare `:` becomes a CLN_EXP
 * leaf with no children.
 */
module Brackets {
  import opened Wrappers
  import opened Syntax
  import opened Sequences
  import opened Expressions
  import opened Precedence
  import opened StatementFacts

  /** A well-formed expression opens with an atom, `(` or a prefix operator. */
  lemma {:induction false} Opening(e: Expr)
    requires WellFormed(e)
    ensures var k := Unparse(e)[0].kind; IsAtomKind(k) || k == LParen || k == Add || k == Lnt
  {
    match e
    case Atom(_) =>
    case Paren(_, _, _) =>
    case Prefix(_, _) =>
    case Postfix(x, _) =>
      Opening(x);
      assert Unparse(e)[0] == Unparse(x)[0];
    case Bin(_, l, _) =>
      Opening(l);
      assert Unparse(e)[0] == Unparse(l)[0];
    case Span(_, lo, _) =>
      ColonHeadWellFormed(lo);
      Opening(lo);
      assert Unparse(e)[0] == Unparse(lo)[0];
    case Stepped(_, lo, _, _, _) =>
      ColonHeadWellFormed(lo);
      Opening(lo);
      assert Unparse(e)[0] == Unparse(lo)[0];
  }

  // ---------------------------------------------------------------- array lists

  /** One entry of an array literal: an expression and the EO_STMT tokens written after it. */
  datatype Element = Element(e: Expr, seps: seq<Token>)

  predicate AllSeparators(seps: seq<Token>)
  {
    forall k :: 0 <= k < |seps| ==> seps[k].kind == EoStmt
  }

  function ElementsTokens(es: seq<Element>): seq<Token>
  {
    if es == [] then [] else Unparse(es[0].e) + es[0].seps + ElementsTokens(es[1..])
  }

  /** One EO_STMT node per separator token, carrying its text. */
  function Marks(seps: seq<Token>): seq<Node>
  {
    if seps == [] then [] else [Leaf(EoStmtMark, seps[0].text)] + Marks(seps[1..])
  }

  /** The children the parser should give an array list: each entry's node, then its separators' nodes. */
  function ElementsNodes(es: seq<Element>): seq<Node>
  {
    if es == [] then [] else [ToNode(es[0].e)] + Marks(es[0].seps) + ElementsNodes(es[1..])
  }

  /**
   * The entries can be read back in front of `after`: each is well formed,
   * its separators are EO_STMT tokens, and what follows its expression ends it.
   */
  predicate Readable(es: seq<Element>, after: seq<Token>)
  {
    es == [] ||
    (&& WellFormed(es[0].e)
     && AllSeparators(es[0].seps)
     && Stop(es[0].seps + ElementsTokens(es[1..]) + after)
     && Readable(es[1..], after))
  }

  /** The separator loop takes exactly a run of EO_STMT tokens that no further one follows. */
  lemma {:induction false} SeparatorsTaken(seps: seq<Token>, rest: seq<Token>)
    requires AllSeparators(seps) && (rest == [] || rest[0].kind != EoStmt)
    ensures EoStmtRun(seps + rest) == (Marks(seps), rest)
    decreases |seps|
  {
    if seps != [] {
      assert (seps + rest)[1..] == seps[1..] + rest;
      SeparatorsTaken(seps[1..], rest);
      EoStmtRunPop(seps + rest);
    }
  }

  /** What the entries' tokens leave does not open with a separator. */
  lemma NextOpens(es: seq<Element>, after: seq<Token>)
    requires Readable(es, after) && |after| > 0 && after[0].kind != EoStmt
    ensures |ElementsTokens(es) + after| > 0 && (ElementsTokens(es) + after)[0].kind != EoStmt
  {
    if es != [] {
      var u := Unparse(es[0].e);
      Opening(es[0].e);
      assert ElementsTokens(es) == u + es[0].seps + ElementsTokens(es[1..]);
      assert ElementsTokens(es)[0] == u[0];
    }
  }

  /** One entry of the array list's loop: the expression, then its separators. */
  lemma ElementTaken(items: seq<Node>, x: Element, more: seq<Token>)
    requires WellFormed(x.e) && AllSeparators(x.seps) && Stop(x.seps + more)
    requires |more| > 0 && more[0].kind != EoStmt
    ensures ArrayListTail(items, Unparse(x.e) + (x.seps + more))
         == ArrayListTail(items + [ToNode(x.e)] + Marks(x.seps), more)
  {
    var after := x.seps + more;
    OpensWithExpression(x.e, after);
    ColonRoundTrip(x.e, after);
    SeparatorsTaken(x.seps, more);
    ListTakes(items, Unparse(x.e) + after, ToNode(x.e), after, Marks(x.seps), more);
  }

  /** The tokens of an expression, whatever follows, open with neither `]`, `:` nor an EO_STMT. */
  lemma OpensWithExpression(e: Expr, after: seq<Token>)
    requires WellFormed(e)
    ensures var k := (Unparse(e) + after)[0].kind; k != RBracket && k != Cln && k != EoStmt
  {
    Opening(e);
    assert (Unparse(e) + after)[0] == Unparse(e)[0];
  }

  /** One turn of the array list's loop, in terms of what its two steps return. */
  lemma ListTakes(items: seq<Node>, ts: seq<Token>, node: Node, after: seq<Token>, marks: seq<Node>, more: seq<Token>)
    requires |ts| > 0 && ts[0].kind != RBracket && node.Node? && |more| > 0
    requires ColonExpression(ts) == Step(Parsed(node), after)
    requires EoStmtRun(after) == (marks, more)
    ensures ArrayListTail(items, ts) == ArrayListTail(items + [node] + marks, more)
  {
  }

  /**
   * The loop of parse_array_list over readable entries: every entry adds its
   * node and then its separators' nodes, in order.
   */
  lemma {:induction false} ElementsParse(items: seq<Node>, es: seq<Element>, after: seq<Token>)
    requires Readable(es, after) && |after| > 0 && after[0].kind != EoStmt
    ensures ArrayListTail(items, ElementsTokens(es) + after) == ArrayListTail(items + ElementsNodes(es), after)
    decreases |es|
  {
    if es == [] {
      assert items + ElementsNodes(es) == items;
      assert ElementsTokens(es) + after == after;
    } else {
      FirstElement(items, es, after);
      ElementsParse(items + [ToNode(es[0].e)] + Marks(es[0].seps), es[1..], after);
      Assoc(items + [ToNode(es[0].e)], Marks(es[0].seps), ElementsNodes(es[1..]));
      Assoc(items, [ToNode(es[0].e)], Marks(es[0].seps) + ElementsNodes(es[1..]));
      Assoc([ToNode(es[0].e)], Marks(es[0].seps), ElementsNodes(es[1..]));
      assert items + [ToNode(es[0].e)] + Marks(es[0].seps) + ElementsNodes(es[1..]) == items + ElementsNodes(es);
    }
  }

  /** The first of several entries, taken by the array list's loop. */
  lemma FirstElement(items: seq<Node>, es: seq<Element>, after: seq<Token>)
    requires es != [] && Readable(es, after) && |after| > 0 && after[0].kind != EoStmt
    ensures ArrayListTail(items, ElementsTokens(es) + after)
         == ArrayListTail(items + [ToNode(es[0].e)] + Marks(es[0].seps), ElementsTokens(es[1..]) + after)
  {
    var more := ElementsTokens(es[1..]) + after;
    NextOpens(es[1..], after);
    Assoc(es[0].seps, ElementsTokens(es[1..]), after);
    ElementTaken(items, es[0], more);
    Assoc(Unparse(es[0].e) + es[0].seps, ElementsTokens(es[1..]), after);
    Assoc(Unparse(es[0].e), es[0].seps, more);
  }

  /** The loop of parse_array_list ends at `]` with the children collected so far. */
  lemma ListCloses(es: seq<Element>, close: Token, r: seq<Token>)
    requires close.kind == RBracket && Readable(es, [close] + r)
    ensures ArrayList(ElementsTokens(es) + ([close] + r))
         == Step(Parsed(Node(ArrayListExp, None, ElementsNodes(es))), [close] + r)
  {
    ElementsParse([], es, [close] + r);
    assert [] + ElementsNodes(es) == ElementsNodes(es);
  }

  /** In front of a token that starts no expression and is not `]`, the loop returns None. */
  lemma ListStops(items: seq<Node>, t: Token, r: seq<Token>)
    requires t.kind != RBracket && StartsNoExpression(t.kind)
    ensures ArrayListTail(items, [t] + r) == Step(Absent, [t] + r)
  {
    ExpressionGivesUp([t] + r);
  }

  /** parse_primary_expression hands a `[` to parse_bracket_expression. */
  lemma PrimaryBracket(ts: seq<Token>)
    requires |ts| > 0 && ts[0].kind == LBracket
    ensures PrimaryExpression(ts) == BracketExpression(ts)
  {
  }

  /**
   * An array literal: `[` readable entries `]` parses to ARRAY_LIST_EXP with
   * each entry's node followed by one EO_STMT node per separator.
   */
  lemma ArrayLiteral(open: Token, es: seq<Element>, close: Token, r: seq<Token>)
    requires open.kind == LBracket && close.kind == RBracket && Readable(es, [close] + r)
    ensures PrimaryExpression([open] + ElementsTokens(es) + [close] + r)
         == Step(Parsed(Node(ArrayListExp, None, ElementsNodes(es))), r)
  {
    var ts := [open] + ElementsTokens(es) + [close] + r;
    Assoc([open], ElementsTokens(es), [close] + r);
    assert ts[1..] == ElementsTokens(es) + ([close] + r);
    ListCloses(es, close, r);
    PrimaryBracket(ts);
  }

  /**
   * An array literal whose `]` is missing: in front of a token that starts
   * no expression and is not `]`, parse_bracket_expression returns None.
   */
  lemma ArrayLiteralUnclosed(open: Token, es: seq<Element>, t: Token, r: seq<Token>)
    requires open.kind == LBracket && t.kind != RBracket && StartsNoExpression(t.kind)
    requires Readable(es, [t] + r)
    ensures PrimaryExpression([open] + ElementsTokens(es) + [t] + r) == Step(Absent, [t] + r)
  {
    var ts := [open] + ElementsTokens(es) + [t] + r;
    Assoc([open], ElementsTokens(es), [t] + r);
    assert ts[1..] == ElementsTokens(es) + ([t] + r);
    ListGivesUp(es, t, r);
    PrimaryBracket(ts);
  }

  /** The array list's loop, run past its entries, returns None in front of such a token. */
  lemma ListGivesUp(es: seq<Element>, t: Token, r: seq<Token>)
    requires t.kind != RBracket && StartsNoExpression(t.kind) && Readable(es, [t] + r)
    ensures ArrayList(ElementsTokens(es) + ([t] + r)) == Step(Absent, [t] + r)
  {
    ElementsParse([], es, [t] + r);
    ListStops([] + ElementsNodes(es), t, r);
  }

  /** `ts` opens with a token of kind `k`. */
  predicate OpensWith(ts: seq<Token>, k: TokenKind)
  {
    |ts| > 0 && ts[0].kind == k
  }

  /**
   * Whatever the tokens, the array list's loop returns a node only in front
   * of `]`: an ARRAY_LIST_EXP whose children start with those collected before.
   */
  lemma {:induction false} ArrayListShape(items: seq<Node>, ts: seq<Token>)
    ensures var s := ArrayListTail(items, ts);
      s.out.Parsed? ==> OpensWith(s.rest, RBracket) && s.out.node.kind == ArrayListExp && items <= s.out.node.children
    decreases |ts|
  {
    if |ts| > 0 && ts[0].kind != RBracket {
      var item := ColonExpression(ts);
      if item.out.Parsed? {
        var (marks, rest) := EoStmtRun(item.rest);
        if |rest| > 0 {
          var more := items + [item.out.node] + marks;
          assert ArrayListTail(items, ts) == ArrayListTail(more, rest);
          ArrayListShape(more, rest);
          assert items <= more;
        }
      }
    }
  }

  /** parse_bracket_expression returns an ARRAY_LIST_EXP or nothing. */
  lemma BracketShape(ts: seq<Token>)
    requires |ts| > 0
    ensures BracketExpression(ts).out.Parsed? ==> BracketExpression(ts).out.node.kind == ArrayListExp
  {
    ArrayListShape([], ts[1..]);
  }

  // ------------------------------------------------------------------ indexing

  /** One index of an indexing expression: a bare `:` or an expression. */
  datatype Index = Whole(colon: Token) | At(e: Expr)

  predicate IndexOk(i: Index)
  {
    match i
    case Whole(c) => c.kind == Cln
    case At(e) => WellFormed(e)
  }

  function IndexTokens(i: Index): seq<Token>
  {
    match i
    case Whole(c) => [c]
    case At(e) => Unparse(e)
  }

  /** The node of an index: a bare `:` is a CLN_EXP leaf with no children. */
  function IndexNode(i: Index): Node
  {
    match i
    case Whole(c) => Leaf(ClnExp, c.text)
    case At(e) => ToNode(e)
  }

  /** A comma, which no expression loop consumes. */
  predicate IsComma(t: Token)
  {
    t.text == "," && Stop([t])
  }

  /** The indices after the first, each with the comma written before it. */
  function MoreTokens(more: seq<(Token, Index)>): seq<Token>
  {
    if more == [] then [] else [more[0].0] + IndexTokens(more[0].1) + MoreTokens(more[1..])
  }

  function MoreNodes(more: seq<(Token, Index)>): seq<Node>
  {
    if more == [] then [] else [IndexNode(more[0].1)] + MoreNodes(more[1..])
  }

  predicate MoreOk(more: seq<(Token, Index)>)
  {
    forall k :: 0 <= k < |more| ==> IsComma(more[k].0) && IndexOk(more[k].1)
  }

  /** One index taken off the front, in front of anything that ends an expression. */
  lemma IndexTaken(i: Index, rest: seq<Token>)
    requires IndexOk(i) && Stop(rest)
    ensures var item := if (IndexTokens(i) + rest)[0].kind == Cln then Step(Parsed(Leaf(ClnExp, (IndexTokens(i) + rest)[0].text)), (IndexTokens(i) + rest)[1..])
                        else ColonExpression(IndexTokens(i) + rest);
            item == Step(Parsed(IndexNode(i)), rest)
  {
    match i
    case Whole(c) =>
    case At(e) =>
      OpensWithExpression(e, rest);
      ColonRoundTrip(e, rest);
  }

  /**
   * The loop of parse_index_list: the indices, separated by commas, give one
   * child each, in order, and the loop stops at the first token that is not a comma.
   */
  lemma {:induction false} IndicesParse(items: seq<Node>, first: Index, more: seq<(Token, Index)>, after: seq<Token>)
    requires IndexOk(first) && MoreOk(more) && Stop(after) && after[0].text != ","
    ensures IndexListTail(items, IndexTokens(first) + MoreTokens(more) + after)
         == Step(Parsed(Node(IndexListExp, None, items + [IndexNode(first)] + MoreNodes(more))), after)
    decreases |more|
  {
    var rest := MoreTokens(more) + after;
    var ts := IndexTokens(first) + rest;
    Assoc(IndexTokens(first), MoreTokens(more), after);
    if more == [] {
      assert rest == after;
      IndexTaken(first, rest);
      assert Str(GetToken(rest, 0)) == after[0].text;
      assert MoreNodes(more) == [];
    } else {
      var c := more[0].0;
      assert IsComma(c);
      Assoc([c] + IndexTokens(more[0].1), MoreTokens(more[1..]), after);
      Assoc([c], IndexTokens(more[0].1), MoreTokens(more[1..]) + after);
      Assoc(IndexTokens(more[0].1), MoreTokens(more[1..]), after);
      assert rest == [c] + (IndexTokens(more[0].1) + MoreTokens(more[1..]) + after);
      IndexTaken(first, rest);
      assert Str(GetToken(rest, 0)) == ",";
      assert MoreOk(more[1..]) by {
        forall k | 0 <= k < |more[1..]|
          ensures IsComma(more[1..][k].0) && IndexOk(more[1..][k].1)
        {
          assert more[1..][k] == more[k + 1];
        }
      }
      IndicesParse(items + [IndexNode(first)], more[0].1, more[1..], after);
      assert MoreNodes(more) == [IndexNode(more[0].1)] + MoreNodes(more[1..]);
      Assoc(items + [IndexNode(first)], [IndexNode(more[0].1)], MoreNodes(more[1..]));
    }
  }

  /**
   * Whatever the tokens, the index list's loop returns an INDEX_LIST_EXP with
   * one more child than those collected before, which it keeps first, and
   * stops only where no comma follows.
   */
  lemma {:induction false} IndexListShape(items: seq<Node>, ts: seq<Token>)
    ensures var s := IndexListTail(items, ts);
      s.out.Parsed? ==>
        && s.out.node.kind == IndexListExp && |items| < |s.out.node.children|
        && items <= s.out.node.children && Str(GetToken(s.rest, 0)) != ","
    decreases |ts|
  {
    if |ts| > 0 {
      var item := if ts[0].kind == Cln then Step(Parsed(Leaf(ClnExp, ts[0].text)), ts[1..]) else ColonExpression(ts);
      if item.out.Parsed? && Str(GetToken(item.rest, 0)) == "," {
        var more := items + [item.out.node];
        assert IndexListTail(items, ts) == IndexListTail(more, item.rest[1..]);
        IndexListShape(more, item.rest[1..]);
        assert items <= more;
      }
    }
  }

  /**
   * parse_array_expression returns an INDEXING_EXP whose children are the
   * identifier's leaf and an INDEX_LIST_EXP, or nothing.
   */
  lemma IndexingShape(ts: seq<Token>)
    requires |ts| >= 2
    ensures var s := ArrayExpression(ts);
      s.out.Parsed? ==>
        && s.out.node.kind == IndexingExp && |s.out.node.children| == 2
        && s.out.node.children[0] == Leaf(IdentifierExp, ts[0].text)
        && s.out.node.children[1].Node? && s.out.node.children[1].kind == IndexListExp
  {
    IndexListShape([], ts[2..]);
  }

  /** What parse_array_expression should return for `name(indices)`. */
  function IndexingNode(name: Token, first: Index, more: seq<(Token, Index)>): Node
  {
    Node(IndexingExp, None, [Leaf(IdentifierExp, name.text), Node(IndexListExp, None, [IndexNode(first)] + MoreNodes(more))])
  }

  /** parse_primary_expression hands an identifier followed by `(` to parse_array_expression. */
  lemma PrimaryIndexing(ts: seq<Token>)
    requires |ts| >= 2 && ts[0].kind == Identifier && ts[1].kind == LParen
    ensures PrimaryExpression(ts) == ArrayExpression(ts)
  {
  }

  /** The tokens after `name(`, grouped as parse_array_expression sees them. */
  lemma IndexingTokens(name: Token, open: Token, first: Index, more: seq<(Token, Index)>, after: seq<Token>)
    ensures var ts := [name, open] + IndexTokens(first) + MoreTokens(more) + after;
            |ts| >= 2 && ts[0] == name && ts[1] == open && ts[2..] == IndexTokens(first) + MoreTokens(more) + after
  {
    Assoc([name, open] + IndexTokens(first), MoreTokens(more), after);
    Assoc([name, open], IndexTokens(first), MoreTokens(more) + after);
    Assoc(IndexTokens(first), MoreTokens(more), after);
  }

  /**
   * An identifier followed by `(`, comma-separated indices and `)` is an
   * INDEXING_EXP with the identifier and the INDEX_LIST_EXP of the indices.
   */
  lemma Indexing(name: Token, open: Token, first: Index, more: seq<(Token, Index)>, close: Token, r: seq<Token>)
    requires name.kind == Identifier && open.kind == LParen && close.kind == RParen && close.text != ","
    requires IndexOk(first) && MoreOk(more)
    ensures PrimaryExpression([name, open] + IndexTokens(first) + MoreTokens(more) + ([close] + r))
         == Step(Parsed(IndexingNode(name, first, more)), r)
  {
    var ts := [name, open] + IndexTokens(first) + MoreTokens(more) + ([close] + r);
    IndexingTokens(name, open, first, more, [close] + r);
    IndicesParse([], first, more, [close] + r);
    assert [] + [IndexNode(first)] == [IndexNode(first)];
    PrimaryIndexing(ts);
  }

  /**
   * An indexing expression whose `)` is missing: in front of a token that
   * ends an expression but is neither `)` nor a comma, the routine returns None.
   */
  lemma IndexingUnclosed(name: Token, open: Token, first: Index, more: seq<(Token, Index)>, t: Token, r: seq<Token>)
    requires name.kind == Identifier && open.kind == LParen && t.kind != RParen && t.text != ","
    requires IndexOk(first) && MoreOk(more) && Stop([t] + r)
    ensures PrimaryExpression([name, open] + IndexTokens(first) + MoreTokens(more) + ([t] + r)) == Step(Absent, [t] + r)
  {
    var ts := [name, open] + IndexTokens(first) + MoreTokens(more) + ([t] + r);
    IndexingTokens(name, open, first, more, [t] + r);
    IndicesParse([], first, more, [t] + r);
    PrimaryIndexing(ts);
  }

  /** `name()` has no index: the index list, and so the indexing expression, returns None. */
  lemma EmptyIndexing(name: Token, open: Token, close: Token, r: seq<Token>)
    requires name.kind == Identifier && open.kind == LParen && close.kind == RParen
    ensures PrimaryExpression([name, open, close] + r) == Step(Absent, [close] + r)
  {
    var ts := [name, open, close] + r;
    assert ts[2..] == [close] + r;
    ExpressionGivesUp([close] + r);
    assert IndexList([close] + r) == Step(Absent, [close] + r);
    PrimaryIndexing(ts);
  }
}
