/** Option type used for optional node text and for the lookahead of `get_token`. */
module Wrappers {
  datatype Option<+T> = None | Some(value: T)
}

/**
 * The values the parser works on: tokens, AST nodes, the outcome of a parsing
 * routine and the two tables that drive selection statements.
 */
module Syntax {
  import opened Wrappers

  /**
   * Token categories named by the parser. `Unlisted` stands for every category
   * the lexer may produce that the parser never names (for example a keyword
   * category, `==`, braces, the comma, which the parser only matches by text).
   */
  datatype TokenKind =
    | Identifier | NumberLit | StringLit | VectorLit
    | LParen | RParen | LBracket | RBracket
    | EoStmt | Ass | Cln | Lor | Lan | Rel | Add | Mul | Lnt | Tra | Nct
    | Unlisted

  /** One lexical unit: its category, its exact text and its 1-based position. */
  datatype Token = Token(kind: TokenKind, text: string, row: int, col: int)

  /**
   * Node kinds, as the parser uses them (the parser's names win over the node
   * type enumeration where they differ: ClrStmt, IdList and IndexingExp).
   */
  datatype NodeKind =
    | StmtList                          // STMT_LIST
    | ExpStmt | SelStmt | ItrStmt | ClrStmt
    | EoStmtMark                        // EO_STMT node, carries the separator's text
    | SelCls | ItrCls
    | AssExp | ClnExp | UopExp | BopExp
    | NumberLitExp | StringLitExp | VectorLitExp
    | ArrayListExp | IndexListExp | IdList | IdentifierExp | IndexingExp

  /**
   * An AST node: kind, optional text and ordered children. `NullChild` is the
   * Python `None` that parse_statement_list appends as a child when no
   * statement alternative produced a node.
   */
  datatype Node =
    | Node(kind: NodeKind, text: Option<string>, children: seq<Node>)
    | NullChild

  /** A childless node carrying a text. */
  function Leaf(kind: NodeKind, text: string): Node
  {
    Node(kind, Some(text), [])
  }

  datatype ErrorKind = IncompleteStatement | InvalidExpression

  /**
   * What a parsing routine does: returns a node, returns None (`Absent`, the
   * signal ordered choice relies on), raises one of the two positioned
   * syntactic errors, crashes (an attribute lookup on a missing lookahead, or
   * `pop` on an empty list), or loops forever (`Diverge`).
   */
  datatype Outcome =
    | Parsed(node: Node)
    | Absent
    | Err(error: ErrorKind, row: int, col: int)
    | Crash
    | Diverge
  {
    /** The routine did not return: the whole parse stops here. */
    predicate Raised()
    {
      Err? || Crash? || Diverge?
    }
  }

  /** An outcome together with the tokens left afterwards. */
  datatype Step = Step(out: Outcome, rest: seq<Token>)

  /** `rest` is what remains of `ts` after removing tokens from the front only. */
  predicate IsSuffix(rest: seq<Token>, ts: seq<Token>)
  {
    |rest| <= |ts| && rest == ts[|ts| - |rest|..]
  }

  lemma SuffixTransitive(a: seq<Token>, b: seq<Token>, c: seq<Token>)
    requires IsSuffix(a, b) && IsSuffix(b, c)
    ensures IsSuffix(a, c)
  {
    assert c[|c| - |b|..][|b| - |a|..] == c[|c| - |a|..];
  }

  /** Popping the first token leaves a suffix. */
  lemma TailIsSuffix(ts: seq<Token>)
    requires |ts| > 0
    ensures IsSuffix(ts[1..], ts)
  {
  }

  /** Popping the first token of a suffix leaves a suffix. */
  lemma PopSuffix(rest: seq<Token>, ts: seq<Token>)
    requires IsSuffix(rest, ts) && |rest| > 0
    ensures IsSuffix(rest[1..], ts)
  {
    TailIsSuffix(rest);
    SuffixTransitive(rest[1..], rest, ts);
  }

  /** `get_token(index)`: the lookahead, which is None past the end instead of failing. */
  function GetToken(ts: seq<Token>, index: nat): (t: Option<Token>)
    ensures t.None? <==> |ts| <= index
    ensures t.Some? ==> t.value == ts[index]
  {
    if |ts| > index then Some(ts[index]) else None
  }

  /** `str(...)` of a lookahead: the token's text, and "None" for a missing token. */
  function Str(t: Option<Token>): (s: string)
    ensures t.Some? ==> s == t.value.text
    ensures t.None? ==> s == "None"
  {
    match t
    case Some(tok) => tok.text
    case None => "None"
  }

  /** The default terminator set of parse_statement_list: `str(None)`. */
  const DefaultTerminators: seq<string> := ["None"]

  /** SEL_CLAUSES_MAP: the secondary and the final clause keyword of each starter. */
  const SelClausesMap: map<string, (string, string)> :=
    map["if" := ("elseif", "else"), "switch" := ("case", "otherwise")]

  /** SEL_TERMINATOR_MAP: the keywords that end a clause's body. */
  const SelTerminatorMap: map<string, seq<string>> :=
    map[
      "if" := ["elseif", "else", "end"],
      "elseif" := ["elseif", "else", "end"],
      "else" := ["end"],
      "case" := ["case", "otherwise", "end"],
      "otherwise" := ["end"]
    ]

  /**
   * The clause keywords of either selection statement: the secondary one is
   * guarded and the final one runs up to `end` alone.
   */
  lemma ClauseKeywords(start: string)
    requires start in SelClausesMap
    ensures var (secondary, final) := SelClausesMap[start];
      && secondary in SelTerminatorMap && secondary != "else" && secondary != "otherwise" && secondary != "switch"
      && final in SelTerminatorMap && final != "switch" && (final == "else" || final == "otherwise")
      && SelTerminatorMap[final] == ["end"]
  {
    if start == "if" {
      assert SelClausesMap[start] == ("elseif", "else");
    } else {
      assert SelClausesMap[start] == ("case", "otherwise");
    }
  }

  /** The clause keywords parse_selection_clause can be given. */
  predicate IsClauseKeyword(clause: string)
  {
    clause in SelTerminatorMap || clause == "switch"
  }

  /** `s.lstrip(c)`: drops every leading `c`. */
  function StripLeft(s: string, c: char): (r: string)
    ensures |r| <= |s| && r == s[|s| - |r|..]
    ensures r == [] || r[0] != c
    ensures forall k :: 0 <= k < |s| - |r| ==> s[k] == c
  {
    if |s| > 0 && s[0] == c then StripLeft(s[1..], c) else s
  }

  /** `s.rstrip(c)`: drops every trailing `c`. */
  function StripRight(s: string, c: char): (r: string)
    ensures |r| <= |s| && r == s[..|r|]
    ensures r == [] || r[|r| - 1] != c
    ensures forall k :: |r| <= k < |s| ==> s[k] == c
  {
    if |s| > 0 && s[|s| - 1] == c then StripRight(s[..|s| - 1], c) else s
  }

  /** `s.strip(c)`: drops every leading and trailing `c`. */
  function Strip(s: string, c: char): string
  {
    StripRight(StripLeft(s, c), c)
  }
}
