/**
 The recursive-descent productions of the TINY grammar

   PGM    -->  STMT+
   STMT   -->  ASSIGN | "print" EXP
   ASSIGN -->  ID "=" EXP
   EXP    -->  TERM ETAIL
   ETAIL  -->  "+" TERM ETAIL | "-" TERM ETAIL | EPSILON
   TERM   -->  FACTOR TTAIL
   TTAIL  -->  "*" FACTOR TTAIL | "/" FACTOR TTAIL | EPSILON
   FACTOR -->  "(" EXP ")" | INT | ID

 as pure functions from a cursor to the tree built and the cursor afterwards.
 Every production returns a tree whatever the input: errors are counted in the
 cursor and the offending token is skipped.

 The expression productions recurse into one another. Each recursion back to
 `Exp` or into a tail happens only after a token that is not EOF has been
 consumed, so the measure is the number of tokens left, then a rank
 (Exp 2, Term 1, Factor and the tails 0).

 The contracts of the productions speak only of their own result; how one
 production's result is assembled from the others' is stated by the lemmas
 at the end of the module.
 */
module Parser {
  import opened Tokens
  import opened Ast
  import opened Lookahead
  import opened Shapes

  /** What a production hands back: its tree and the cursor after it. */
  datatype Parsed<T> = Parsed(tree: T, cur: Cursor)

  predicate IsAddOp(k: Kind) { k == ADDOP || k == SUBOP }

  predicate IsMulOp(k: Kind) { k == MULTOP || k == DIVOP }

  /** `d` may follow `c`: the lookahead is still ready and has not moved
      back, and no counted error has been forgotten. */
  ghost predicate Advanced(toks: seq<Token>, c: Cursor, d: Cursor)
  {
    Ready(toks, d) && c.pos <= d.pos && c.errors <= d.errors
  }

  /** FACTOR: a parenthesised expression, an INT or an ID leaf; anything else
      is one error, one skipped token and a placeholder "factor" leaf. */
  function Factor(toks: seq<Token>, c: Cursor): (r: Parsed<Node>)
    requires Ready(toks, c)
    ensures Advanced(toks, c, r.cur)
    ensures toks[c.pos].kind != EOF ==> c.pos < r.cur.pos
    ensures Operand(r.tree)
    ensures toks[c.pos].kind in {INT, ID} ==>
              && r.tree == Leaf(toks[c.pos])
              && StepsOver(toks, c.pos, r.cur.pos)
              && r.cur.errors == c.errors
    ensures toks[c.pos].kind !in {LPAREN, INT, ID} ==>
              && r.tree == Node(Synthetic("factor"), [])
              && StepsOver(toks, c.pos, r.cur.pos)
              && r.cur.errors == c.errors + 1
    decreases |toks| - c.pos, 0
  {
    var la := toks[c.pos];
    if la.kind == LPAREN then
      var e := Exp(toks, Match(toks, c, LPAREN));
      // both arms of the closing-parenthesis test call match(RPAREN)
      Parsed(e.tree, Match(toks, e.cur, RPAREN))
    else if la.kind == INT then
      Parsed(Leaf(la), Match(toks, c, INT))
    else if la.kind == ID then
      Parsed(Leaf(la), Match(toks, c, ID))
    else
      Parsed(Node(Synthetic("factor"), []), Consume(toks, c).(errors := c.errors + 1))
  }

  /** TTAIL: absent, consuming nothing, unless the lookahead is `*` or `/`;
      otherwise a node labelled with that operator token. */
  function TTail(toks: seq<Token>, c: Cursor): (r: Parsed<Option<Node>>)
    requires Ready(toks, c)
    ensures Advanced(toks, c, r.cur)
    ensures Tail(r.tree, true)
    ensures r.tree.None? <==> !IsMulOp(toks[c.pos].kind)
    ensures r.tree.None? ==> r.cur == c
    ensures r.tree.Some? ==> r.tree.value.tag == Tok(toks[c.pos]) && c.pos < r.cur.pos
    decreases |toks| - c.pos, 0
  {
    var la := toks[c.pos];
    if IsMulOp(la.kind) then
      var f := Factor(toks, Match(toks, c, la.kind));
      var t := TTail(toks, f.cur);
      Parsed(Some(AddChild(AddChild(Leaf(la), Some(f.tree)), t.tree)), t.cur)
    else
      Parsed(None, c)
  }

  /** TERM: a factor, adopted as the last child of the tail node when a `*`
      or `/` follows it. */
  function Term(toks: seq<Token>, c: Cursor): (r: Parsed<Node>)
    requires Ready(toks, c)
    ensures Advanced(toks, c, r.cur)
    ensures toks[c.pos].kind != EOF ==> c.pos < r.cur.pos
    ensures Operand(r.tree)
    decreases |toks| - c.pos, 1
  {
    var f := Factor(toks, c);
    if IsMulOp(toks[f.cur.pos].kind) then
      var t := TTail(toks, f.cur);
      Parsed(AddChild(t.tree.value, Some(f.tree)), t.cur)
    else
      f
  }

  /** ETAIL: absent, consuming nothing, unless the lookahead is `+` or `-`.
      A `+` node is labelled with its token; a `-` node keeps the placeholder
      "etail" label, because the `-` token is bound to a different local than
      the node that is returned. */
  function ETail(toks: seq<Token>, c: Cursor): (r: Parsed<Option<Node>>)
    requires Ready(toks, c)
    ensures Advanced(toks, c, r.cur)
    ensures Tail(r.tree, false)
    ensures r.tree.None? <==> !IsAddOp(toks[c.pos].kind)
    ensures r.tree.None? ==> r.cur == c
    ensures r.tree.Some? ==>
              && r.tree.value.tag == (if toks[c.pos].kind == SUBOP then Synthetic("etail") else Tok(toks[c.pos]))
              && c.pos < r.cur.pos
    decreases |toks| - c.pos, 0
  {
    var la := toks[c.pos];
    if IsAddOp(la.kind) then
      // the `-` arm builds its node on the placeholder, not on the token
      var head := if la.kind == ADDOP then Leaf(la) else Node(Synthetic("etail"), []);
      var t := Term(toks, Match(toks, c, la.kind));
      var e := ETail(toks, t.cur);
      Parsed(Some(AddChild(AddChild(head, Some(t.tree)), e.tree)), e.cur)
    else
      Parsed(None, c)
  }

  /** EXP: a term, adopted as the last child of the tail node when a `+` or
      `-` follows it. */
  function Exp(toks: seq<Token>, c: Cursor): (r: Parsed<Node>)
    requires Ready(toks, c)
    ensures Advanced(toks, c, r.cur)
    ensures toks[c.pos].kind != EOF ==> c.pos < r.cur.pos
    ensures Operand(r.tree)
    decreases |toks| - c.pos, 2
  {
    var t := Term(toks, c);
    if IsAddOp(toks[t.cur.pos].kind) then
      var e := ETail(toks, t.cur);
      Parsed(AddChild(e.tree.value, Some(t.tree)), e.cur)
    else
      t
  }

  /** ASSIGN: `ID = EXP` gives a node labelled with the `=` token whose
      children are the identifier leaf and the expression. Otherwise the
      result is a childless placeholder "assignment" node: an `ID` not
      followed by `=` costs one error and two tokens, a lookahead that is not
      an `ID` one error and one token. */
  function Assign(toks: seq<Token>, c: Cursor): (r: Parsed<Node>)
    requires Ready(toks, c)
    ensures Advanced(toks, c, r.cur)
    ensures toks[c.pos].kind != EOF ==> c.pos < r.cur.pos
    ensures StatementShape(r.tree)
    ensures toks[c.pos].kind != ID ==>
              && r.tree == Node(Synthetic("assignment"), [])
              && StepsOver(toks, c.pos, r.cur.pos)
              && r.cur.errors == c.errors + 1
  {
    var la := toks[c.pos];
    if la.kind == ID then
      var idtok := Leaf(la);
      var c1 := Match(toks, c, ID);
      var eq := toks[c1.pos];
      if eq.kind == ASSGN then
        var e := Exp(toks, Match(toks, c1, ASSGN));
        Parsed(AddChild(AddChild(Leaf(eq), Some(idtok)), Some(e.tree)), e.cur)
      else
        Parsed(Node(Synthetic("assignment"), []), Match(toks, c1, ASSGN))
    else
      Parsed(Node(Synthetic("assignment"), []), Match(toks, c, ID))
  }

  /** STMT: `print EXP` gives a node labelled with the `print` token whose one
      child is the expression; anything else is parsed as an assignment. */
  function Statement(toks: seq<Token>, c: Cursor): (r: Parsed<Node>)
    requires Ready(toks, c)
    ensures Advanced(toks, c, r.cur)
    ensures toks[c.pos].kind != EOF ==> c.pos < r.cur.pos
    ensures StatementShape(r.tree)
    ensures toks[c.pos].kind == PRINT ==>
              && r.tree.tag == Tok(toks[c.pos])
              && r.tree.children == [Some(Exp(toks, Consume(toks, c)).tree)]
              && r.cur == Exp(toks, Consume(toks, c)).cur
    ensures toks[c.pos].kind != PRINT ==> r == Assign(toks, c)
  {
    var la := toks[c.pos];
    if la.kind == PRINT then
      var e := Exp(toks, Match(toks, c, PRINT));
      Parsed(AddChild(Leaf(la), Some(e.tree)), e.cur)
    else
      Assign(toks, c)
  }

  /** The statement loop of PGM: statements are parsed until the lookahead is
      EOF. Each one consumes at least one token, so there are no more
      statements than tokens consumed. */
  function Statements(toks: seq<Token>, c: Cursor): (r: Parsed<seq<Node>>)
    requires Ready(toks, c)
    ensures Advanced(toks, c, r.cur)
    ensures toks[r.cur.pos].kind == EOF
    ensures |r.tree| <= r.cur.pos - c.pos
    ensures forall i :: 0 <= i < |r.tree| ==> StatementShape(r.tree[i])
    ensures toks[c.pos].kind == EOF <==> r.tree == []
    ensures toks[c.pos].kind == EOF ==> r.cur == c
    decreases |toks| - c.pos
  {
    if toks[c.pos].kind == EOF then
      Parsed([], c)
    else
      var s := Statement(toks, c);
      var rest := Statements(toks, s.cur);
      Parsed([s.tree] + rest.tree, rest.cur)
  }

  /** Every tree of `ts`, wrapped as a present child. */
  function Present(ts: seq<Node>): (r: seq<Option<Node>>)
    ensures |r| == |ts|
    ensures forall i :: 0 <= i < |ts| ==> r[i] == Some(ts[i])
  {
    seq(|ts|, i requires 0 <= i < |ts| => Some(ts[i]))
  }

  /** PGM: resets the error count, then collects the statements under a
      placeholder "program" root, one present child per statement, stopping
      exactly at EOF. */
  function Program(toks: seq<Token>, c: Cursor): (r: Parsed<Node>)
    requires Ready(toks, c)
    ensures Ready(toks, r.cur) && c.pos <= r.cur.pos
    ensures toks[r.cur.pos].kind == EOF
    ensures r.tree.tag == Synthetic("program")
    ensures |r.tree.children| <= r.cur.pos - c.pos
    ensures forall i :: 0 <= i < |r.tree.children| ==>
              r.tree.children[i].Some? && StatementShape(r.tree.children[i].value)
    ensures toks[c.pos].kind == EOF ==> r.tree.children == [] && r.cur.errors == 0
  {
    var s := Statements(toks, c.(errors := 0));
    Parsed(Node(Synthetic("program"), Present(s.tree)), s.cur)
  }

  /** A whole parse: prime the lookahead, then run PGM. */
  function Parse(toks: seq<Token>): (r: Parsed<Node>)
    requires Valid(toks)
    ensures Ready(toks, r.cur) && toks[r.cur.pos].kind == EOF
    ensures r.tree.tag == Synthetic("program")
  {
    Program(toks, Start(toks))
  }

  /** An assignment that starts with an `ID`: when `=` follows, the node is
      labelled with the `=` token over the identifier leaf and the expression
      after `=`; when anything else follows, that token is consumed too and
      the placeholder "assignment" node comes back with exactly one error.
      This restates the definition of `Assign`, for use by other proofs. */
  lemma AssignAfterIdentifier(toks: seq<Token>, c: Cursor)
    requires Ready(toks, c) && toks[c.pos].kind == ID
    ensures toks[Consume(toks, c).pos].kind == ASSGN ==>
              && Assign(toks, c).tree.tag == Tok(toks[Consume(toks, c).pos])
              && Assign(toks, c).tree.children ==
                   [Some(Leaf(toks[c.pos])), Some(Exp(toks, Consume(toks, Consume(toks, c))).tree)]
              && Assign(toks, c).cur == Exp(toks, Consume(toks, Consume(toks, c))).cur
    ensures toks[Consume(toks, c).pos].kind != ASSGN ==>
              && Assign(toks, c).tree == Node(Synthetic("assignment"), [])
              && StepsOver(toks, Consume(toks, c).pos, Assign(toks, c).cur.pos)
              && Assign(toks, c).cur.errors == c.errors + 1
  {
  }

  /** A parenthesised factor is the tree of the inner expression, unchanged;
      the token after that expression is always consumed, and counts as an
      error exactly when it is not `)`. This restates the definition of
      `Factor`, for use by other proofs. */
  lemma FactorParenthesised(toks: seq<Token>, c: Cursor)
    requires Ready(toks, c) && toks[c.pos].kind == LPAREN
    ensures Factor(toks, c).tree == Exp(toks, Consume(toks, c)).tree
    ensures StepsOver(toks, Exp(toks, Consume(toks, c)).cur.pos, Factor(toks, c).cur.pos)
    ensures Factor(toks, c).cur.errors ==
              Exp(toks, Consume(toks, c)).cur.errors
              + (if toks[Exp(toks, Consume(toks, c)).cur.pos].kind == RPAREN then 0 else 1)
  {
  }

  /** The two children of a `*` or `/` tail node are, in order, the factor
      right after the operator and the rest of the tail (possibly absent).
      This restates the definition of `TTail`, for use by other proofs. */
  lemma TTailChildren(toks: seq<Token>, c: Cursor)
    requires Ready(toks, c) && IsMulOp(toks[c.pos].kind)
    ensures TTail(toks, c).tree.Some?
    ensures TTail(toks, c).tree.value.children ==
              [Some(Factor(toks, Consume(toks, c)).tree), TTail(toks, Factor(toks, Consume(toks, c)).cur).tree]
    ensures TTail(toks, c).cur == TTail(toks, Factor(toks, Consume(toks, c)).cur).cur
  {
  }

  /** The two children of a `+` or `-` tail node are, in order, the term
      right after the operator and the rest of the tail (possibly absent).
      This restates the definition of `ETail`, for use by other proofs. */
  lemma ETailChildren(toks: seq<Token>, c: Cursor)
    requires Ready(toks, c) && IsAddOp(toks[c.pos].kind)
    ensures ETail(toks, c).tree.Some?
    ensures ETail(toks, c).tree.value.children ==
              [Some(Term(toks, Consume(toks, c)).tree), ETail(toks, Term(toks, Consume(toks, c)).cur).tree]
    ensures ETail(toks, c).cur == ETail(toks, Term(toks, Consume(toks, c)).cur).cur
  {
  }

  /** A term is its first factor, unchanged, when no `*` or `/` follows it;
      otherwise it is the tail node with that factor appended as its last
      child. This restates the definition of `Term`, for use by other proofs. */
  lemma TermAdoptsFactor(toks: seq<Token>, c: Cursor)
    requires Ready(toks, c)
    ensures !IsMulOp(toks[Factor(toks, c).cur.pos].kind) ==> Term(toks, c) == Factor(toks, c)
    ensures IsMulOp(toks[Factor(toks, c).cur.pos].kind) ==>
              && TTail(toks, Factor(toks, c).cur).tree.Some?
              && Term(toks, c).tree ==
                   AddChild(TTail(toks, Factor(toks, c).cur).tree.value, Some(Factor(toks, c).tree))
              && Term(toks, c).cur == TTail(toks, Factor(toks, c).cur).cur
  {
  }

  /** An expression is its first term, unchanged, when no `+` or `-` follows
      it; otherwise it is the tail node with that term appended as its last
      child. This restates the definition of `Exp`, for use by other proofs. */
  lemma ExpAdoptsTerm(toks: seq<Token>, c: Cursor)
    requires Ready(toks, c)
    ensures !IsAddOp(toks[Term(toks, c).cur.pos].kind) ==> Exp(toks, c) == Term(toks, c)
    ensures IsAddOp(toks[Term(toks, c).cur.pos].kind) ==>
              && ETail(toks, Term(toks, c).cur).tree.Some?
              && Exp(toks, c).tree ==
                   AddChild(ETail(toks, Term(toks, c).cur).tree.value, Some(Term(toks, c).tree))
              && Exp(toks, c).cur == ETail(toks, Term(toks, c).cur).cur
  {
  }
}
