/**
 Reading a tree back into tokens. For a parse that counted no error, the
 tree loses nothing but the whitespace and the parentheses: reading it back
 gives every other consumed token in input order, with one exception the
 code introduces — a `-` comes back as the placeholder "etail" label, since
 the `-` token never reaches the node the additive tail returns.
 */
module Unparse {
  import opened Tokens
  import opened Ast
  import opened Lookahead
  import opened Parser

  /** Tokens that leave no trace in the tree. */
  predicate Hidden(k: Kind)
  {
    k == WS || k == LPAREN || k == RPAREN
  }

  /** How a consumed token shows up in the tree. */
  function Shown(t: Token): Label
  {
    if t.kind == SUBOP then Synthetic("etail") else Tok(t)
  }

  /** The labels the tokens at positions `p` up to `q` (exclusive) leave in a
      tree, in input order. */
  function Visible(toks: seq<Token>, p: nat, q: nat): (r: seq<Label>)
    requires p <= q <= |toks|
    ensures |r| <= q - p
    decreases q - p
  {
    if p == q then []
    else (if Hidden(toks[p].kind) then [] else [Shown(toks[p])]) + Visible(toks, p + 1, q)
  }

  /** An expression tree read back in input order: the left operand of a
      three-child node comes last among its children but first in the input;
      a two-child tail node reads as its operator, its operand and the rest of
      the tail. */
  function Yield(n: Node): seq<Label>
    decreases n
  {
    var k := n.children;
    if |k| == 3 then OptYield(k[2]) + [n.tag] + OptYield(k[0]) + OptYield(k[1])
    else if |k| == 2 then [n.tag] + OptYield(k[0]) + OptYield(k[1])
    else [n.tag]
  }

  function OptYield(o: Option<Node>): seq<Label>
    decreases o
  {
    match o
    case None => []
    case Some(n) => Yield(n)
  }

  /** A statement tree read back in input order: `print` before its
      expression, `=` between the identifier and the expression. */
  function StatementYield(n: Node): seq<Label>
  {
    var k := n.children;
    if |k| == 1 then [n.tag] + OptYield(k[0])
    else if |k| == 2 then OptYield(k[0]) + [n.tag] + OptYield(k[1])
    else [n.tag]
  }

  function StatementsYield(ts: seq<Node>): seq<Label>
  {
    if |ts| == 0 then [] else StatementYield(ts[0]) + StatementsYield(ts[1..])
  }

  /** A program tree read back: its statements one after the other. */
  function ProgramYield(root: Node): seq<Label>
  {
    ChildrenYield(root.children)
  }

  function ChildrenYield(k: seq<Option<Node>>): seq<Label>
  {
    if |k| == 0 then []
    else (match k[0] case None => [] case Some(n) => StatementYield(n)) + ChildrenYield(k[1..])
  }

  lemma {:induction false} VisibleSplit(toks: seq<Token>, p: nat, m: nat, q: nat)
    requires p <= m <= q <= |toks|
    ensures Visible(toks, p, q) == Visible(toks, p, m) + Visible(toks, m, q)
    decreases m - p
  {
    if p < m {
      VisibleSplit(toks, p + 1, m, q);
    }
  }

  /** Stepping over one token from `p`: only that token can be visible. */
  lemma VisibleStep(toks: seq<Token>, p: nat, q: nat)
    requires p < |toks| && q <= |toks| && toks[p].kind != EOF && StepsOver(toks, p, q)
    ensures Visible(toks, p, q) == if Hidden(toks[p].kind) then [] else [Shown(toks[p])]
  {
    VisibleSplit(toks, p, p + 1, q);
    VisibleWhitespace(toks, p + 1, q);
  }

  lemma {:induction false} VisibleWhitespace(toks: seq<Token>, p: nat, q: nat)
    requires p <= q <= |toks|
    requires forall k :: p <= k < q ==> toks[k].kind == WS
    ensures Visible(toks, p, q) == []
    decreases q - p
  {
    if p < q {
      VisibleWhitespace(toks, p + 1, q);
    }
  }

  /** The round trip of each production: when it counted no error, its tree
      read back gives exactly the visible tokens it stepped over. (The count
      never goes down, so a parse without errors has none in any part.) */
  lemma {:induction false} FactorYield(toks: seq<Token>, c: Cursor)
    requires Ready(toks, c) && Factor(toks, c).cur.errors == c.errors
    ensures Yield(Factor(toks, c).tree) == Visible(toks, c.pos, Factor(toks, c).cur.pos)
    decreases |toks| - c.pos, 0
  {
    var la := toks[c.pos];
    var r := Factor(toks, c);
    if la.kind == LPAREN {
      var c1 := Match(toks, c, LPAREN);
      var e := Exp(toks, c1);
      ExpYield(toks, c1);
      VisibleStep(toks, c.pos, c1.pos);
      VisibleStep(toks, e.cur.pos, r.cur.pos);
      VisibleSplit(toks, c.pos, c1.pos, r.cur.pos);
      VisibleSplit(toks, c1.pos, e.cur.pos, r.cur.pos);
    } else if la.kind == INT || la.kind == ID {
      VisibleStep(toks, c.pos, r.cur.pos);
    }
  }

  lemma {:induction false} TTailYield(toks: seq<Token>, c: Cursor)
    requires Ready(toks, c) && TTail(toks, c).cur.errors == c.errors
    ensures OptYield(TTail(toks, c).tree) == Visible(toks, c.pos, TTail(toks, c).cur.pos)
    decreases |toks| - c.pos, 0
  {
    if IsMulOp(toks[c.pos].kind) {
      var c1 := Match(toks, c, toks[c.pos].kind);
      var f := Factor(toks, c1);
      var t := TTail(toks, f.cur);
      TTailChildren(toks, c);
      FactorYield(toks, c1);
      TTailYield(toks, f.cur);
      TailStepYield(toks, c.pos, c1.pos, f.cur.pos, t.cur.pos, TTail(toks, c).tree.value);
    }
  }

  lemma {:induction false} TermYield(toks: seq<Token>, c: Cursor)
    requires Ready(toks, c) && Term(toks, c).cur.errors == c.errors
    ensures Yield(Term(toks, c).tree) == Visible(toks, c.pos, Term(toks, c).cur.pos)
    decreases |toks| - c.pos, 1
  {
    var f := Factor(toks, c);
    TermAdoptsFactor(toks, c);
    FactorYield(toks, c);
    if IsMulOp(toks[f.cur.pos].kind) {
      var t := TTail(toks, f.cur);
      TTailYield(toks, f.cur);
      AdoptYield(t.tree.value, f.tree);
      VisibleSplit(toks, c.pos, f.cur.pos, t.cur.pos);
    }
  }

  lemma {:induction false} ETailYield(toks: seq<Token>, c: Cursor)
    requires Ready(toks, c) && ETail(toks, c).cur.errors == c.errors
    ensures OptYield(ETail(toks, c).tree) == Visible(toks, c.pos, ETail(toks, c).cur.pos)
    decreases |toks| - c.pos, 0
  {
    if IsAddOp(toks[c.pos].kind) {
      var c1 := Match(toks, c, toks[c.pos].kind);
      var t := Term(toks, c1);
      var e := ETail(toks, t.cur);
      ETailChildren(toks, c);
      TermYield(toks, c1);
      ETailYield(toks, t.cur);
      TailStepYield(toks, c.pos, c1.pos, t.cur.pos, e.cur.pos, ETail(toks, c).tree.value);
    }
  }

  lemma {:induction false} ExpYield(toks: seq<Token>, c: Cursor)
    requires Ready(toks, c) && Exp(toks, c).cur.errors == c.errors
    ensures Yield(Exp(toks, c).tree) == Visible(toks, c.pos, Exp(toks, c).cur.pos)
    decreases |toks| - c.pos, 2
  {
    var t := Term(toks, c);
    ExpAdoptsTerm(toks, c);
    TermYield(toks, c);
    if IsAddOp(toks[t.cur.pos].kind) {
      var e := ETail(toks, t.cur);
      ETailYield(toks, t.cur);
      AdoptYield(e.tree.value, t.tree);
      VisibleSplit(toks, c.pos, t.cur.pos, e.cur.pos);
    }
  }

  lemma {:induction false} AssignYield(toks: seq<Token>, c: Cursor)
    requires Ready(toks, c) && Assign(toks, c).cur.errors == c.errors
    ensures StatementYield(Assign(toks, c).tree) == Visible(toks, c.pos, Assign(toks, c).cur.pos)
  {
    if toks[c.pos].kind == ID {
      AssignAfterIdentifier(toks, c);
      var c1 := Consume(toks, c);
      if toks[c1.pos].kind == ASSGN {
        var c2 := Consume(toks, c1);
        var e := Exp(toks, c2);
        ExpYield(toks, c2);
        AssignStepYield(toks, c.pos, c1.pos, c2.pos, e.cur.pos, Assign(toks, c).tree, e.tree);
      }
    }
  }

  lemma {:induction false} StatementYields(toks: seq<Token>, c: Cursor)
    requires Ready(toks, c) && Statement(toks, c).cur.errors == c.errors
    ensures StatementYield(Statement(toks, c).tree) == Visible(toks, c.pos, Statement(toks, c).cur.pos)
  {
    if toks[c.pos].kind == PRINT {
      var c1 := Consume(toks, c);
      var e := Exp(toks, c1);
      ExpYield(toks, c1);
      PrintStepYield(toks, c.pos, c1.pos, e.cur.pos, Statement(toks, c).tree, e.tree);
    } else {
      AssignYield(toks, c);
    }
  }

  lemma {:induction false} StatementsYields(toks: seq<Token>, c: Cursor)
    requires Ready(toks, c)
    ensures Statements(toks, c).cur.errors == c.errors ==>
              StatementsYield(Statements(toks, c).tree) == Visible(toks, c.pos, Statements(toks, c).cur.pos)
    decreases |toks| - c.pos
  {
    if toks[c.pos].kind != EOF && Statements(toks, c).cur.errors == c.errors {
      var s := Statement(toks, c);
      var rest := Statements(toks, s.cur);
      StatementYields(toks, c);
      StatementsYields(toks, s.cur);
      assert ([s.tree] + rest.tree)[1..] == rest.tree;
      VisibleSplit(toks, c.pos, s.cur.pos, rest.cur.pos);
    }
  }

  lemma {:induction false} PresentYield(ts: seq<Node>)
    ensures ChildrenYield(Present(ts)) == StatementsYield(ts)
  {
    if |ts| > 0 {
      assert Present(ts)[1..] == Present(ts[1..]);
      PresentYield(ts[1..]);
    }
  }

  /** The round trip of a whole parse: when no error was counted, reading the
      program tree back gives, in order, every token before the end of input
      except whitespace and parentheses (with each `-` read as "etail"). */
  lemma ParseYield(toks: seq<Token>)
    requires Valid(toks) && Parse(toks).cur.errors == 0
    ensures Parse(toks).cur.pos == FirstEof(toks)
    ensures ProgramYield(Parse(toks).tree) == Visible(toks, 0, FirstEof(toks))
  {
    var c := Start(toks);
    assert c.(errors := 0) == c;
    var s := Statements(toks, c);
    StatementsYields(toks, c);
    PresentYield(s.tree);
    VisibleWhitespace(toks, 0, c.pos);
    VisibleSplit(toks, 0, c.pos, s.cur.pos);
  }

  /** Appending a left operand to a tail node puts its tokens first. */
  lemma AdoptYield(tail: Node, left: Node)
    requires |tail.children| == 2
    ensures Yield(AddChild(tail, Some(left))) == Yield(left) + Yield(tail)
  {
  }

  /** An `=` node over the identifier read at `p` and an expression read
      from `p2` to `r`, with the `=` itself read at `p1`, reads as the tokens
      from `p` to `r`. */
  lemma AssignStepYield(toks: seq<Token>, p: nat, p1: nat, p2: nat, r: nat, n: Node, x: Node)
    requires p < |toks| && toks[p].kind == ID && StepsOver(toks, p, p1)
    requires p1 < |toks| && toks[p1].kind == ASSGN && StepsOver(toks, p1, p2)
    requires p2 <= r <= |toks|
    requires n.tag == Tok(toks[p1]) && n.children == [Some(Leaf(toks[p])), Some(x)]
    requires Yield(x) == Visible(toks, p2, r)
    ensures StatementYield(n) == Visible(toks, p, r)
  {
    assert Visible(toks, p, p1) == [Tok(toks[p])] by { VisibleStep(toks, p, p1); }
    assert Visible(toks, p1, p2) == [Tok(toks[p1])] by { VisibleStep(toks, p1, p2); }
    VisibleSplit(toks, p, p1, r);
    VisibleSplit(toks, p1, p2, r);
    assert OptYield(n.children[0]) == [Tok(toks[p])];
    assert OptYield(n.children[1]) == Yield(x);
    assert StatementYield(n) == [Tok(toks[p])] + [Tok(toks[p1])] + Yield(x);
  }

  /** A `print` node over an expression read from `p1` to `r`, its keyword
      read at `p`, reads as the tokens from `p` to `r`. */
  lemma PrintStepYield(toks: seq<Token>, p: nat, p1: nat, r: nat, n: Node, x: Node)
    requires p < |toks| && toks[p].kind == PRINT && StepsOver(toks, p, p1)
    requires p1 <= r <= |toks|
    requires n.tag == Tok(toks[p]) && n.children == [Some(x)]
    requires Yield(x) == Visible(toks, p1, r)
    ensures StatementYield(n) == Visible(toks, p, r)
  {
    assert Visible(toks, p, p1) == [Tok(toks[p])] by { VisibleStep(toks, p, p1); }
    VisibleSplit(toks, p, p1, r);
    assert OptYield(n.children[0]) == Yield(x);
  }

  /** A tail node whose operator was read at `p`, whose operand was read from
      `p1` to `q` and whose rest was read from `q` to `r` reads as the tokens
      from `p` to `r`. */
  lemma TailStepYield(toks: seq<Token>, p: nat, p1: nat, q: nat, r: nat, n: Node)
    requires p < |toks| && toks[p].kind != EOF && !Hidden(toks[p].kind) && StepsOver(toks, p, p1)
    requires p1 <= q <= r <= |toks|
    requires |n.children| == 2 && n.tag == Shown(toks[p])
    requires OptYield(n.children[0]) == Visible(toks, p1, q)
    requires OptYield(n.children[1]) == Visible(toks, q, r)
    ensures Yield(n) == Visible(toks, p, r)
  {
    VisibleStep(toks, p, p1);
    VisibleSplit(toks, p, p1, r);
    VisibleSplit(toks, p1, q, r);
  }
}
