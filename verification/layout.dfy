/**
 Whitespace and the error counter never steer the parse. Two cursors, on the
 same stream or on two streams, that see the same non-whitespace tokens ahead
 of them parse alike: every production builds the same tree, counts the same
 number of new errors, and leaves both cursors again seeing the same tokens
 ahead. Two inputs that differ only in whitespace therefore parse to the same
 tree with the same error count, and whatever the count was before `Program`
 has no effect on it.
 */
module Layout {
  import opened Tokens
  import opened Ast
  import opened Lookahead
  import opened Parser

  /** The non-whitespace tokens from position `p` on. */
  ghost function Ahead(toks: seq<Token>, p: nat): seq<Token>
    requires p <= |toks|
  {
    NonWhitespace(toks[p..])
  }

  /** Two runs of a production behave alike: same tree, same number of new
      errors, and the same tokens ahead afterwards. */
  ghost predicate Alike<T>(t1: seq<Token>, c1: Cursor, r1: Parsed<T>, t2: seq<Token>, c2: Cursor, r2: Parsed<T>)
  {
    && r1.tree == r2.tree
    && r1.cur.errors - c1.errors == r2.cur.errors - c2.errors
    && r1.cur.pos <= |t1| && r2.cur.pos <= |t2|
    && Ahead(t1, r1.cur.pos) == Ahead(t2, r2.cur.pos)
  }

  lemma {:induction false} AheadSkipsWhitespace(toks: seq<Token>, i: nat, j: nat)
    requires i <= j <= |toks|
    requires forall k :: i <= k < j ==> toks[k].kind == WS
    ensures Ahead(toks, i) == Ahead(toks, j)
    decreases j - i
  {
    if i < j {
      assert toks[i..][1..] == toks[i + 1..];
      AheadSkipsWhitespace(toks, i + 1, j);
    }
  }

  lemma {:induction false} AheadShrinks(toks: seq<Token>, i: nat, j: nat)
    requires i <= j <= |toks|
    ensures |Ahead(toks, j)| <= |Ahead(toks, i)|
    decreases j - i
  {
    if i < j {
      assert toks[i..][1..] == toks[i + 1..];
      AheadShrinks(toks, i + 1, j);
    }
  }

  /** On one stream, the tokens ahead pin down a lookahead position. */
  lemma AheadDeterminesPosition(toks: seq<Token>, p: nat, q: nat)
    requires p < |toks| && q < |toks|
    requires toks[p].kind != WS && toks[q].kind != WS
    requires Ahead(toks, p) == Ahead(toks, q)
    ensures p == q
  {
    assert toks[p..][1..] == toks[p + 1..];
    assert toks[q..][1..] == toks[q + 1..];
    if p < q {
      AheadShrinks(toks, p + 1, q);
    } else if q < p {
      AheadShrinks(toks, q + 1, p);
    }
  }

  /** The lookahead is the first token ahead; consuming it drops exactly that
      token, and at EOF nothing changes. */
  lemma AheadConsume(toks: seq<Token>, c: Cursor)
    requires Ready(toks, c)
    ensures Ahead(toks, c.pos) != [] && Ahead(toks, c.pos)[0] == toks[c.pos]
    ensures toks[c.pos].kind == EOF ==> Ahead(toks, Consume(toks, c).pos) == Ahead(toks, c.pos)
    ensures toks[c.pos].kind != EOF ==> Ahead(toks, Consume(toks, c).pos) == Ahead(toks, c.pos)[1..]
  {
    assert toks[c.pos..][1..] == toks[c.pos + 1..];
    if toks[c.pos].kind != EOF {
      AheadSkipsWhitespace(toks, c.pos + 1, Consume(toks, c).pos);
    }
  }

  /** `Match` on two cursors that see the same tokens ahead counts the same
      and leaves them seeing the same tokens ahead. */
  lemma MatchAlike(t1: seq<Token>, c1: Cursor, t2: seq<Token>, c2: Cursor, kind: Kind)
    requires Ready(t1, c1) && Ready(t2, c2) && Ahead(t1, c1.pos) == Ahead(t2, c2.pos)
    ensures t1[c1.pos] == t2[c2.pos]
    ensures Match(t1, c1, kind).errors - c1.errors == Match(t2, c2, kind).errors - c2.errors
    ensures Ahead(t1, Match(t1, c1, kind).pos) == Ahead(t2, Match(t2, c2, kind).pos)
  {
    AheadConsume(t1, c1);
    AheadConsume(t2, c2);
  }

  lemma {:induction false} FactorAlike(t1: seq<Token>, c1: Cursor, t2: seq<Token>, c2: Cursor)
    requires Ready(t1, c1) && Ready(t2, c2) && Ahead(t1, c1.pos) == Ahead(t2, c2.pos)
    ensures Alike(t1, c1, Factor(t1, c1), t2, c2, Factor(t2, c2))
    decreases |t1| - c1.pos, 0
  {
    MatchAlike(t1, c1, t2, c2, LPAREN);
    if t1[c1.pos].kind == LPAREN {
      ExpAlike(t1, Match(t1, c1, LPAREN), t2, Match(t2, c2, LPAREN));
      ParenthesisedAlike(t1, c1, t2, c2);
    } else {
      OperandAlike(t1, c1, t2, c2);
    }
  }

  /** A parenthesised factor behaves alike once its inner expression does. */
  lemma ParenthesisedAlike(t1: seq<Token>, c1: Cursor, t2: seq<Token>, c2: Cursor)
    requires Ready(t1, c1) && Ready(t2, c2) && Ahead(t1, c1.pos) == Ahead(t2, c2.pos)
    requires t1[c1.pos].kind == LPAREN && t2[c2.pos].kind == LPAREN
    requires Alike(t1, Match(t1, c1, LPAREN), Exp(t1, Match(t1, c1, LPAREN)),
                   t2, Match(t2, c2, LPAREN), Exp(t2, Match(t2, c2, LPAREN)))
    ensures Alike(t1, c1, Factor(t1, c1), t2, c2, Factor(t2, c2))
  {
    var e1, e2 := Exp(t1, Match(t1, c1, LPAREN)), Exp(t2, Match(t2, c2, LPAREN));
    MatchAlike(t1, e1.cur, t2, e2.cur, RPAREN);
  }

  /** A factor that is not parenthesised is one token, on both cursors. */
  lemma OperandAlike(t1: seq<Token>, c1: Cursor, t2: seq<Token>, c2: Cursor)
    requires Ready(t1, c1) && Ready(t2, c2) && Ahead(t1, c1.pos) == Ahead(t2, c2.pos)
    requires t1[c1.pos].kind != LPAREN
    ensures Alike(t1, c1, Factor(t1, c1), t2, c2, Factor(t2, c2))
  {
    MatchAlike(t1, c1, t2, c2, t1[c1.pos].kind);
  }

  lemma {:induction false} TTailAlike(t1: seq<Token>, c1: Cursor, t2: seq<Token>, c2: Cursor)
    requires Ready(t1, c1) && Ready(t2, c2) && Ahead(t1, c1.pos) == Ahead(t2, c2.pos)
    ensures Alike(t1, c1, TTail(t1, c1), t2, c2, TTail(t2, c2))
    decreases |t1| - c1.pos, 0
  {
    var la := t1[c1.pos];
    MatchAlike(t1, c1, t2, c2, la.kind);
    if IsMulOp(la.kind) {
      var m1, m2 := Match(t1, c1, la.kind), Match(t2, c2, la.kind);
      FactorAlike(t1, m1, t2, m2);
      var f1, f2 := Factor(t1, m1), Factor(t2, m2);
      TTailAlike(t1, f1.cur, t2, f2.cur);
    }
  }

  lemma {:induction false} TermAlike(t1: seq<Token>, c1: Cursor, t2: seq<Token>, c2: Cursor)
    requires Ready(t1, c1) && Ready(t2, c2) && Ahead(t1, c1.pos) == Ahead(t2, c2.pos)
    ensures Alike(t1, c1, Term(t1, c1), t2, c2, Term(t2, c2))
    decreases |t1| - c1.pos, 1
  {
    FactorAlike(t1, c1, t2, c2);
    var f1, f2 := Factor(t1, c1), Factor(t2, c2);
    AheadConsume(t1, f1.cur);
    AheadConsume(t2, f2.cur);
    if IsMulOp(t1[f1.cur.pos].kind) {
      TTailAlike(t1, f1.cur, t2, f2.cur);
    }
  }

  lemma {:induction false} ETailAlike(t1: seq<Token>, c1: Cursor, t2: seq<Token>, c2: Cursor)
    requires Ready(t1, c1) && Ready(t2, c2) && Ahead(t1, c1.pos) == Ahead(t2, c2.pos)
    ensures Alike(t1, c1, ETail(t1, c1), t2, c2, ETail(t2, c2))
    decreases |t1| - c1.pos, 0
  {
    var la := t1[c1.pos];
    MatchAlike(t1, c1, t2, c2, la.kind);
    if IsAddOp(la.kind) {
      var m1, m2 := Match(t1, c1, la.kind), Match(t2, c2, la.kind);
      TermAlike(t1, m1, t2, m2);
      var s1, s2 := Term(t1, m1), Term(t2, m2);
      ETailAlike(t1, s1.cur, t2, s2.cur);
    }
  }

  lemma {:induction false} ExpAlike(t1: seq<Token>, c1: Cursor, t2: seq<Token>, c2: Cursor)
    requires Ready(t1, c1) && Ready(t2, c2) && Ahead(t1, c1.pos) == Ahead(t2, c2.pos)
    ensures Alike(t1, c1, Exp(t1, c1), t2, c2, Exp(t2, c2))
    decreases |t1| - c1.pos, 2
  {
    TermAlike(t1, c1, t2, c2);
    var s1, s2 := Term(t1, c1), Term(t2, c2);
    AheadConsume(t1, s1.cur);
    AheadConsume(t2, s2.cur);
    if IsAddOp(t1[s1.cur.pos].kind) {
      ETailAlike(t1, s1.cur, t2, s2.cur);
    }
  }

  lemma AssignAlike(t1: seq<Token>, c1: Cursor, t2: seq<Token>, c2: Cursor)
    requires Ready(t1, c1) && Ready(t2, c2) && Ahead(t1, c1.pos) == Ahead(t2, c2.pos)
    ensures Alike(t1, c1, Assign(t1, c1), t2, c2, Assign(t2, c2))
  {
    MatchAlike(t1, c1, t2, c2, ID);
    if t1[c1.pos].kind == ID {
      var m1, m2 := Match(t1, c1, ID), Match(t2, c2, ID);
      MatchAlike(t1, m1, t2, m2, ASSGN);
      if t1[m1.pos].kind == ASSGN {
        ExpAlike(t1, Match(t1, m1, ASSGN), t2, Match(t2, m2, ASSGN));
      }
    }
  }

  lemma StatementAlike(t1: seq<Token>, c1: Cursor, t2: seq<Token>, c2: Cursor)
    requires Ready(t1, c1) && Ready(t2, c2) && Ahead(t1, c1.pos) == Ahead(t2, c2.pos)
    ensures Alike(t1, c1, Statement(t1, c1), t2, c2, Statement(t2, c2))
  {
    MatchAlike(t1, c1, t2, c2, PRINT);
    if t1[c1.pos].kind == PRINT {
      ExpAlike(t1, Match(t1, c1, PRINT), t2, Match(t2, c2, PRINT));
    } else {
      AssignAlike(t1, c1, t2, c2);
    }
  }

  lemma {:induction false} StatementsAlike(t1: seq<Token>, c1: Cursor, t2: seq<Token>, c2: Cursor)
    requires Ready(t1, c1) && Ready(t2, c2) && Ahead(t1, c1.pos) == Ahead(t2, c2.pos)
    ensures Alike(t1, c1, Statements(t1, c1), t2, c2, Statements(t2, c2))
    decreases |t1| - c1.pos
  {
    AheadConsume(t1, c1);
    AheadConsume(t2, c2);
    if t1[c1.pos].kind != EOF {
      StatementAlike(t1, c1, t2, c2);
      var s1, s2 := Statement(t1, c1), Statement(t2, c2);
      StatementsAlike(t1, s1.cur, t2, s2.cur);
    }
  }

  /** PGM starts its count afresh, so two cursors that see the same tokens
      ahead end with the same tree and the same count, whatever they had
      counted before. */
  lemma ProgramAlike(t1: seq<Token>, c1: Cursor, t2: seq<Token>, c2: Cursor)
    requires Ready(t1, c1) && Ready(t2, c2) && Ahead(t1, c1.pos) == Ahead(t2, c2.pos)
    ensures Program(t1, c1).tree == Program(t2, c2).tree
    ensures Program(t1, c1).cur.errors == Program(t2, c2).cur.errors
  {
    StatementsAlike(t1, c1.(errors := 0), t2, c2.(errors := 0));
  }

  /** Whitespace is insignificant: two token streams with the same
      non-whitespace tokens parse to the same tree with the same number of
      errors. */
  lemma ParseIgnoresWhitespace(t1: seq<Token>, t2: seq<Token>)
    requires Valid(t1) && Valid(t2) && NonWhitespace(t1) == NonWhitespace(t2)
    ensures Parse(t1).tree == Parse(t2).tree
    ensures Parse(t1).cur.errors == Parse(t2).cur.errors
  {
    AheadSkipsWhitespace(t1, 0, Start(t1).pos);
    AheadSkipsWhitespace(t2, 0, Start(t2).pos);
    assert t1[0..] == t1 && t2[0..] == t2;
    ProgramAlike(t1, Start(t1), t2, Start(t2));
  }

  /** The error count never steers an expression: starting from any count
      gives the same tree and position, with the count shifted by the
      difference. */
  lemma ExpIgnoresErrorCount(toks: seq<Token>, c: Cursor, e: nat)
    requires Ready(toks, c)
    ensures Exp(toks, c.(errors := e)).tree == Exp(toks, c).tree
    ensures Exp(toks, c.(errors := e)).cur.pos == Exp(toks, c).cur.pos
    ensures Exp(toks, c.(errors := e)).cur.errors - e == Exp(toks, c).cur.errors - c.errors
  {
    ExpAlike(toks, c.(errors := e), toks, c);
    AheadDeterminesPosition(toks, Exp(toks, c.(errors := e)).cur.pos, Exp(toks, c).cur.pos);
  }
}
