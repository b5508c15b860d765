/**
 The parser accepts exactly the language of the grammar. A parse counts no
 error if and only if the tokens before the end of input, whitespace
 dropped, are derivable from PGM.

 Both directions go production by production, over the tokens a cursor
 sees ahead of it. In one direction a derivation spelled out ahead of the
 cursor, followed by a token that cannot extend it, is consumed exactly and
 without error. In the other direction a run without error has consumed
 exactly a derivation.
 */
module Acceptance {
  import opened Tokens
  import opened Lookahead
  import opened Parser
  import opened Layout
  import opened Grammar

  /** A token that is not EOF, seen first ahead, is what `match` of its own
      kind steps over, without error. */
  lemma MatchStep(toks: seq<Token>, c: Cursor, t: Token, more: seq<Token>)
    requires Ready(toks, c) && Ahead(toks, c.pos) == [t] + more && t.kind != EOF
    ensures toks[c.pos] == t
    ensures Match(toks, c, t.kind).errors == c.errors
    ensures Ahead(toks, Match(toks, c, t.kind).pos) == more
  {
    AheadConsume(toks, c);
  }

  lemma {:induction false} FactorAccepts(toks: seq<Token>, c: Cursor, f: FactorForm, rest: seq<Token>)
    requires Ready(toks, c) && WfFactor(f) && Ahead(toks, c.pos) == FactorTokens(f) + rest
    ensures Factor(toks, c).cur.errors == c.errors
    ensures Ahead(toks, Factor(toks, c).cur.pos) == rest
    decreases f
  {
    match f
    case Atom(t) =>
      FactorSpelled(f, rest);
      MatchStep(toks, c, t, rest);
    case Parens(open, inner, close) =>
      FactorSpelled(f, rest);
      MatchStep(toks, c, open, ExpTokens(inner) + ([close] + rest));
      var c1 := Match(toks, c, LPAREN);
      ExpAccepts(toks, c1, inner, [close] + rest);
      MatchStep(toks, Exp(toks, c1).cur, close, rest);
  }

  lemma {:induction false} TTailAccepts(toks: seq<Token>, c: Cursor, t: TTailForm, rest: seq<Token>)
    requires Ready(toks, c) && WfTTail(t) && Ahead(toks, c.pos) == TTailTokens(t) + rest && EndsTerm(rest)
    ensures TTail(toks, c).cur.errors == c.errors
    ensures Ahead(toks, TTail(toks, c).cur.pos) == rest
    decreases t
  {
    match t
    case TEnd =>
      TTailSpelled(t, rest);
      AheadConsume(toks, c);
    case TMore(op, f, r) =>
      TTailSpelled(t, rest);
      MatchStep(toks, c, op, FactorTokens(f) + (TTailTokens(r) + rest));
      var c1 := Consume(toks, c);
      FactorAccepts(toks, c1, f, TTailTokens(r) + rest);
      TTailAccepts(toks, Factor(toks, c1).cur, r, rest);
      TTailChildren(toks, c);
  }

  lemma {:induction false} TermAccepts(toks: seq<Token>, c: Cursor, t: TermForm, rest: seq<Token>)
    requires Ready(toks, c) && WfTerm(t) && Ahead(toks, c.pos) == TermTokens(t) + rest && EndsTerm(rest)
    ensures Term(toks, c).cur.errors == c.errors
    ensures Ahead(toks, Term(toks, c).cur.pos) == rest
    decreases t
  {
    TermSpelled(t, rest);
    FactorAccepts(toks, c, t.head, TTailTokens(t.tail) + rest);
    TTailAccepts(toks, Factor(toks, c).cur, t.tail, rest);
    TermAdoptsFactor(toks, c);
  }

  lemma {:induction false} ETailAccepts(toks: seq<Token>, c: Cursor, e: ETailForm, rest: seq<Token>)
    requires Ready(toks, c) && WfETail(e) && Ahead(toks, c.pos) == ETailTokens(e) + rest && EndsExp(rest)
    ensures ETail(toks, c).cur.errors == c.errors
    ensures Ahead(toks, ETail(toks, c).cur.pos) == rest
    decreases e
  {
    match e
    case EEnd =>
      ETailSpelled(e, rest);
      AheadConsume(toks, c);
    case EMore(op, t, r) =>
      ETailSpelled(e, rest);
      MatchStep(toks, c, op, TermTokens(t) + (ETailTokens(r) + rest));
      var c1 := Consume(toks, c);
      ETailEndsTerm(r, rest);
      TermAccepts(toks, c1, t, ETailTokens(r) + rest);
      ETailAccepts(toks, Term(toks, c1).cur, r, rest);
      ETailChildren(toks, c);
  }

  lemma {:induction false} ExpAccepts(toks: seq<Token>, c: Cursor, e: ExpForm, rest: seq<Token>)
    requires Ready(toks, c) && WfExp(e) && Ahead(toks, c.pos) == ExpTokens(e) + rest && EndsExp(rest)
    ensures Exp(toks, c).cur.errors == c.errors
    ensures Ahead(toks, Exp(toks, c).cur.pos) == rest
    decreases e
  {
    ExpSpelled(e, rest);
    ETailEndsTerm(e.tail, rest);
    TermAccepts(toks, c, e.head, ETailTokens(e.tail) + rest);
    ETailAccepts(toks, Term(toks, c).cur, e.tail, rest);
    ExpAdoptsTerm(toks, c);
  }

  /** `print EXP` ahead: `print` is stepped over and the expression consumed
      exactly. */
  lemma PrintAccepts(toks: seq<Token>, c: Cursor, s: StmtForm, rest: seq<Token>)
    requires Ready(toks, c) && s.PrintForm? && WfStmt(s)
    requires Ahead(toks, c.pos) == StmtTokens(s) + rest && EndsExp(rest)
    ensures Statement(toks, c).cur.errors == c.errors
    ensures Ahead(toks, Statement(toks, c).cur.pos) == rest
  {
    PrintExpAccepts(toks, c, s, rest);
    PrintEnds(toks, c, rest);
  }

  lemma PrintExpAccepts(toks: seq<Token>, c: Cursor, s: StmtForm, rest: seq<Token>)
    requires Ready(toks, c) && s.PrintForm? && WfStmt(s)
    requires Ahead(toks, c.pos) == StmtTokens(s) + rest && EndsExp(rest)
    ensures toks[c.pos].kind == PRINT
    ensures Exp(toks, Consume(toks, c)).cur.errors == c.errors
    ensures Ahead(toks, Exp(toks, Consume(toks, c)).cur.pos) == rest
  {
    var more := ExpTokens(s.exp) + rest;
    StmtSpelled(s, rest);
    MatchStep(toks, c, s.keyword, more);
    ExpAccepts(toks, Consume(toks, c), s.exp, rest);
  }

  /** A `print` statement ends where its expression ends. */
  lemma PrintEnds(toks: seq<Token>, c: Cursor, rest: seq<Token>)
    requires Ready(toks, c) && toks[c.pos].kind == PRINT
    requires Exp(toks, Consume(toks, c)).cur.errors == c.errors
    requires Ahead(toks, Exp(toks, Consume(toks, c)).cur.pos) == rest
    ensures Statement(toks, c).cur.errors == c.errors
    ensures Ahead(toks, Statement(toks, c).cur.pos) == rest
  {
  }

  /** `ID = EXP` ahead: both tokens are stepped over and the expression
      consumed exactly. */
  lemma AssignAccepts(toks: seq<Token>, c: Cursor, s: StmtForm, rest: seq<Token>)
    requires Ready(toks, c) && s.AssignForm? && WfStmt(s)
    requires Ahead(toks, c.pos) == StmtTokens(s) + rest && EndsExp(rest)
    ensures Statement(toks, c).cur.errors == c.errors
    ensures Ahead(toks, Statement(toks, c).cur.pos) == rest
  {
    AssignExpAccepts(toks, c, s, rest);
    AssignEnds(toks, c, rest);
  }

  lemma AssignExpAccepts(toks: seq<Token>, c: Cursor, s: StmtForm, rest: seq<Token>)
    requires Ready(toks, c) && s.AssignForm? && WfStmt(s)
    requires Ahead(toks, c.pos) == StmtTokens(s) + rest && EndsExp(rest)
    ensures toks[c.pos].kind == ID && toks[Consume(toks, c).pos].kind == ASSGN
    ensures Exp(toks, Consume(toks, Consume(toks, c))).cur.errors == c.errors
    ensures Ahead(toks, Exp(toks, Consume(toks, Consume(toks, c))).cur.pos) == rest
  {
    var more := ExpTokens(s.exp) + rest;
    StmtSpelled(s, rest);
    MatchStep(toks, c, s.id, [s.eq] + more);
    var c1 := Consume(toks, c);
    MatchStep(toks, c1, s.eq, more);
    ExpAccepts(toks, Consume(toks, c1), s.exp, rest);
  }

  /** An assignment `ID = EXP` ends where its expression ends. */
  lemma AssignEnds(toks: seq<Token>, c: Cursor, rest: seq<Token>)
    requires Ready(toks, c) && toks[c.pos].kind == ID && toks[Consume(toks, c).pos].kind == ASSGN
    requires Exp(toks, Consume(toks, Consume(toks, c))).cur.errors == c.errors
    requires Ahead(toks, Exp(toks, Consume(toks, Consume(toks, c))).cur.pos) == rest
    ensures Statement(toks, c).cur.errors == c.errors
    ensures Ahead(toks, Statement(toks, c).cur.pos) == rest
  {
    AssignAfterIdentifier(toks, c);
  }

  lemma StatementAccepts(toks: seq<Token>, c: Cursor, s: StmtForm, rest: seq<Token>)
    requires Ready(toks, c) && WfStmt(s) && Ahead(toks, c.pos) == StmtTokens(s) + rest && EndsExp(rest)
    ensures Statement(toks, c).cur.errors == c.errors
    ensures Ahead(toks, Statement(toks, c).cur.pos) == rest
  {
    if s.PrintForm? {
      PrintAccepts(toks, c, s, rest);
    } else {
      AssignAccepts(toks, c, s, rest);
    }
  }

  /** The statement loop, past one statement, goes on from where it ended. */
  lemma StatementsStep(toks: seq<Token>, c: Cursor)
    requires Ready(toks, c) && toks[c.pos].kind != EOF
    ensures Statements(toks, c).cur == Statements(toks, Statement(toks, c).cur).cur
  {
  }

  lemma {:induction false} StatementsAccept(toks: seq<Token>, c: Cursor, ss: seq<StmtForm>, rest: seq<Token>)
    requires Ready(toks, c) && WfProgram(ss) && Ahead(toks, c.pos) == ProgramTokens(ss) + rest
    requires |rest| > 0 && rest[0].kind == EOF
    ensures Statements(toks, c).cur.errors == c.errors
    ensures Ahead(toks, Statements(toks, c).cur.pos) == rest
    decreases |ss|
  {
    AheadConsume(toks, c);
    if |ss| > 0 {
      var after := ProgramTokens(ss[1..]) + rest;
      ProgramSpelled(ss, rest);
      StmtStarts(ss[0]);
      ProgramEndsExp(ss[1..], rest);
      StatementAccepts(toks, c, ss[0], after);
      assert WfProgram(ss[1..]);
      StatementsAccept(toks, Statement(toks, c).cur, ss[1..], rest);
      StatementsStep(toks, c);
    }
  }

  /** The whole input, whitespace dropped, splits at the first EOF into the
      tokens before the end and the tokens the parser sees from there. */
  lemma InputSplits(toks: seq<Token>)
    requires Valid(toks)
    ensures Ahead(toks, Start(toks).pos) == NonWhitespace(toks[..FirstEof(toks)]) + Ahead(toks, FirstEof(toks))
    ensures Ready(toks, Cursor(FirstEof(toks), 0))
    ensures Ahead(toks, FirstEof(toks)) != [] && Ahead(toks, FirstEof(toks))[0].kind == EOF
  {
    var e := FirstEof(toks);
    AheadSkipsWhitespace(toks, 0, Start(toks).pos);
    assert toks[0..] == toks[..e] + toks[e..];
    NonWhitespaceAppend(toks[..e], toks[e..]);
    AheadConsume(toks, Cursor(e, 0));
  }

  /** Input derivable from the grammar parses without error. */
  lemma ParseAccepts(toks: seq<Token>, ss: seq<StmtForm>)
    requires Valid(toks) && WfProgram(ss) && NonWhitespace(toks[..FirstEof(toks)]) == ProgramTokens(ss)
    ensures Parse(toks).cur.errors == 0
  {
    InputSplits(toks);
    var c := Start(toks);
    assert c.(errors := 0) == c;
    StatementsAccept(toks, c, ss, Ahead(toks, FirstEof(toks)));
  }

  /** A lookahead that is not EOF is the first token ahead, and the tokens
      ahead after `consume` are the rest. */
  lemma AheadStep(toks: seq<Token>, c: Cursor)
    requires Ready(toks, c) && toks[c.pos].kind != EOF
    ensures Ahead(toks, c.pos) == [toks[c.pos]] + Ahead(toks, Consume(toks, c).pos)
  {
    AheadConsume(toks, c);
  }

  lemma {:induction false} FactorDerives(toks: seq<Token>, c: Cursor) returns (f: FactorForm)
    requires Ready(toks, c) && Factor(toks, c).cur.errors == c.errors
    ensures WfFactor(f) && Ahead(toks, c.pos) == FactorTokens(f) + Ahead(toks, Factor(toks, c).cur.pos)
    decreases |toks| - c.pos, 0
  {
    var la := toks[c.pos];
    AheadStep(toks, c);
    if la.kind == LPAREN {
      var c1 := Consume(toks, c);
      FactorParenthesised(toks, c);
      var e := Exp(toks, c1).cur;
      assert toks[e.pos].kind == RPAREN && e.errors == c1.errors;
      var inner := ExpDerives(toks, c1);
      AheadStep(toks, e);
      f := Parens(la, inner, toks[e.pos]);
      FactorSpelled(f, Ahead(toks, Factor(toks, c).cur.pos));
    } else {
      assert la.kind in {INT, ID};
      f := Atom(la);
      FactorSpelled(f, Ahead(toks, Factor(toks, c).cur.pos));
    }
  }

  lemma {:induction false} TTailDerives(toks: seq<Token>, c: Cursor) returns (t: TTailForm)
    requires Ready(toks, c) && TTail(toks, c).cur.errors == c.errors
    ensures WfTTail(t) && Ahead(toks, c.pos) == TTailTokens(t) + Ahead(toks, TTail(toks, c).cur.pos)
    decreases |toks| - c.pos, 0
  {
    if IsMulOp(toks[c.pos].kind) {
      var c1 := Consume(toks, c);
      AheadStep(toks, c);
      TTailChildren(toks, c);
      var fc := Factor(toks, c1).cur;
      var f := FactorDerives(toks, c1);
      var r := TTailDerives(toks, fc);
      t := TMore(toks[c.pos], f, r);
      TTailSpelled(t, Ahead(toks, TTail(toks, c).cur.pos));
    } else {
      t := TEnd;
      TTailSpelled(t, Ahead(toks, TTail(toks, c).cur.pos));
    }
  }

  lemma {:induction false} TermDerives(toks: seq<Token>, c: Cursor) returns (t: TermForm)
    requires Ready(toks, c) && Term(toks, c).cur.errors == c.errors
    ensures WfTerm(t) && Ahead(toks, c.pos) == TermTokens(t) + Ahead(toks, Term(toks, c).cur.pos)
    decreases |toks| - c.pos, 1
  {
    var fc := Factor(toks, c).cur;
    TermAdoptsFactor(toks, c);
    assert Term(toks, c).cur == TTail(toks, fc).cur;
    var f := FactorDerives(toks, c);
    var tl := TTailDerives(toks, fc);
    t := TermForm(f, tl);
    TermSpelled(t, Ahead(toks, Term(toks, c).cur.pos));
  }

  lemma {:induction false} ETailDerives(toks: seq<Token>, c: Cursor) returns (e: ETailForm)
    requires Ready(toks, c) && ETail(toks, c).cur.errors == c.errors
    ensures WfETail(e) && Ahead(toks, c.pos) == ETailTokens(e) + Ahead(toks, ETail(toks, c).cur.pos)
    decreases |toks| - c.pos, 0
  {
    if IsAddOp(toks[c.pos].kind) {
      var c1 := Consume(toks, c);
      AheadStep(toks, c);
      ETailChildren(toks, c);
      var tc := Term(toks, c1).cur;
      var t := TermDerives(toks, c1);
      var r := ETailDerives(toks, tc);
      e := EMore(toks[c.pos], t, r);
      ETailSpelled(e, Ahead(toks, ETail(toks, c).cur.pos));
    } else {
      e := EEnd;
      ETailSpelled(e, Ahead(toks, ETail(toks, c).cur.pos));
    }
  }

  lemma {:induction false} ExpDerives(toks: seq<Token>, c: Cursor) returns (e: ExpForm)
    requires Ready(toks, c) && Exp(toks, c).cur.errors == c.errors
    ensures WfExp(e) && Ahead(toks, c.pos) == ExpTokens(e) + Ahead(toks, Exp(toks, c).cur.pos)
    decreases |toks| - c.pos, 2
  {
    var tc := Term(toks, c).cur;
    ExpAdoptsTerm(toks, c);
    assert Exp(toks, c).cur == ETail(toks, tc).cur;
    var t := TermDerives(toks, c);
    var tl := ETailDerives(toks, tc);
    e := ExpForm(t, tl);
    ExpSpelled(e, Ahead(toks, Exp(toks, c).cur.pos));
  }

  lemma StatementDerives(toks: seq<Token>, c: Cursor) returns (s: StmtForm)
    requires Ready(toks, c) && Statement(toks, c).cur.errors == c.errors
    ensures WfStmt(s) && Ahead(toks, c.pos) == StmtTokens(s) + Ahead(toks, Statement(toks, c).cur.pos)
  {
    var la := toks[c.pos];
    var c1 := Consume(toks, c);
    AheadStep(toks, c);
    if la.kind == PRINT {
      var e := ExpDerives(toks, c1);
      s := PrintForm(la, e);
    } else {
      assert la.kind == ID;
      AssignAfterIdentifier(toks, c);
      assert toks[c1.pos].kind == ASSGN;
      AheadStep(toks, c1);
      var e := ExpDerives(toks, Consume(toks, c1));
      s := AssignForm(la, toks[c1.pos], e);
    }
    StmtSpelled(s, Ahead(toks, Statement(toks, c).cur.pos));
  }

  lemma {:induction false} StatementsDerive(toks: seq<Token>, c: Cursor) returns (ss: seq<StmtForm>)
    requires Ready(toks, c) && Statements(toks, c).cur.errors == c.errors
    ensures WfProgram(ss) && Ahead(toks, c.pos) == ProgramTokens(ss) + Ahead(toks, Statements(toks, c).cur.pos)
    decreases |toks| - c.pos
  {
    if toks[c.pos].kind == EOF {
      ss := [];
    } else {
      var sc := Statement(toks, c).cur;
      StatementsStep(toks, c);
      assert sc.errors == c.errors && Statements(toks, sc).cur.errors == sc.errors;
      var s := StatementDerives(toks, c);
      var more := StatementsDerive(toks, sc);
      ss := [s] + more;
      ProgramCons(s, more, Ahead(toks, Statements(toks, c).cur.pos));
    }
  }

  /** An input that parses without error derives from the grammar. */
  lemma ParseDerives(toks: seq<Token>) returns (ss: seq<StmtForm>)
    requires Valid(toks) && Parse(toks).cur.errors == 0
    ensures WfProgram(ss) && ProgramTokens(ss) == NonWhitespace(toks[..FirstEof(toks)])
  {
    InputSplits(toks);
    var c := Start(toks);
    assert c.(errors := 0) == c;
    ss := StatementsDerive(toks, c);
    var end := Statements(toks, c).cur;
    assert end.pos == FirstEof(toks);
    var tail := Ahead(toks, FirstEof(toks));
    var words := NonWhitespace(toks[..FirstEof(toks)]);
    assert ProgramTokens(ss) + tail == words + tail;
    assert ProgramTokens(ss) == (words + tail)[..|words|];
  }

  /** The parser accepts exactly the grammar's language: a whole parse
      counts no error if and only if the tokens before the end of input,
      whitespace dropped, derive from PGM. */
  lemma ParseErrorFreeExactlyWhenDerivable(toks: seq<Token>)
    requires Valid(toks)
    ensures Parse(toks).cur.errors == 0 <==> Derivable(NonWhitespace(toks[..FirstEof(toks)]))
  {
    if Parse(toks).cur.errors == 0 {
      var ss := ParseDerives(toks);
    }
    if Derivable(NonWhitespace(toks[..FirstEof(toks)])) {
      var ss :| WfProgram(ss) && ProgramTokens(ss) == NonWhitespace(toks[..FirstEof(toks)]);
      ParseAccepts(toks, ss);
    }
  }
}
