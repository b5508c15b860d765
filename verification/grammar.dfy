/**
 The TINY grammar as a reference, independent of the parser: one datatype
 per nonterminal whose values are derivations, a well-formedness predicate
 that fixes the kind of every terminal, and a printer that spells a
 derivation out as the tokens it derives.

   PGM    -->  STMT*          (the code accepts an empty program)
   STMT   -->  ASSIGN | "print" EXP
   ASSIGN -->  ID "=" EXP
   EXP    -->  TERM ETAIL
   ETAIL  -->  "+" TERM ETAIL | "-" TERM ETAIL | EPSILON
   TERM   -->  FACTOR TTAIL
   TTAIL  -->  "*" FACTOR TTAIL | "/" FACTOR TTAIL | EPSILON
   FACTOR -->  "(" EXP ")" | INT | ID
 */
module Grammar {
  import opened Tokens

  datatype FactorForm = Parens(open: Token, inner: ExpForm, close: Token) | Atom(token: Token)
  datatype TTailForm = TEnd | TMore(op: Token, factor: FactorForm, rest: TTailForm)
  datatype TermForm = TermForm(head: FactorForm, tail: TTailForm)
  datatype ETailForm = EEnd | EMore(op: Token, term: TermForm, rest: ETailForm)
  datatype ExpForm = ExpForm(head: TermForm, tail: ETailForm)
  datatype StmtForm = PrintForm(keyword: Token, exp: ExpForm) | AssignForm(id: Token, eq: Token, exp: ExpForm)

  ghost predicate WfFactor(f: FactorForm)
    decreases f
  {
    match f
    case Parens(open, inner, close) => open.kind == LPAREN && WfExp(inner) && close.kind == RPAREN
    case Atom(t) => t.kind == INT || t.kind == ID
  }

  ghost predicate WfTTail(t: TTailForm)
    decreases t
  {
    match t
    case TEnd => true
    case TMore(op, f, rest) => (op.kind == MULTOP || op.kind == DIVOP) && WfFactor(f) && WfTTail(rest)
  }

  ghost predicate WfTerm(t: TermForm)
    decreases t
  {
    WfFactor(t.head) && WfTTail(t.tail)
  }

  ghost predicate WfETail(e: ETailForm)
    decreases e
  {
    match e
    case EEnd => true
    case EMore(op, t, rest) => (op.kind == ADDOP || op.kind == SUBOP) && WfTerm(t) && WfETail(rest)
  }

  ghost predicate WfExp(e: ExpForm)
    decreases e
  {
    WfTerm(e.head) && WfETail(e.tail)
  }

  ghost predicate WfStmt(s: StmtForm)
  {
    match s
    case PrintForm(kw, e) => kw.kind == PRINT && WfExp(e)
    case AssignForm(id, eq, e) => id.kind == ID && eq.kind == ASSGN && WfExp(e)
  }

  ghost predicate WfProgram(ss: seq<StmtForm>)
  {
    forall i :: 0 <= i < |ss| ==> WfStmt(ss[i])
  }

  /** The tokens a derivation derives, in order. */
  ghost function FactorTokens(f: FactorForm): seq<Token>
    decreases f
  {
    match f
    case Parens(open, inner, close) => [open] + ExpTokens(inner) + [close]
    case Atom(t) => [t]
  }

  ghost function TTailTokens(t: TTailForm): seq<Token>
    decreases t
  {
    match t
    case TEnd => []
    case TMore(op, f, rest) => [op] + FactorTokens(f) + TTailTokens(rest)
  }

  ghost function TermTokens(t: TermForm): seq<Token>
    decreases t
  {
    FactorTokens(t.head) + TTailTokens(t.tail)
  }

  ghost function ETailTokens(e: ETailForm): seq<Token>
    decreases e
  {
    match e
    case EEnd => []
    case EMore(op, t, rest) => [op] + TermTokens(t) + ETailTokens(rest)
  }

  ghost function ExpTokens(e: ExpForm): seq<Token>
    decreases e
  {
    TermTokens(e.head) + ETailTokens(e.tail)
  }

  ghost function StmtTokens(s: StmtForm): seq<Token>
  {
    match s
    case PrintForm(kw, e) => [kw] + ExpTokens(e)
    case AssignForm(id, eq, e) => [id, eq] + ExpTokens(e)
  }

  ghost function ProgramTokens(ss: seq<StmtForm>): seq<Token>
  {
    if |ss| == 0 then [] else StmtTokens(ss[0]) + ProgramTokens(ss[1..])
  }

  /** Each derivation followed by more tokens, spelled out one part at a
      time, so that a parser step can peel off the part in front. */
  lemma FactorSpelled(f: FactorForm, rest: seq<Token>)
    ensures f.Parens? ==> FactorTokens(f) + rest == [f.open] + (ExpTokens(f.inner) + ([f.close] + rest))
    ensures f.Atom? ==> FactorTokens(f) + rest == [f.token] + rest
  {
  }

  lemma TTailSpelled(t: TTailForm, rest: seq<Token>)
    ensures t.TEnd? ==> TTailTokens(t) + rest == rest
    ensures t.TMore? ==> TTailTokens(t) + rest == [t.op] + (FactorTokens(t.factor) + (TTailTokens(t.rest) + rest))
  {
  }

  lemma TermSpelled(t: TermForm, rest: seq<Token>)
    ensures TermTokens(t) + rest == FactorTokens(t.head) + (TTailTokens(t.tail) + rest)
  {
  }

  lemma ETailSpelled(e: ETailForm, rest: seq<Token>)
    ensures e.EEnd? ==> ETailTokens(e) + rest == rest
    ensures e.EMore? ==> ETailTokens(e) + rest == [e.op] + (TermTokens(e.term) + (ETailTokens(e.rest) + rest))
  {
  }

  lemma ExpSpelled(e: ExpForm, rest: seq<Token>)
    ensures ExpTokens(e) + rest == TermTokens(e.head) + (ETailTokens(e.tail) + rest)
  {
  }

  /** A statement followed by more tokens, spelled out token by token. */
  lemma StmtSpelled(s: StmtForm, rest: seq<Token>)
    ensures s.PrintForm? ==> StmtTokens(s) + rest == [s.keyword] + (ExpTokens(s.exp) + rest)
    ensures s.AssignForm? ==> StmtTokens(s) + rest == [s.id] + ([s.eq] + (ExpTokens(s.exp) + rest))
  {
    if s.AssignForm? {
      assert [s.id, s.eq] == [s.id] + [s.eq];
    }
  }

  /** A nonempty program followed by more tokens: its first statement, then
      the rest. */
  lemma ProgramSpelled(ss: seq<StmtForm>, rest: seq<Token>)
    requires |ss| > 0
    ensures ProgramTokens(ss) + rest == StmtTokens(ss[0]) + (ProgramTokens(ss[1..]) + rest)
  {
  }

  /** A statement put in front of a program. */
  lemma ProgramCons(s: StmtForm, ss: seq<StmtForm>, rest: seq<Token>)
    requires WfStmt(s) && WfProgram(ss)
    ensures WfProgram([s] + ss)
    ensures ProgramTokens([s] + ss) + rest == StmtTokens(s) + (ProgramTokens(ss) + rest)
  {
    assert ([s] + ss)[0] == s && ([s] + ss)[1..] == ss;
  }

  /** What may follow a TERM without extending it: not `*` or `/`. */
  ghost predicate EndsTerm(rest: seq<Token>)
  {
    |rest| > 0 && rest[0].kind != MULTOP && rest[0].kind != DIVOP
  }

  /** What may follow an EXP without extending it: no operator at all. Every
      token of FOLLOW(EXP) = { ")", "print", ID, EOF } qualifies. */
  ghost predicate EndsExp(rest: seq<Token>)
  {
    EndsTerm(rest) && rest[0].kind != ADDOP && rest[0].kind != SUBOP
  }

  /** The input before the end, whitespace dropped, derives from PGM. */
  ghost predicate Derivable(words: seq<Token>)
  {
    exists ss :: WfProgram(ss) && ProgramTokens(ss) == words
  }

  /** Every expression starts with a token of FIRST(FACTOR). */
  lemma ExpStarts(e: ExpForm)
    requires WfExp(e)
    ensures |ExpTokens(e)| > 0 && ExpTokens(e)[0].kind in {LPAREN, INT, ID}
  {
    var f := e.head.head;
    assert WfFactor(f);
    assert ExpTokens(e) == FactorTokens(f) + (TTailTokens(e.head.tail) + ETailTokens(e.tail));
    assert FactorTokens(f)[0] == (if f.Parens? then f.open else f.token);
  }

  /** Every statement starts with `print` or an identifier. */
  lemma StmtStarts(s: StmtForm)
    requires WfStmt(s)
    ensures |StmtTokens(s)| > 0 && StmtTokens(s)[0].kind in {PRINT, ID}
  {
  }

  /** An additive tail, possibly empty, never starts with `*` or `/`, so a
      term followed by it ends where the tail begins. */
  lemma ETailEndsTerm(e: ETailForm, rest: seq<Token>)
    requires WfETail(e) && EndsExp(rest)
    ensures EndsTerm(ETailTokens(e) + rest)
  {
  }

  /** After an expression inside a program comes the next statement's first
      token or the end of input: never an operator. */
  lemma ProgramEndsExp(ss: seq<StmtForm>, rest: seq<Token>)
    requires WfProgram(ss) && |rest| > 0 && rest[0].kind == EOF
    ensures EndsExp(ProgramTokens(ss) + rest)
  {
    if |ss| > 0 {
      StmtStarts(ss[0]);
    }
  }
}
