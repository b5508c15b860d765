/**
 The single-token lookahead and the two primitives every production uses:
 `Consume` pulls the next non-whitespace token into the lookahead, and `Match`
 checks the lookahead against an expected kind, counts a mismatch, and moves
 on in either case.
 */
module Lookahead {
  import opened Tokens

  /** The parser's state: where the lookahead sits in the stream, and the
      running count of parse errors. */
  datatype Cursor = Cursor(pos: nat, errors: nat)

  /** The position of the first EOF at or after `i`. */
  function NextEof(toks: seq<Token>, i: nat): (e: nat)
    requires Valid(toks) && i < |toks|
    ensures i <= e < |toks| && toks[e].kind == EOF
    ensures forall k :: i <= k < e ==> toks[k].kind != EOF
    decreases |toks| - i
  {
    if toks[i].kind == EOF then i else NextEof(toks, i + 1)
  }

  /** The position of the first EOF: the scanner reports end of input there,
      and nothing after it is ever read. */
  function FirstEof(toks: seq<Token>): (e: nat)
    requires Valid(toks)
    ensures e < |toks| && toks[e].kind == EOF
    ensures forall k :: 0 <= k < e ==> toks[k].kind != EOF
  {
    NextEof(toks, 0)
  }

  /** The lookahead is a token of the stream, never a whitespace token, and
      never beyond the end of input. */
  predicate Ready(toks: seq<Token>, c: Cursor)
  {
    Valid(toks) && c.pos <= FirstEof(toks) && toks[c.pos].kind != WS
  }

  /** Moving the lookahead from `p` to `q` steps over exactly one
      non-whitespace token (the one at `p`) plus the whitespace after it; at
      EOF it stays where it is. */
  ghost predicate StepsOver(toks: seq<Token>, p: nat, q: nat)
    requires p < |toks|
  {
    if toks[p].kind == EOF then q == p
    else p < q < |toks| && toks[q].kind != WS && forall k :: p < k < q ==> toks[k].kind == WS
  }

  /** The first non-whitespace position at or after `i`. */
  function SkipWhitespace(toks: seq<Token>, i: nat): (j: nat)
    requires Valid(toks) && i < |toks|
    ensures i <= j < |toks| && toks[j].kind != WS
    ensures forall k :: i <= k < j ==> toks[k].kind == WS
    decreases |toks| - i
  {
    if toks[i].kind == WS then SkipWhitespace(toks, i + 1) else i
  }

  /** The cursor right after construction: the first non-whitespace token is
      the lookahead and no error has been counted. */
  function Start(toks: seq<Token>): (c: Cursor)
    requires Valid(toks)
    ensures Ready(toks, c) && c.errors == 0
    ensures forall k :: 0 <= k < c.pos ==> toks[k].kind == WS
  {
    Cursor(SkipWhitespace(toks, 0), 0)
  }

  /** Replaces the lookahead with the next non-whitespace token. */
  function Consume(toks: seq<Token>, c: Cursor): (r: Cursor)
    requires Ready(toks, c)
    ensures Ready(toks, r)
    ensures StepsOver(toks, c.pos, r.pos)
    ensures r.errors == c.errors
  {
    if toks[c.pos].kind == EOF then c
    else c.(pos := SkipWhitespace(toks, c.pos + 1))
  }

  /** Expects a `kind` token: a mismatch is counted as one error, and the
      lookahead is consumed whether or not it matched. */
  function Match(toks: seq<Token>, c: Cursor, kind: Kind): (r: Cursor)
    requires Ready(toks, c)
    ensures Ready(toks, r)
    ensures StepsOver(toks, c.pos, r.pos)
    ensures toks[c.pos].kind == kind ==> r.errors == c.errors
    ensures toks[c.pos].kind != kind ==> r.errors == c.errors + 1
    ensures r.pos == Consume(toks, c).pos
  {
    var d := Consume(toks, c);
    if toks[c.pos].kind != kind then d.(errors := d.errors + 1) else d
  }

  /** `StepsOver` pins down the new lookahead position: there is only one. */
  lemma StepsOverUnique(toks: seq<Token>, p: nat, q1: nat, q2: nat)
    requires p < |toks|
    requires StepsOver(toks, p, q1) && StepsOver(toks, p, q2)
    ensures q1 == q2
  {
  }
}
