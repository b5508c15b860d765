/**
 The token stream the TINY parser reads. The scanner that produces it is not
 part of this model: its output is taken as a finished sequence of classified
 tokens that ends in an end-of-input token.
 */
module Tokens {

  /** The token kinds the scanner assigns (the `Token::` constants). */
  datatype Kind =
    | ID | INT | ADDOP | SUBOP | MULTOP | DIVOP
    | LPAREN | RPAREN | ASSGN | PRINT | WS | EOF

  /** A classified token: its kind and the literal text it was scanned from. */
  datatype Token = Token(kind: Kind, text: string)

  /** A stream the scanner can hand over: never empty, and its last token is EOF.
      Asking for a token beyond the end keeps answering that EOF. */
  predicate Valid(toks: seq<Token>)
  {
    |toks| > 0 && toks[|toks| - 1].kind == EOF
  }

  /** The stream with its whitespace tokens dropped. */
  function NonWhitespace(toks: seq<Token>): (r: seq<Token>)
    ensures |r| <= |toks|
    ensures forall i :: 0 <= i < |r| ==> r[i].kind != WS
  {
    if |toks| == 0 then []
    else if toks[0].kind == WS then NonWhitespace(toks[1..])
    else [toks[0]] + NonWhitespace(toks[1..])
  }

  /** Dropping whitespace distributes over concatenation. */
  lemma {:induction false} NonWhitespaceAppend(a: seq<Token>, b: seq<Token>)
    ensures NonWhitespace(a + b) == NonWhitespace(a) + NonWhitespace(b)
    decreases |a|
  {
    if |a| == 0 {
      assert a + b == b;
    } else {
      assert (a + b)[1..] == a[1..] + b;
      NonWhitespaceAppend(a[1..], b);
    }
  }
}
