/**
 A subtraction worked through the model: `x = 1 - 2`, whatever the texts of
 its tokens, parses without error to a tree in which the `-` token appears
 nowhere.
 */
module Samples {
  import opened Tokens
  import opened Ast
  import opened Lookahead
  import opened Parser

  /** The kinds of `x = 1 - 2` followed by the end of input. */
  predicate Subtraction(toks: seq<Token>)
  {
    && |toks| == 6
    && toks[0].kind == ID && toks[1].kind == ASSGN && toks[2].kind == INT
    && toks[3].kind == SUBOP && toks[4].kind == INT && toks[5].kind == EOF
  }

  lemma SubtractionEnds(toks: seq<Token>)
    requires Subtraction(toks)
    ensures Valid(toks) && FirstEof(toks) == 5
  {
    assert NextEof(toks, 4) == 5;
    assert NextEof(toks, 2) == 5;
  }

  /** The additive tail `- 2`, read from position 3. */
  lemma SubtractionTail(toks: seq<Token>)
    requires Subtraction(toks)
    ensures Ready(toks, Cursor(3, 0))
    ensures ETail(toks, Cursor(3, 0)) == Parsed(Some(Node(Synthetic("etail"), [Some(Leaf(toks[4])), None])), Cursor(5, 0))
  {
    SubtractionEnds(toks);
    assert Term(toks, Cursor(4, 0)) == Parsed(Leaf(toks[4]), Cursor(5, 0)) by {
      assert Factor(toks, Cursor(4, 0)) == Parsed(Leaf(toks[4]), Cursor(5, 0));
    }
    assert Consume(toks, Cursor(3, 0)) == Cursor(4, 0);
    ETailChildren(toks, Cursor(3, 0));
  }

  /** The expression `1 - 2`, read from position 2: the tail node, with the
      left operand appended after the absent rest of the tail. */
  lemma SubtractionExp(toks: seq<Token>)
    requires Subtraction(toks)
    ensures Ready(toks, Cursor(2, 0))
    ensures Exp(toks, Cursor(2, 0)) ==
              Parsed(Node(Synthetic("etail"), [Some(Leaf(toks[4])), None, Some(Leaf(toks[2]))]), Cursor(5, 0))
  {
    SubtractionEnds(toks);
    SubtractionTail(toks);
    assert Term(toks, Cursor(2, 0)) == Parsed(Leaf(toks[2]), Cursor(3, 0)) by {
      assert Factor(toks, Cursor(2, 0)) == Parsed(Leaf(toks[2]), Cursor(3, 0));
    }
    ExpAdoptsTerm(toks, Cursor(2, 0));
    assert [Some(Leaf(toks[4])), None] + [Some(Leaf(toks[2]))] == [Some(Leaf(toks[4])), None, Some(Leaf(toks[2]))];
  }

  /** No error is counted, yet no label of the tree is the `-` token: its
      node carries the placeholder "etail" label instead. */
  lemma SubtractionKeepsPlaceholder(toks: seq<Token>)
    requires Subtraction(toks)
    ensures Valid(toks) && Parse(toks).cur.errors == 0
    ensures Parse(toks).tree ==
              Node(Synthetic("program"), [Some(
                Node(Tok(toks[1]), [
                  Some(Leaf(toks[0])),
                  Some(Node(Synthetic("etail"), [Some(Leaf(toks[4])), None, Some(Leaf(toks[2]))]))]))])
  {
    SubtractionEnds(toks);
    SubtractionExp(toks);
    assert Start(toks) == Cursor(0, 0);
    assert Consume(toks, Cursor(0, 0)) == Cursor(1, 0);
    assert Consume(toks, Cursor(1, 0)) == Cursor(2, 0);
    AssignAfterIdentifier(toks, Cursor(0, 0));
    var s := Statement(toks, Cursor(0, 0));
    assert s.cur == Cursor(5, 0);
    assert Statements(toks, Cursor(5, 0)) == Parsed([], Cursor(5, 0));
    assert Statements(toks, Cursor(0, 0)).tree == [s.tree];
  }
}
