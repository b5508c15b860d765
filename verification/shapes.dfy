/**
 The shapes of the trees the productions build. They describe the result
 without mentioning how it was computed, so the parser's contracts can state
 them and later proofs can rely on them.
 */
module Shapes {
  import opened Tokens
  import opened Ast

  /** A label the tail productions put on an operator node: the `*` or `/`
      token of a multiplicative tail, the `+` token or the placeholder
      "etail" of an additive one. */
  ghost predicate OperatorTag(tag: Label, multiplicative: bool)
  {
    if multiplicative then Multiplicative(tag)
    else (tag.Tok? && tag.token.kind == ADDOP) || tag == Synthetic("etail")
  }

  /** Whether a node's tag puts it on the multiplicative level. */
  ghost predicate Multiplicative(tag: Label)
  {
    tag.Tok? && tag.token.kind in {MULTOP, DIVOP}
  }

  /** A tree `Factor`, `Term` or `Exp` can return: a leaf for an INT, an ID
      or a failed factor, or an operator node whose children are its right
      operand, the rest of its tail (possibly absent) and, last, its left
      operand. */
  ghost predicate Operand(n: Node)
    decreases n
  {
    if |n.children| == 0 then
      n.tag == Synthetic("factor") || (n.tag.Tok? && n.tag.token.kind in {INT, ID})
    else
      && |n.children| == 3
      && OperatorTag(n.tag, Multiplicative(n.tag))
      && Tail(n.children[1], Multiplicative(n.tag))
      && n.children[0].Some? && Operand(n.children[0].value)
      && n.children[2].Some? && Operand(n.children[2].value)
  }

  /** What a tail production returns: absent, or an operator node of the
      given level whose two children are its operand and the rest of the
      tail. */
  ghost predicate Tail(o: Option<Node>, multiplicative: bool)
    decreases o
  {
    match o
    case None => true
    case Some(n) =>
      && |n.children| == 2
      && OperatorTag(n.tag, multiplicative)
      && n.children[0].Some? && Operand(n.children[0].value)
      && Tail(n.children[1], multiplicative)
  }

  /** What `Statement` returns: a `print` node over one expression, an `=`
      node over an identifier leaf and an expression, or the childless
      placeholder "assignment" node. */
  ghost predicate StatementShape(n: Node)
  {
    || (n.tag.Tok? && n.tag.token.kind == PRINT
        && |n.children| == 1 && n.children[0].Some? && Operand(n.children[0].value))
    || (n.tag.Tok? && n.tag.token.kind == ASSGN
        && |n.children| == 2
        && n.children[0].Some? && n.children[0].value.children == []
        && n.children[0].value.tag.Tok? && n.children[0].value.tag.token.kind == ID
        && n.children[1].Some? && Operand(n.children[1].value))
    || n == Node(Synthetic("assignment"), [])
  }
}
