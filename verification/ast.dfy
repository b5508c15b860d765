/**
 The syntax tree the parser builds. A node carries a label and an ordered
 list of children; a child may be absent, because the tail productions answer
 "no node" for their empty alternative and the parser appends that answer as a
 child all the same.
 */
module Ast {
  import opened Tokens

  datatype Option<+T> = None | Some(value: T)

  /** A node's label: either a token taken from the input or a
      placeholder the parser makes up (`"program"`, `"factor"`, ...). */
  datatype Label = Tok(token: Token) | Synthetic(name: string)

  datatype Node = Node(tag: Label, children: seq<Option<Node>>)

  /** A childless node labelled with an input token. */
  function Leaf(t: Token): Node
  {
    Node(Tok(t), [])
  }

  /** Appends `child` as the new last child of `n`. */
  function AddChild(n: Node, child: Option<Node>): Node
  {
    n.(children := n.children + [child])
  }
}
