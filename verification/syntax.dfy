/** The few facts about syntax-tree nodes that the two lint rules inspect.
    A node is never modelled in full: each visitor event carries only the
    fields its callback reads (node kinds, identifier and callee names,
    which slot of its parent a node fills, and a source position). */
module Syntax {

  datatype Option<+T> = None | Some(value: T)

  /** A source position as the linter reports it: 1-based line, 0-based column. */
  datatype Position = Position(line: nat, column: nat)

  /** Which field of its parent a node is stored in. Only the four slots
      the rules compare against are named; every other slot is `Elsewhere`. */
  datatype Slot = Left | Right | Id | Init | Elsewhere

  /** The parent of a node: its node type (as the string the tree uses) and
      the slot the child occupies. */
  datatype Parent = Parent(kind: string, slot: Slot)

  /** An expression or pattern seen as a child of an assignment or a
      declarator: an identifier with its name, a call with the name of its
      callee (None when the callee is not a plain identifier, e.g. `a.b()`),
      or any other node type. */
  datatype Node =
    | Identifier(name: string)
    | CallExpression(callee: Option<string>)
    | OtherNode(kind: string)
}
