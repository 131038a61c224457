/**
 * The part of a Babel (ESTree) syntax tree that the two Babel plugins of the optimizer look
 * at. Node kinds the plugins do not distinguish are `Other` nodes that keep their children,
 * so that a traversal still reaches every string literal beneath them.
 */
module Ast {

  import opened Wrappers

  /** An operand of a member expression `object.property`. */
  datatype Operand = Identifier(name: string) | NotIdentifier

  /**
   * One `MemberExpression` met while traversing the body of a candidate webpack bootstrap
   * function: its object (`base`) and property, whether Babel gives it the function's own scope
   * (so not inside a nested function, nor inside a block with a scope of its own, such as the
   * body of an `if` or a `for`), and whether its parent is an `AssignmentExpression`.
   */
  datatype MemberVisit = MemberVisit(base: Operand, property: Operand, inFactoryScope: bool, parentIsAssignment: bool)

  datatype Node =
    | ExpressionStatement(expression: Node)
    | UnaryExpression(operator: string, argument: Node)
    | CallExpression(callee: Node, arguments: seq<Node>)
      /** A function expression, seen through what the bootstrap analysis finds in its body:
          the member expressions of a traversal of the body, in traversal order, and the
          chunk-URL map expression that Babel's binding resolution locates from the
          `document.createElement("script")` loader, if any. */
    | FunctionExpression(members: seq<MemberVisit>, urlMap: Option<Node>)
    | ArrayExpression(elements: seq<Node>)
    | StringLiteral(value: string)
    | ImportDeclaration(source: string)
    | Other(kind: string, children: seq<Node>)
}
