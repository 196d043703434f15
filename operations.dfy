/**
 * The compiler front end's operation tree, as the analyzers consume it.
 * Only the facts the rules look at are kept: the operation kind (with the
 * resolved target of an invocation), whether the node is implicit, whether
 * the front end classifies it as a statement, the kind of its parent syntax
 * node, and its children in source order.
 */
module Operations {
  import opened Common

  datatype OperationKind =
    | Block
    | Branch
    | Empty
    | ExpressionStatement
    | ForEachLoop
    | ForLoop
    | Conditional
    | Lock
    | Return
    | Switch
    | Throw
    | Try
    | Using
    | VariableDeclaration
    | VariableDeclarationGroup
    | WhileLoop
      /** A call; `targetDefinition` is the original definition of the target method. */
    | Invocation(targetDefinition: SymbolId)
      /** Every other operation kind: expressions, assignments, arguments, ... */
    | OtherOperation

  /** The syntax node that encloses an operation's own syntax, when there is one. */
  datatype ParentSyntax =
    | NoParent
    | CheckedStatement
    | UnsafeStatement
    | FixedStatement
    | OtherSyntax

  datatype Operation = Operation(
    kind: OperationKind,
    isImplicit: bool,
    /** what the (unmodelled) `IsStatement` extension says of this node */
    isStatement: bool,
    parentSyntax: ParentSyntax,
    children: seq<Operation>)

  /** The number of nodes in a tree. */
  function Size(op: Operation): (n: nat)
    ensures n >= 1
    decreases op
  {
    1 + SizeAll(op.children)
  }

  function SizeAll(ops: seq<Operation>): (n: nat)
    ensures n >= |ops|
    decreases ops
  {
    if ops == [] then 0 else Size(ops[0]) + SizeAll(ops[1..])
  }
}
