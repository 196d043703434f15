/**
 * AV1500: a member should not contain more than seven statements.
 *
 * `StatementWalker` walks every operation block of a member with a mutable
 * counter; each handler of a statement kind adds one for an explicit
 * statement node, a block directly inside a `checked` or `unsafe` statement
 * and a variable declaration directly inside a `fixed` statement add one
 * each (those statements have no operation node of their own), `Branch` and
 * `Empty` nodes do not descend, and every other node descends into its
 * children. The walker is proved to compute `CountAll`, a pure fold over the
 * trees, and the fold is related to the nodes the walker visits.
 */
module ManyStatements {
  import opened Common
  import opened Operations

  const MaxStatementCount := 7

  /** The member that owns the analysed blocks (the containing member of the owning symbol). */
  datatype Member = Member(kind: SymbolKind, display: string, location: Location, isSynthesized: bool)

  /** The guard of `IncrementStatementCount`: an explicit node that the front end calls a statement. */
  predicate IsCountedStatement(op: Operation)
  {
    !op.isImplicit && op.isStatement
  }

  /** A region statement that has no operation node of its own and collapses into `op`. */
  predicate IsCollapsedRegion(op: Operation)
  {
    || (op.kind == Block && op.parentSyntax in {CheckedStatement, UnsafeStatement})
    || (op.kind == VariableDeclaration && op.parentSyntax == FixedStatement)
  }

  /** The kinds whose handler calls `IncrementStatementCount`. */
  predicate IsStatementKind(kind: OperationKind)
  {
    kind in {Branch, Empty, ExpressionStatement, ForEachLoop, ForLoop, Conditional, Lock,
             Return, Switch, Throw, Try, Using, VariableDeclarationGroup, WhileLoop}
  }

  /** Whether the handler for `op` goes on to visit its children. */
  predicate Descends(op: Operation)
  {
    op.kind != Branch && op.kind != Empty
  }

  /** What the handler for `op` adds to the counter before it descends. */
  function OwnCount(op: Operation): nat
  {
    if IsCollapsedRegion(op) then 1
    else if IsStatementKind(op.kind) && IsCountedStatement(op) then 1
    else 0
  }

  /** The statement count of one tree. */
  function Count(op: Operation): nat
    decreases op
  {
    OwnCount(op) + if Descends(op) then CountAll(op.children) else 0
  }

  /** The statement count of a sequence of trees, walked in order. */
  function CountAll(ops: seq<Operation>): nat
    decreases ops
  {
    if ops == [] then 0 else Count(ops[0]) + CountAll(ops[1..])
  }

  /** Counting consecutive sequences of blocks adds up. */
  lemma {:induction false} CountAllAppend(a: seq<Operation>, b: seq<Operation>)
    ensures CountAll(a + b) == CountAll(a) + CountAll(b)
  {
    if a != [] {
      assert (a + b)[1..] == a[1..] + b;
      CountAllAppend(a[1..], b);
    } else {
      assert a + b == b;
    }
  }

  lemma CountAllPrefix(ops: seq<Operation>, i: int)
    requires 0 <= i < |ops|
    ensures CountAll(ops[..i + 1]) == CountAll(ops[..i]) + Count(ops[i])
  {
    assert ops[..i + 1] == ops[..i] + [ops[i]];
    CountAllAppend(ops[..i], [ops[i]]);
  }

  /** The nodes the walker visits, in the order it visits them. */
  function Visited(op: Operation): (r: seq<Operation>)
    decreases op
  {
    [op] + if Descends(op) then VisitedAll(op.children) else []
  }

  function VisitedAll(ops: seq<Operation>): (r: seq<Operation>)
    decreases ops
  {
    if ops == [] then [] else Visited(ops[0]) + VisitedAll(ops[1..])
  }

  /** How many of the given nodes make their handler increment the counter. */
  function Incrementing(nodes: seq<Operation>): nat
  {
    if nodes == [] then 0 else OwnCount(nodes[0]) + Incrementing(nodes[1..])
  }

  lemma {:induction false} IncrementingAppend(a: seq<Operation>, b: seq<Operation>)
    ensures Incrementing(a + b) == Incrementing(a) + Incrementing(b)
  {
    if a != [] {
      assert (a + b)[1..] == a[1..] + b;
      IncrementingAppend(a[1..], b);
    } else {
      assert a + b == b;
    }
  }

  /**
   * The count of a tree is the number of visited nodes whose handler
   * increments: nothing below a `Branch` or `Empty` node is counted, and
   * every visited node adds at most one.
   */
  lemma {:induction false} CountIsIncrementingVisits(op: Operation)
    ensures Count(op) == Incrementing(Visited(op))
    decreases op, 1
  {
    if Descends(op) {
      CountAllIsIncrementingVisits(op.children);
      IncrementingAppend([op], VisitedAll(op.children));
    }
  }

  lemma {:induction false} CountAllIsIncrementingVisits(ops: seq<Operation>)
    ensures CountAll(ops) == Incrementing(VisitedAll(ops))
    decreases ops, 0
  {
    if ops != [] {
      CountIsIncrementingVisits(ops[0]);
      CountAllIsIncrementingVisits(ops[1..]);
      IncrementingAppend(Visited(ops[0]), VisitedAll(ops[1..]));
    }
  }

  /** A visited subtree never counts more than the whole tree. */
  lemma {:induction false} VisitedSubtreeCounts(op: Operation, sub: Operation)
    requires sub in Visited(op)
    ensures Count(sub) <= Count(op)
    decreases op, 1
  {
    if sub != op {
      assert Descends(op) && sub in VisitedAll(op.children);
      VisitedSubtreeCountsAll(op.children, sub);
    }
  }

  lemma {:induction false} VisitedSubtreeCountsAll(ops: seq<Operation>, sub: Operation)
    requires sub in VisitedAll(ops)
    ensures Count(sub) <= CountAll(ops)
    decreases ops, 0
  {
    if sub in Visited(ops[0]) {
      VisitedSubtreeCounts(ops[0], sub);
    } else {
      VisitedSubtreeCountsAll(ops[1..], sub);
    }
  }

  /**
   * A block directly inside a `checked` or `unsafe` statement, or a variable
   * declaration directly inside a `fixed` statement, counts exactly one more
   * than its contents, and the tree it is visited in counts at least that.
   */
  lemma CollapsedRegionAddsOne(op: Operation, region: Operation)
    requires region in Visited(op) && IsCollapsedRegion(region)
    ensures Count(region) == 1 + CountAll(region.children)
    ensures Count(op) >= 1 + CountAll(region.children)
  {
    VisitedSubtreeCounts(op, region);
  }

  /** `path` leads from `op` through visited nodes: every node above its end descends into its children. */
  predicate IsVisitedPath(op: Operation, path: seq<nat>)
    decreases |path|
  {
    path == [] || (Descends(op) && path[0] < |op.children| && IsVisitedPath(op.children[path[0]], path[1..]))
  }

  /** The node at the end of `path`. */
  function NodeAt(op: Operation, path: seq<nat>): Operation
    requires IsVisitedPath(op, path)
    decreases |path|
  {
    if path == [] then op else NodeAt(op.children[path[0]], path[1..])
  }

  /** The same tree with the node at the end of `path` taken out of its enclosing statement. */
  function Uncollapse(op: Operation, path: seq<nat>): Operation
    requires IsVisitedPath(op, path)
    decreases |path|
  {
    if path == [] then op.(parentSyntax := OtherSyntax)
    else op.(children := op.children[path[0] := Uncollapse(op.children[path[0]], path[1..])])
  }

  /** Replacing one tree of a sequence changes the count by the difference of the two trees' counts. */
  lemma CountAllUpdate(ops: seq<Operation>, k: int, replacement: Operation)
    requires 0 <= k < |ops|
    ensures CountAll(ops[k := replacement]) + Count(ops[k]) == CountAll(ops) + Count(replacement)
  {
    var updated := ops[k := replacement];
    assert ops == ops[..k] + [ops[k]] + ops[k + 1..];
    assert updated == ops[..k] + [replacement] + ops[k + 1..];
    CountAllAppend(ops[..k] + [ops[k]], ops[k + 1..]);
    CountAllAppend(ops[..k], [ops[k]]);
    CountAllAppend(ops[..k] + [replacement], ops[k + 1..]);
    CountAllAppend(ops[..k], [replacement]);
    assert CountAll([ops[k]]) == Count(ops[k]) + CountAll([]);
    assert CountAll([replacement]) == Count(replacement) + CountAll([]);
  }

  /**
   * At any depth, a collapsed region contributes exactly one: taking it out
   * of its `checked`, `unsafe` or `fixed` statement lowers the count of the
   * whole tree by exactly one.
   */
  lemma {:induction false} CollapsedRegionAtDepthAddsExactlyOne(op: Operation, path: seq<nat>)
    requires IsVisitedPath(op, path) && IsCollapsedRegion(NodeAt(op, path))
    ensures Count(op) == Count(Uncollapse(op, path)) + 1
    decreases |path|
  {
    if path != [] {
      var k := path[0];
      var child := op.children[k];
      CollapsedRegionAtDepthAddsExactlyOne(child, path[1..]);
      CountAllUpdate(op.children, k, Uncollapse(child, path[1..]));
    }
  }

  /** Implicit nodes never increment the counter unless they stand for a collapsed region. */
  lemma ImplicitNodeAddsNothing(op: Operation)
    requires op.isImplicit && !IsCollapsedRegion(op)
    ensures Count(op) == if Descends(op) then CountAll(op.children) else 0
  {
  }

  /** Each visited node adds at most one, so the count is bounded by the tree size. */
  lemma {:induction false} CountAtMostSize(op: Operation)
    ensures Count(op) <= Size(op)
    decreases op, 1
  {
    CountAllAtMostSize(op.children);
  }

  lemma {:induction false} CountAllAtMostSize(ops: seq<Operation>)
    ensures CountAll(ops) <= SizeAll(ops)
    decreases ops, 0
  {
    if ops != [] {
      CountAtMostSize(ops[0]);
      CountAllAtMostSize(ops[1..]);
    }
  }

  /** Mutable walker state: the number of statements seen so far. */
  class StatementWalker {
    var statementCount: nat

    constructor ()
      ensures statementCount == 0
    {
      statementCount := 0;
    }

    /** Walks the blocks in order, adding their statement count to the counter. */
    method VisitBlocks(blocks: seq<Operation>)
      modifies this
      ensures statementCount == old(statementCount) + CountAll(blocks)
    {
      for i := 0 to |blocks|
        invariant statementCount == old(statementCount) + CountAll(blocks[..i])
      {
        CountAllPrefix(blocks, i);
        Visit(blocks[i]);
      }
      assert blocks[..|blocks|] == blocks;
    }

    /** Dispatches on the operation kind to the handler the walker overrides. */
    method Visit(op: Operation)
      modifies this
      ensures statementCount == old(statementCount) + Count(op)
      decreases op, 1
    {
      match op.kind {
        case Block =>
          if op.parentSyntax == CheckedStatement || op.parentSyntax == UnsafeStatement {
            statementCount := statementCount + 1;
          }
          VisitChildren(op);
        case VariableDeclaration =>
          if op.parentSyntax == FixedStatement {
            statementCount := statementCount + 1;
          }
          VisitChildren(op);
        case Branch =>
          IncrementStatementCount(op);
        case Empty =>
          IncrementStatementCount(op);
        case Invocation(_) =>
          VisitChildren(op);
        case OtherOperation =>
          VisitChildren(op);
        case _ =>
          IncrementStatementCount(op);
          VisitChildren(op);
      }
    }

    /** The walker's default behaviour: visit every child in order. */
    method VisitChildren(op: Operation)
      requires Descends(op)
      modifies this
      ensures statementCount == old(statementCount) + CountAll(op.children)
      decreases op, 0
    {
      var children := op.children;
      for i := 0 to |children|
        invariant statementCount == old(statementCount) + CountAll(children[..i])
      {
        CountAllPrefix(children, i);
        Visit(children[i]);
      }
      assert children[..|children|] == children;
    }

    method IncrementStatementCount(op: Operation)
      modifies this
      ensures statementCount == old(statementCount) + if IsCountedStatement(op) then 1 else 0
    {
      if !op.isImplicit && op.isStatement {
        statementCount := statementCount + 1;
      }
    }
  }

  /** The diagnostic for an over-long member, unless the member is synthesized. */
  function ReportMember(member: Member, statementCount: int): (d: Option<Diagnostic>)
    ensures d.Some? <==> !member.isSynthesized
    ensures d.Some? ==> d.value.rule == ManyStatementsRule && d.value.location == member.location
    ensures d.Some? ==> d.value.args == [KindArg(member.kind), TextArg(member.display), NumberArg(statementCount)]
  {
    if member.isSynthesized then None
    else Some(Diagnostic(ManyStatementsRule, member.location,
                         [KindArg(member.kind), TextArg(member.display), NumberArg(statementCount)]))
  }

  /** The rule's verdict on a member, from the statement count of all its blocks. */
  function CodeBlockDiagnostic(blocks: seq<Operation>, member: Member): Option<Diagnostic>
  {
    var count := CountAll(blocks);
    if count > MaxStatementCount then ReportMember(member, count) else None
  }

  /** Counts the statements of all blocks, then reports iff the total exceeds seven. */
  method AnalyzeCodeBlock(blocks: seq<Operation>, member: Member) returns (diagnostic: Option<Diagnostic>)
    ensures diagnostic.Some? <==> CountAll(blocks) > MaxStatementCount && !member.isSynthesized
    ensures diagnostic.Some? ==>
      diagnostic.value == Diagnostic(ManyStatementsRule, member.location,
                                     [KindArg(member.kind), TextArg(member.display), NumberArg(CountAll(blocks))])
    ensures diagnostic == CodeBlockDiagnostic(blocks, member)
  {
    var walker := new StatementWalker();
    walker.VisitBlocks(blocks);
    if walker.statementCount > MaxStatementCount {
      diagnostic := ReportMember(member, walker.statementCount);
    } else {
      diagnostic := None;
    }
  }

  /** An explicit expression statement without children. */
  function Statement(): Operation
  {
    Operation(ExpressionStatement, false, true, NoParent, [])
  }

  /** A body block holding `n` explicit expression statements. */
  function BodyOf(n: nat): Operation
  {
    Operation(Block, false, false, OtherSyntax, seq(n, _ => Statement()))
  }

  lemma {:induction false} BodyOfCounts(n: nat)
    ensures Count(BodyOf(n)) == n
  {
    var stmts := seq(n, _ => Statement());
    var k := 0;
    while k < n
      invariant 0 <= k <= n
      invariant CountAll(stmts[..k]) == k
    {
      CountAllPrefix(stmts, k);
      k := k + 1;
    }
    assert stmts[..n] == stmts;
  }

  /** Seven statements are never reported; eight are reported once, carrying the count 8. */
  lemma ThresholdIsStrict(member: Member)
    requires !member.isSynthesized
    ensures CodeBlockDiagnostic([BodyOf(7)], member) == None
    ensures CodeBlockDiagnostic([BodyOf(8)], member) ==
      Some(Diagnostic(ManyStatementsRule, member.location,
                      [KindArg(member.kind), TextArg(member.display), NumberArg(8)]))
  {
    BodyOfCounts(7);
    BodyOfCounts(8);
    assert CountAll([BodyOf(7)]) == Count(BodyOf(7)) + CountAll([]);
    assert CountAll([BodyOf(8)]) == Count(BodyOf(8)) + CountAll([]);
  }
}
