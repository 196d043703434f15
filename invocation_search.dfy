/**
 * The invocation search of AV1551: does a method body call one of a set of
 * methods? `MethodInvocationWalker` walks the operation tree with a flag that
 * only ever turns from false to true; once set, no further invocation is
 * scanned. A target that is an explicit interface implementation is found
 * through the interface methods it implements, since it cannot be called by
 * its own name.
 */
module InvocationSearch {
  import opened Common
  import opened Operations
  import opened MethodSymbols

  /**
   * Scanning a call of `target` against one method to find. An explicit
   * interface implementation matches through its interface methods; any
   * other method to find matches when the call targets any of the methods
   * to find.
   */
  predicate ScanMatches(target: SymbolId, methodToFind: MethodSymbol, methodsToFind: seq<MethodSymbol>)
  {
    if methodToFind.kind == ExplicitInterfaceImplementation then
      target in methodToFind.explicitInterfaceImplementations
    else
      exists m | m in methodsToFind :: m.id == target
  }

  /** A call of `target` is found when scanning it against some method to find succeeds. */
  predicate InvocationMatches(target: SymbolId, methodsToFind: seq<MethodSymbol>)
  {
    exists m | m in methodsToFind :: ScanMatches(target, m, methodsToFind)
  }

  /** The walk over `op` finds a matching invocation. */
  predicate ContainsCallTo(op: Operation, methodsToFind: seq<MethodSymbol>)
    decreases op
  {
    || (op.kind.Invocation? && InvocationMatches(op.kind.targetDefinition, methodsToFind))
    || exists child | child in op.children :: ContainsCallTo(child, methodsToFind)
  }

  /** The original definitions of every method invoked anywhere in `op`. */
  function CalledTargets(op: Operation): (targets: set<SymbolId>)
    decreases op
  {
    (if op.kind.Invocation? then {op.kind.targetDefinition} else {})
    + set child, t | child in op.children && t in CalledTargets(child) :: t
  }

  /** The walk finds a call iff some invoked method of the tree matches. */
  lemma {:induction false} ContainsCallToIffCalledTarget(op: Operation, methodsToFind: seq<MethodSymbol>)
    ensures ContainsCallTo(op, methodsToFind) <==>
      exists t | t in CalledTargets(op) :: InvocationMatches(t, methodsToFind)
    decreases op
  {
    forall child | child in op.children {
      ContainsCallToIffCalledTarget(child, methodsToFind);
    }
    if ContainsCallTo(op, methodsToFind) && !(op.kind.Invocation? && InvocationMatches(op.kind.targetDefinition, methodsToFind)) {
      var child :| child in op.children && ContainsCallTo(child, methodsToFind);
      var t :| t in CalledTargets(child) && InvocationMatches(t, methodsToFind);
      assert t in CalledTargets(op);
    }
  }

  /**
   * Which calls are found: a call of any method to find, provided the set has
   * a method that is not an explicit interface implementation, or a call of
   * an interface method that one of the explicit implementations implements.
   */
  lemma InvocationMatchesIff(target: SymbolId, methodsToFind: seq<MethodSymbol>)
    ensures InvocationMatches(target, methodsToFind) <==>
      || ((exists m | m in methodsToFind :: m.kind != ExplicitInterfaceImplementation) &&
          (exists m | m in methodsToFind :: m.id == target))
      || (exists m | m in methodsToFind :: m.kind == ExplicitInterfaceImplementation &&
                                            target in m.explicitInterfaceImplementations)
  {
  }

  /** A call through an interface method is found when an explicit implementation of it is a target. */
  lemma {:induction false} CallThroughInterfaceFound(op: Operation, methodsToFind: seq<MethodSymbol>,
                                                      implementation: MethodSymbol, interfaceMethod: SymbolId)
    requires implementation in methodsToFind
    requires implementation.kind == ExplicitInterfaceImplementation
    requires interfaceMethod in implementation.explicitInterfaceImplementations
    requires interfaceMethod in CalledTargets(op)
    ensures ContainsCallTo(op, methodsToFind)
  {
    assert ScanMatches(interfaceMethod, implementation, methodsToFind);
    ContainsCallToIffCalledTarget(op, methodsToFind);
  }

  /**
   * Mutable walker state: whether a matching invocation has been found. The
   * ghost counters record how many nodes were visited and how many times an
   * invocation was scanned against a method to find, so that the contracts
   * can say what the walker does not do once the flag is set.
   */
  class MethodInvocationWalker {
    const methodsToFind: seq<MethodSymbol>
    var hasFoundInvocation: bool
    ghost var visits: nat
    ghost var scans: nat

    constructor (methodsToFind: seq<MethodSymbol>)
      ensures this.methodsToFind == methodsToFind && !hasFoundInvocation
      ensures visits == 0 && scans == 0
    {
      this.methodsToFind := methodsToFind;
      hasFoundInvocation := false;
      visits := 0;
      scans := 0;
    }

    method Visit(op: Operation)
      modifies this
      ensures hasFoundInvocation == (old(hasFoundInvocation) || ContainsCallTo(op, methodsToFind))
      ensures old(hasFoundInvocation) ==> scans == old(scans)
      ensures scans >= old(scans)
      ensures visits > old(visits)
      decreases op, 2
    {
      visits := visits + 1;
      if op.kind.Invocation? {
        VisitInvocation(op);
      } else {
        VisitChildren(op);
      }
    }

    /**
     * Scans an invocation against every method to find, only while nothing is
     * found; descends into its children only if still nothing is found.
     */
    method VisitInvocation(op: Operation)
      requires op.kind.Invocation?
      modifies this
      ensures hasFoundInvocation == (old(hasFoundInvocation) || ContainsCallTo(op, methodsToFind))
      ensures old(hasFoundInvocation) ==> scans == old(scans) && visits == old(visits)
      ensures !old(hasFoundInvocation) && InvocationMatches(op.kind.targetDefinition, methodsToFind) ==>
        scans == old(scans) + |methodsToFind| && visits == old(visits)
      ensures !old(hasFoundInvocation) ==> scans >= old(scans) + |methodsToFind|
      ensures scans >= old(scans) && visits >= old(visits)
      decreases op, 1
    {
      if !hasFoundInvocation {
        var target := op.kind.targetDefinition;
        for i := 0 to |methodsToFind|
          invariant hasFoundInvocation <==>
            exists k :: 0 <= k < i && ScanMatches(target, methodsToFind[k], methodsToFind)
          invariant scans == old(scans) + i && visits == old(visits)
        {
          ScanInvocation(target, methodsToFind[i]);
        }
        if !hasFoundInvocation {
          VisitChildren(op);
        }
      }
    }

    /** The walker's default behaviour: visit every child in order. */
    method VisitChildren(op: Operation)
      modifies this
      ensures hasFoundInvocation ==
        (old(hasFoundInvocation) || exists child | child in op.children :: ContainsCallTo(child, methodsToFind))
      ensures old(hasFoundInvocation) ==> scans == old(scans)
      ensures scans >= old(scans)
      ensures visits >= old(visits) + |op.children|
      decreases op, 0
    {
      var children := op.children;
      for i := 0 to |children|
        invariant hasFoundInvocation ==
          (old(hasFoundInvocation) || exists k :: 0 <= k < i && ContainsCallTo(children[k], methodsToFind))
        invariant old(hasFoundInvocation) ==> scans == old(scans)
        invariant scans >= old(scans)
        invariant visits >= old(visits) + i
      {
        Visit(children[i]);
      }
    }

    /** Scans one invocation against one method to find. */
    method ScanInvocation(target: SymbolId, methodToFind: MethodSymbol)
      modifies this
      ensures hasFoundInvocation == (old(hasFoundInvocation) || ScanMatches(target, methodToFind, methodsToFind))
      ensures scans == old(scans) + 1 && visits == old(visits)
    {
      scans := scans + 1;
      if methodToFind.kind == ExplicitInterfaceImplementation {
        ScanExplicitInterfaceInvocation(target, methodToFind);
      } else if exists m | m in methodsToFind :: m.id == target {
        hasFoundInvocation := true;
      }
    }

    method ScanExplicitInterfaceInvocation(target: SymbolId, methodToFind: MethodSymbol)
      modifies this
      ensures hasFoundInvocation ==
        (old(hasFoundInvocation) || target in methodToFind.explicitInterfaceImplementations)
      ensures scans == old(scans) && visits == old(visits)
    {
      var interfaceMethods := methodToFind.explicitInterfaceImplementations;
      for i := 0 to |interfaceMethods|
        invariant hasFoundInvocation == old(hasFoundInvocation)
        invariant target !in interfaceMethods[..i]
        invariant scans == old(scans) && visits == old(visits)
      {
        if target == interfaceMethods[i] {
          hasFoundInvocation := true;
          break;
        }
      }
    }
  }

  /** Whether the body of `methodToAnalyze` calls one of `methodsToInvoke`; false without an operation block. */
  method HasInvocationToAnyOf(methodsToInvoke: seq<MethodSymbol>, methodToAnalyze: MethodSymbol)
    returns (found: bool)
    ensures found <==>
      methodToAnalyze.operationBlock.Some? && ContainsCallTo(methodToAnalyze.operationBlock.value, methodsToInvoke)
  {
    var operation := methodToAnalyze.operationBlock;
    if operation.Some? {
      var walker := new MethodInvocationWalker(methodsToInvoke);
      walker.Visit(operation.value);
      return walker.hasFoundInvocation;
    }
    return false;
  }
}
