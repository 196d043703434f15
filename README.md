# Overload, statement-count, ref-parameter and named-argument rules of CSharpGuidelinesAnalyzer, in Dafny

CSharpGuidelinesAnalyzer is a set of Roslyn analyzers that check C# code against
coding guidelines. This project models the decision logic of four of them and
proves properties of it:

- **AV1551, overloads** (`OverloadRule`, `ParameterOrder`, `InvocationSearch`):
  per class or struct, the regular methods are grouped by name. Groups of one
  are dropped. In each group the single overload with the most parameters is
  reported when it could be made virtual. Every other overload is checked in
  two steps. First, its parameter order against the longest overload, using a
  two-pass, name-based positional check. Second, whether its body calls
  another overload of the group; this is a walker with a monotone "found"
  flag that resolves calls through explicit interface implementations.
- **AV1500, statement count** (`ManyStatements`): a walker class with a
  mutable counter runs over the operation blocks of a member and reports the
  member when the count exceeds seven. The walker is proved to compute a pure
  recursive count, and lemmas relate that count to the nodes the walker visits.
- **CSS1562, ref parameters** (`RefParameters`): a report/no-report decision
  per parameter.
- **AV1555, named arguments** (`NamedArguments`): a report/no-report decision
  per argument.

The compiler front end is input data. The operation tree (`Operations`) and
the method symbols (`MethodSymbols`) are datatypes. Every relationship the
compiler resolves is a field of them: hides-base-member, interface
implementation, synthesized, body syntax, operation block, display string,
location. Symbol identity (`Equals` on original definitions) is an id
compared with `==`. `ReportDiagnostic` becomes the returned sequence of
`Diagnostic(rule, location, args)` values, in the order the analyzer
reports them.

Where the code does something other than the natural reading of the rule, the
model follows the code:

- A node counts as a statement only when it is explicit AND the front end's
  statement test holds for it, not merely when its kind is a statement kind.
- The checked/unsafe and fixed compensations add one whether or not the
  block or declaration is implicit.
- A target that is an explicit interface implementation matches a call only
  through the interface methods it implements. Any other target matches a call
  of any method in the set (not only of itself), so a set made only of
  explicit interface implementations never matches a direct call of one of
  them (`InvocationSearch.InvocationMatchesIff`).
- The order check is positional. A parameter left out in the middle shifts
  the later ones, so `f(a, c)` is out of order against `f(a, b, c)`.
- The ref-parameter rule reports `ref` parameters only. `out` parameters are
  not reported, although the file is named after both.

## Model

| member | source | states |
|---|---|---|
| ManyStatements.StatementWalker.constructor | src/CSharpGuidelinesAnalyzer/CSharpGuidelinesAnalyzer/Rules/Maintainability/AvoidMemberWithManyStatementsAnalyzer.cs:72 | a new walker starts with a count of zero |
| ManyStatements.StatementWalker.VisitBlocks | src/CSharpGuidelinesAnalyzer/CSharpGuidelinesAnalyzer/Rules/Maintainability/AvoidMemberWithManyStatementsAnalyzer.cs:74-80 | walking the blocks in order adds exactly `CountAll(blocks)`, the sum of the per-block counts, to the counter |
| ManyStatements.StatementWalker.Visit | src/CSharpGuidelinesAnalyzer/CSharpGuidelinesAnalyzer/Rules/Maintainability/AvoidMemberWithManyStatementsAnalyzer.cs:82-186 | the per-kind dispatch adds exactly `Count(op)` to the counter, so the counter never decreases |
| ManyStatements.StatementWalker.VisitChildren | src/CSharpGuidelinesAnalyzer/CSharpGuidelinesAnalyzer/Rules/Maintainability/AvoidMemberWithManyStatementsAnalyzer.cs:92 | the default descent adds the counts of all children, in order |
| ManyStatements.StatementWalker.IncrementStatementCount | src/CSharpGuidelinesAnalyzer/CSharpGuidelinesAnalyzer/Rules/Maintainability/AvoidMemberWithManyStatementsAnalyzer.cs:188-194 | the counter grows by one exactly for an explicit node that is a statement, and is otherwise unchanged |
| ManyStatements.CountAllAppend | src/CSharpGuidelinesAnalyzer/CSharpGuidelinesAnalyzer/Rules/Maintainability/AvoidMemberWithManyStatementsAnalyzer.cs:74-80 | the count of consecutive block sequences is the sum of their counts |
| ManyStatements.CountIsIncrementingVisits | src/CSharpGuidelinesAnalyzer/CSharpGuidelinesAnalyzer/Rules/Maintainability/AvoidMemberWithManyStatementsAnalyzer.cs:106-186 | the count of a tree equals the number of visited nodes whose handler increments; nothing under a `Branch` or `Empty` node is visited |
| ManyStatements.CountAllIsIncrementingVisits | src/CSharpGuidelinesAnalyzer/CSharpGuidelinesAnalyzer/Rules/Maintainability/AvoidMemberWithManyStatementsAnalyzer.cs:74-80 | the same for a sequence of blocks walked in order |
| ManyStatements.VisitedSubtreeCounts | src/CSharpGuidelinesAnalyzer/CSharpGuidelinesAnalyzer/Rules/Maintainability/AvoidMemberWithManyStatementsAnalyzer.cs:82-186 | the count of any visited subtree is at most the count of the whole tree |
| ManyStatements.VisitedSubtreeCountsAll | src/CSharpGuidelinesAnalyzer/CSharpGuidelinesAnalyzer/Rules/Maintainability/AvoidMemberWithManyStatementsAnalyzer.cs:74-80 | the same for a sequence of blocks |
| ManyStatements.CollapsedRegionAddsOne | src/CSharpGuidelinesAnalyzer/CSharpGuidelinesAnalyzer/Rules/Maintainability/AvoidMemberWithManyStatementsAnalyzer.cs:82-104 | a block under a `checked`/`unsafe` statement, or a variable declaration under a `fixed` statement, counts exactly one more than its contents, and the tree it is visited in counts at least that |
| ManyStatements.CollapsedRegionAtDepthAddsExactlyOne | src/CSharpGuidelinesAnalyzer/CSharpGuidelinesAnalyzer/Rules/Maintainability/AvoidMemberWithManyStatementsAnalyzer.cs:82-104 | at any depth on a visited path, taking such a region out of its enclosing statement lowers the count of the whole tree by exactly one |
| ManyStatements.ImplicitNodeAddsNothing | src/CSharpGuidelinesAnalyzer/CSharpGuidelinesAnalyzer/Rules/Maintainability/AvoidMemberWithManyStatementsAnalyzer.cs:188-194 | an implicit node adds nothing of its own (unless it stands for a collapsed region) |
| ManyStatements.CountAtMostSize | src/CSharpGuidelinesAnalyzer/CSharpGuidelinesAnalyzer/Rules/Maintainability/AvoidMemberWithManyStatementsAnalyzer.cs:188-194 | each visited node adds at most one, so the count is bounded by the size of the tree |
| ManyStatements.CountAllAtMostSize | src/CSharpGuidelinesAnalyzer/CSharpGuidelinesAnalyzer/Rules/Maintainability/AvoidMemberWithManyStatementsAnalyzer.cs:74-80 | the same bound for a sequence of blocks |
| ManyStatements.ReportMember | src/CSharpGuidelinesAnalyzer/CSharpGuidelinesAnalyzer/Rules/Maintainability/AvoidMemberWithManyStatementsAnalyzer.cs:57-68 | no diagnostic for a synthesized member; otherwise one diagnostic at the member location carrying (kind, display name, count) |
| ManyStatements.AnalyzeCodeBlock | src/CSharpGuidelinesAnalyzer/CSharpGuidelinesAnalyzer/Rules/Maintainability/AvoidMemberWithManyStatementsAnalyzer.cs:44-55 | a diagnostic exactly when the total count over all blocks exceeds 7 and the member is not synthesized, carrying that total |
| ManyStatements.BodyOfCounts | src/CSharpGuidelinesAnalyzer/CSharpGuidelinesAnalyzer/Rules/Maintainability/AvoidMemberWithManyStatementsAnalyzer.cs:116-120 | a body of n explicit expression statements counts n |
| ManyStatements.ThresholdIsStrict | src/CSharpGuidelinesAnalyzer/CSharpGuidelinesAnalyzer/Rules/Maintainability/AvoidMemberWithManyStatementsAnalyzer.cs:16 | a member with 7 statements is not reported; one with 8 is reported once, with the count 8 |
| ParameterOrder.FindIndex | src/CSharpGuidelinesAnalyzer/CSharpGuidelinesAnalyzer/Rules/Maintainability/OverloadShouldCallOtherOverloadAnalyzer.cs:211 | the index of the first parameter with the name, -1 exactly when the name is absent |
| ParameterOrder.OutOfPlace | src/CSharpGuidelinesAnalyzer/CSharpGuidelinesAnalyzer/Rules/Maintainability/OverloadShouldCallOtherOverloadAnalyzer.cs:211-215 | a parameter is out of place iff its name first occurs in the longest list at another index |
| ParameterOrder.ParameterListsInSameOrder | src/CSharpGuidelinesAnalyzer/CSharpGuidelinesAnalyzer/Rules/Maintainability/OverloadShouldCallOtherOverloadAnalyzer.cs:204-219 | false iff some parameter i has its name first found in the longest list at an index j different from i; the empty list is in order |
| ParameterOrder.IsRegularParameter | src/CSharpGuidelinesAnalyzer/CSharpGuidelinesAnalyzer/Rules/Maintainability/OverloadShouldCallOtherOverloadAnalyzer.cs:194-197 | definition: the source's condition, no explicit default value and not `params`; OrderConsistent applies the first pass to exactly these, and ParamsParameterIgnored states that a `params` parameter takes part in neither pass |
| ParameterOrder.IsParameterWithDefaultValue | src/CSharpGuidelinesAnalyzer/CSharpGuidelinesAnalyzer/Rules/Maintainability/OverloadShouldCallOtherOverloadAnalyzer.cs:199-202 | definition: the source's condition, an explicit default value and not `params`; OrderConsistent applies the second pass to exactly these |
| ParameterOrder.AreParametersDeclaredInSameOrder | src/CSharpGuidelinesAnalyzer/CSharpGuidelinesAnalyzer/Rules/Maintainability/OverloadShouldCallOtherOverloadAnalyzer.cs:172-192 | true iff both passes succeed: regular parameters against regular ones, then defaulted parameters against defaulted ones |
| ParameterOrder.InSameOrderIffSamePositions | src/CSharpGuidelinesAnalyzer/CSharpGuidelinesAnalyzer/Rules/Maintainability/OverloadShouldCallOtherOverloadAnalyzer.cs:204-219 | when the longest list has distinct names, in order means every shared name sits at the same index in both lists |
| ParameterOrder.LeadingPartIsInOrder | src/CSharpGuidelinesAnalyzer/CSharpGuidelinesAnalyzer/Rules/Maintainability/OverloadShouldCallOtherOverloadAnalyzer.cs:204-219 | an overload whose parameters are a leading part of the longest overload is in order |
| ParameterOrder.PositionalMismatches | src/CSharpGuidelinesAnalyzer/CSharpGuidelinesAnalyzer/Rules/Maintainability/OverloadShouldCallOtherOverloadAnalyzer.cs:207-215 | the check is positional: `f(a, c)` is out of order against `f(a, b, c)`, and `f(z, x)` against `f(x, y, z)` |
| ParameterOrder.ParamsParameterIgnored | src/CSharpGuidelinesAnalyzer/CSharpGuidelinesAnalyzer/Rules/Maintainability/OverloadShouldCallOtherOverloadAnalyzer.cs:194-202 | adding a `params` parameter to either list changes neither pass |
| InvocationSearch.ContainsCallToIffCalledTarget | src/CSharpGuidelinesAnalyzer/CSharpGuidelinesAnalyzer/Rules/Maintainability/OverloadShouldCallOtherOverloadAnalyzer.cs:247-261 | the search succeeds iff some method invoked anywhere in the tree matches the set of methods to find |
| InvocationSearch.InvocationMatchesIff | src/CSharpGuidelinesAnalyzer/CSharpGuidelinesAnalyzer/Rules/Maintainability/OverloadShouldCallOtherOverloadAnalyzer.cs:263-289 | a call matches iff it targets a method of the set and the set has a method that is not an explicit interface implementation, or it targets an interface method that an explicit implementation in the set implements |
| InvocationSearch.CallThroughInterfaceFound | src/CSharpGuidelinesAnalyzer/CSharpGuidelinesAnalyzer/Rules/Maintainability/OverloadShouldCallOtherOverloadAnalyzer.cs:278-289 | a call through an interface method is found when an explicit implementation of it is among the methods to find |
| InvocationSearch.MethodInvocationWalker.constructor | src/CSharpGuidelinesAnalyzer/CSharpGuidelinesAnalyzer/Rules/Maintainability/OverloadShouldCallOtherOverloadAnalyzer.cs:242-245 | a new walker holds the methods to find, has found nothing, and has visited and scanned nothing |
| InvocationSearch.MethodInvocationWalker.Visit | src/CSharpGuidelinesAnalyzer/CSharpGuidelinesAnalyzer/Rules/Maintainability/OverloadShouldCallOtherOverloadAnalyzer.cs:235-261 | after walking a tree the flag is its old value or-ed with whether the tree contains a matching call, so it only turns from false to true; once it is set, walking scans nothing more |
| InvocationSearch.MethodInvocationWalker.VisitInvocation | src/CSharpGuidelinesAnalyzer/CSharpGuidelinesAnalyzer/Rules/Maintainability/OverloadShouldCallOtherOverloadAnalyzer.cs:247-261 | with the flag already set, nothing is scanned and no child is visited; otherwise, match or not, the call is scanned against every method to find (at least that many scans), and when it matches exactly that many scans happen and no child is visited |
| InvocationSearch.MethodInvocationWalker.VisitChildren | src/CSharpGuidelinesAnalyzer/CSharpGuidelinesAnalyzer/Rules/Maintainability/OverloadShouldCallOtherOverloadAnalyzer.cs:258 | every child is visited; the flag is set iff some child contains a matching call (or it was already set), and nothing is scanned once it was set |
| InvocationSearch.MethodInvocationWalker.ScanInvocation | src/CSharpGuidelinesAnalyzer/CSharpGuidelinesAnalyzer/Rules/Maintainability/OverloadShouldCallOtherOverloadAnalyzer.cs:263-276 | one scan: the flag is set iff the call matches this method to find, per its kind |
| InvocationSearch.MethodInvocationWalker.ScanExplicitInterfaceInvocation | src/CSharpGuidelinesAnalyzer/CSharpGuidelinesAnalyzer/Rules/Maintainability/OverloadShouldCallOtherOverloadAnalyzer.cs:278-289 | the flag is set iff the call targets one of the implemented interface methods |
| InvocationSearch.HasInvocationToAnyOf | src/CSharpGuidelinesAnalyzer/CSharpGuidelinesAnalyzer/Rules/Maintainability/OverloadShouldCallOtherOverloadAnalyzer.cs:221-233 | true iff the method has an operation block that contains a matching call; false without one |
| OverloadRule.Names | src/CSharpGuidelinesAnalyzer/CSharpGuidelinesAnalyzer/Rules/Maintainability/OverloadShouldCallOtherOverloadAnalyzer.cs:68 | the distinct names of the regular methods, each exactly once, in order of first occurrence |
| OverloadRule.GroupsByName | src/CSharpGuidelinesAnalyzer/CSharpGuidelinesAnalyzer/Rules/Maintainability/OverloadShouldCallOtherOverloadAnalyzer.cs:68 | one group per name, at the position of its name: the methods of that name in their original order |
| OverloadRule.GroupsByNameDistinct | src/CSharpGuidelinesAnalyzer/CSharpGuidelinesAnalyzer/Rules/Maintainability/OverloadShouldCallOtherOverloadAnalyzer.cs:68 | no group is listed twice |
| OverloadRule.IsRegularMethod | src/CSharpGuidelinesAnalyzer/CSharpGuidelinesAnalyzer/Rules/Maintainability/OverloadShouldCallOtherOverloadAnalyzer.cs:86-90 | definition: the source's condition, not a constructor, not synthesized and with body syntax; RegularMethods and MethodGroups state its consequence, that only such methods are grouped |
| OverloadRule.RegularMethods | src/CSharpGuidelinesAnalyzer/CSharpGuidelinesAnalyzer/Rules/Maintainability/OverloadShouldCallOtherOverloadAnalyzer.cs:80-84 | a member is kept iff it is not a constructor, not synthesized and has body syntax |
| OverloadRule.HasAtLeastTwoItems | src/CSharpGuidelinesAnalyzer/CSharpGuidelinesAnalyzer/Rules/Maintainability/OverloadShouldCallOtherOverloadAnalyzer.cs:98-101 | definition: more than one item, as `Skip(1).Any()`; MethodGroups states its consequence, that single-method names form no group, and TryGetSingleLongestOverload that a tie at the maximum gives no longest overload |
| OverloadRule.MethodGroups | src/CSharpGuidelinesAnalyzer/CSharpGuidelinesAnalyzer/Rules/Maintainability/OverloadShouldCallOtherOverloadAnalyzer.cs:68-69 | every group holds exactly the regular methods of one name and has at least two; every name with two or more regular methods has its group; no two groups share a name |
| OverloadRule.GroupsOfTwoOrMoreHaveDistinctNames | src/CSharpGuidelinesAnalyzer/CSharpGuidelinesAnalyzer/Rules/Maintainability/OverloadShouldCallOtherOverloadAnalyzer.cs:68-69 | after dropping the groups of one, no two remaining groups hold methods of the same name |
| OverloadRule.MethodGroupsAreNonEmpty | src/CSharpGuidelinesAnalyzer/CSharpGuidelinesAnalyzer/Rules/Maintainability/OverloadShouldCallOtherOverloadAnalyzer.cs:68-69 | no method group is empty |
| OverloadRule.MaxParameterCount | src/CSharpGuidelinesAnalyzer/CSharpGuidelinesAnalyzer/Rules/Maintainability/OverloadShouldCallOtherOverloadAnalyzer.cs:146-147 | the largest parameter count of the group, held by some member |
| OverloadRule.SingleLongestIsOnlyMaximum | src/CSharpGuidelinesAnalyzer/CSharpGuidelinesAnalyzer/Rules/Maintainability/OverloadShouldCallOtherOverloadAnalyzer.cs:146-150 | when one member has strictly more parameters than all others, it alone holds the maximum |
| OverloadRule.HighestParameterCountShape | src/CSharpGuidelinesAnalyzer/CSharpGuidelinesAnalyzer/Rules/Maintainability/OverloadShouldCallOtherOverloadAnalyzer.cs:146-150 | the maximum is held by at least one member, and by exactly one iff there is a single longest member |
| OverloadRule.TryGetSingleLongestOverload | src/CSharpGuidelinesAnalyzer/CSharpGuidelinesAnalyzer/Rules/Maintainability/OverloadShouldCallOtherOverloadAnalyzer.cs:143-151 | a member exactly when one member has strictly more parameters than every other, and then that member |
| OverloadRule.CompareOrderOfParameters | src/CSharpGuidelinesAnalyzer/CSharpGuidelinesAnalyzer/Rules/Maintainability/OverloadShouldCallOtherOverloadAnalyzer.cs:160-170 | an order diagnostic at the overload location iff the two-pass check fails and the overload is not synthesized |
| OverloadRule.OrderDiagnostics | src/CSharpGuidelinesAnalyzer/CSharpGuidelinesAnalyzer/Rules/Maintainability/OverloadShouldCallOtherOverloadAnalyzer.cs:125-129 | at most one diagnostic, of the order rule at the overload's location, present iff the signature is not dictated elsewhere, the overload is not synthesized and the two-pass check fails |
| OverloadRule.InvokeDiagnostics | src/CSharpGuidelinesAnalyzer/CSharpGuidelinesAnalyzer/Rules/Maintainability/OverloadShouldCallOtherOverloadAnalyzer.cs:131-139 | at most one diagnostic, of the invoke rule at the report site (the partial implementation part if any), present iff the overload calls no other member of the group |
| OverloadRule.OverloadDiagnostics | src/CSharpGuidelinesAnalyzer/CSharpGuidelinesAnalyzer/Rules/Maintainability/OverloadShouldCallOtherOverloadAnalyzer.cs:123-140 | nothing for the longest overload; for another one, an order diagnostic iff its signature is its own, it is not synthesized and the check fails, and an invoke diagnostic iff it calls no other member of the group |
| OverloadRule.AnalyzeOverload | src/CSharpGuidelinesAnalyzer/CSharpGuidelinesAnalyzer/Rules/Maintainability/OverloadShouldCallOtherOverloadAnalyzer.cs:123-140 | the loop body for one overload: exactly what OverloadDiagnostics says, so the longest overload gets nothing and every other overload is checked for order and for a call to another member of the group |
| OverloadRule.AnalyzeOverloads | src/CSharpGuidelinesAnalyzer/CSharpGuidelinesAnalyzer/Rules/Maintainability/OverloadShouldCallOtherOverloadAnalyzer.cs:120-141 | the diagnostics of every overload of the group, in group order |
| OverloadRule.AnalyzeMethodGroup | src/CSharpGuidelinesAnalyzer/CSharpGuidelinesAnalyzer/Rules/Maintainability/OverloadShouldCallOtherOverloadAnalyzer.cs:103-118 | the make-virtual diagnostic (if the longest overload can be made virtual) followed by the overloads' diagnostics; nothing without a single longest overload |
| OverloadRule.AnalyzeMethodGroups | src/CSharpGuidelinesAnalyzer/CSharpGuidelinesAnalyzer/Rules/Maintainability/OverloadShouldCallOtherOverloadAnalyzer.cs:71-76 | the diagnostics of every method group, in group order |
| OverloadRule.AnalyzeNamedType | src/CSharpGuidelinesAnalyzer/CSharpGuidelinesAnalyzer/Rules/Maintainability/OverloadShouldCallOtherOverloadAnalyzer.cs:59-77 | the diagnostics of all method groups of a class or struct; nothing for any other kind of type |
| OverloadRule.OverloadsNeverMakeVirtual | src/CSharpGuidelinesAnalyzer/CSharpGuidelinesAnalyzer/Rules/Maintainability/OverloadShouldCallOtherOverloadAnalyzer.cs:120-141 | checking overloads never reports "make virtual" |
| OverloadRule.CanBeMadeVirtual | src/CSharpGuidelinesAnalyzer/CSharpGuidelinesAnalyzer/Rules/Maintainability/OverloadShouldCallOtherOverloadAnalyzer.cs:153-158 | definition: the seven conditions (not static, not private, type not sealed and not a struct, not virtual, not an override, no explicit interface implementation); MakeVirtualOnceIff states that make-virtual is reported exactly when they hold for the single longest overload |
| OverloadRule.MakeVirtualOnceIff | src/CSharpGuidelinesAnalyzer/CSharpGuidelinesAnalyzer/Rules/Maintainability/OverloadShouldCallOtherOverloadAnalyzer.cs:106-116 | a group reports "make virtual" at most once, first, and exactly when its single longest overload meets the seven conditions |
| OverloadRule.NoMakeVirtualInGroups | src/CSharpGuidelinesAnalyzer/CSharpGuidelinesAnalyzer/Rules/Maintainability/OverloadShouldCallOtherOverloadAnalyzer.cs:153-158 | no group of a sealed type or a struct reports "make virtual" |
| OverloadRule.SealedOrStructNeverMakeVirtual | src/CSharpGuidelinesAnalyzer/CSharpGuidelinesAnalyzer/Rules/Maintainability/OverloadShouldCallOtherOverloadAnalyzer.cs:153-158 | a sealed type or a struct never gets the "make virtual" diagnostic |
| OverloadRule.TiedMaximumSkipsGroup | src/CSharpGuidelinesAnalyzer/CSharpGuidelinesAnalyzer/Rules/Maintainability/OverloadShouldCallOtherOverloadAnalyzer.cs:143-151 | when two members share the maximum parameter count, the group reports nothing at all |
| OverloadRule.OnlyOtherOverloadsReported | src/CSharpGuidelinesAnalyzer/CSharpGuidelinesAnalyzer/Rules/Maintainability/OverloadShouldCallOtherOverloadAnalyzer.cs:123-140 | every order or invoke diagnostic is placed on an overload other than the longest, at its location or its partial implementation part |
| RefParameters.IsRefParameter | src/CSharpGuidelinesAnalyzer/CSharpGuidelinesAnalyzer/Rules/Maintainability/DoNotDeclareRefOrOutParameterAnalyzer.cs:59-62 | definition: the parameter's ref kind is `ref`; ReportedIff and OnlyRefIsReported state its consequence, that `out`, `in` and by-value parameters are never reported |
| RefParameters.AnalyzeRefParameter | src/CSharpGuidelinesAnalyzer/CSharpGuidelinesAnalyzer/Rules/Maintainability/DoNotDeclareRefOrOutParameterAnalyzer.cs:64-73 | a diagnostic at the parameter carrying its name iff the member neither overrides nor hides a base member and the parameter does not implement an interface member |
| RefParameters.AnalyzeParameter | src/CSharpGuidelinesAnalyzer/CSharpGuidelinesAnalyzer/Rules/Maintainability/DoNotDeclareRefOrOutParameterAnalyzer.cs:42-57 | only a named `ref` parameter that is not synthesized and not on a deconstructor can be reported, with the rule's diagnostic |
| RefParameters.ReportedIff | src/CSharpGuidelinesAnalyzer/CSharpGuidelinesAnalyzer/Rules/Maintainability/DoNotDeclareRefOrOutParameterAnalyzer.cs:42-73 | reported iff named, `ref`, not on a deconstructor, not synthesized, not on an override or base-hiding member, not an interface implementation |
| RefParameters.OnlyRefIsReported | src/CSharpGuidelinesAnalyzer/CSharpGuidelinesAnalyzer/Rules/Maintainability/DoNotDeclareRefOrOutParameterAnalyzer.cs:59-62 | `out`, `in` and by-value parameters are never reported |
| RefParameters.ChangingRefKindSilences | src/CSharpGuidelinesAnalyzer/CSharpGuidelinesAnalyzer/Rules/Maintainability/DoNotDeclareRefOrOutParameterAnalyzer.cs:51-62 | for a reported parameter, only the ref kind `ref` keeps it reported |
| RefParameters.DictatedSignatureSilences | src/CSharpGuidelinesAnalyzer/CSharpGuidelinesAnalyzer/Rules/Maintainability/DoNotDeclareRefOrOutParameterAnalyzer.cs:68-69 | each of override, base hiding and interface implementation silences a reported parameter |
| RefParameters.ParametersDiagnostics | src/CSharpGuidelinesAnalyzer/CSharpGuidelinesAnalyzer/Rules/Maintainability/DoNotDeclareRefOrOutParameterAnalyzer.cs:42-57 | exactly one diagnostic per reported parameter, in parameter order, each the rule's diagnostic for that parameter |
| RefParameters.OneDiagnosticPerRefParameter | src/CSharpGuidelinesAnalyzer/CSharpGuidelinesAnalyzer/Rules/Maintainability/DoNotDeclareRefOrOutParameterAnalyzer.cs:46-71 | in a member with a signature of its own, one diagnostic per named `ref` parameter |
| NamedArguments.AnalyzeArgument | src/CSharpGuidelinesAnalyzer/CSharpGuidelinesAnalyzer/Maintainability/AvoidUsingNamedArgumentsAnalyzer.cs:41-54 | only a named argument whose parameter is neither `bool` nor `bool?` is reported, at the argument, carrying the parameter name and the containing symbol |
| NamedArguments.ReportedIff | src/CSharpGuidelinesAnalyzer/CSharpGuidelinesAnalyzer/Maintainability/AvoidUsingNamedArgumentsAnalyzer.cs:45-48 | reported iff named and the parameter type is neither `System.Boolean` nor nullable boolean |
| NamedArguments.UnnamedNeverReported | src/CSharpGuidelinesAnalyzer/CSharpGuidelinesAnalyzer/Maintainability/AvoidUsingNamedArgumentsAnalyzer.cs:45 | positional, `params` and defaulted arguments are never reported |
| NamedArguments.NamingMattersOnlyForNonBoolean | src/CSharpGuidelinesAnalyzer/CSharpGuidelinesAnalyzer/Maintainability/AvoidUsingNamedArgumentsAnalyzer.cs:45-53 | the positional form is never reported; the named form is reported iff the parameter is not boolean |
| NamedArguments.ArgumentsDiagnostics | src/CSharpGuidelinesAnalyzer/CSharpGuidelinesAnalyzer/Maintainability/AvoidUsingNamedArgumentsAnalyzer.cs:41-54 | exactly one diagnostic per named non-boolean argument, in argument order, each at the argument and carrying its parameter name and containing symbol |

## Left out

- Analyzer registration, `Initialize`, concurrent execution and generated-code configuration: plumbing around the decisions, not part of them.
- Diagnostic descriptors (titles, message formats, categories, help links): a diagnostic is its rule, location and message arguments.
- Cancellation (`ThrowIfCancellationRequested`): a no-op in the model.
- Front-end queries whose code is not part of this model (`IsSynthesized`, `HidesBaseMember`, `IsInterfaceImplementation`, `IsDeconstructor`, `TryGetBodySyntaxForMethod`, `TryGetOperationBlockForMethod`, `GetContainingMember`, `IsStatement`, `IsNullableBoolean`, `ToDisplayString`, `SkipInvalid`) are fields of the input datatypes, not behaviour.
- `SkipEmptyName` is modelled as skipping a parameter whose name is empty (in `RefParameters.AnalyzeParameter`). Around `AnalyzeNamedType` it is left out: a `NamedType` carries no name, so a type with an empty name is analysed like any other.
- `GetMembers().OfType<IMethodSymbol>()`: a `NamedType` holds only its method members, so the type filter is implicit.
- The walkers' dispatch over Roslyn's visitor interface is one `match` on the operation kind; kinds a rule does not look at are `OtherOperation`, whose default handler descends into the children.
- Order of method groups: groups are listed in order of the first occurrence of each name, as LINQ's `GroupBy` yields them (`OverloadRule.Names` states that order and `OverloadRule.GroupsByName` follows it position by position; dropping the groups of one keeps the rest in order, which no contract restates).
- Symbol identity: the members of a type are taken to have distinct ids. Two different methods that share an id are treated as one method; for example, both are skipped as the longest overload, and neither counts as an "other" overload of the other.
- Walker counters: the ghost `visits` and `scans` counters of `InvocationSearch.MethodInvocationWalker` exist only to state what the walker does not do once the flag is set; the source has no such counters.
- Counters are unbounded: the source's `int` statement counter is not modelled as wrapping, since a member cannot hold 2^31 statements.
- The ref-parameter analyzer registers its handler as a syntax-node action while the handler reads a symbol context; the model takes the handler as called once per parameter symbol.
- Running an analysis twice gives the same diagnostics: every decision is a function of its inputs, so this holds by construction and has no lemma.
