/**
 * AV1551: a method overload should call another overload.
 *
 * Per class or struct, the regular methods are grouped by name and groups of
 * one are dropped. In each group the single overload with the most
 * parameters is the longest overload; when the maximum is shared the group
 * is skipped. The longest overload is reported when it could be made
 * virtual; every other overload is checked for parameter order against it
 * (unless its signature is dictated elsewhere) and for calling a sibling.
 */
module OverloadRule {
  import opened Common
  import opened Operations
  import opened MethodSymbols
  import opened ParameterOrder
  import opened InvocationSearch

  predicate IsRegularMethod(m: MethodSymbol)
  {
    m.kind != Constructor && !m.isSynthesized && m.hasBodySyntax
  }

  /** `source.Skip(1).Any()` */
  predicate HasAtLeastTwoItems<T>(source: seq<T>)
  {
    |source| > 1
  }

  /** The type's members that are regular methods, in declaration order. */
  function RegularMethods(t: NamedType): (r: seq<MethodSymbol>)
    ensures forall m :: m in r <==> m in t.members && m.kind != Constructor && !m.isSynthesized && m.hasBodySyntax
  {
    Filter(IsRegularMethod, t.members)
  }

  /** Some method named `a` comes before every method named `b`: `a` is first seen before `b`. */
  ghost predicate FirstSeenBefore(methods: seq<MethodSymbol>, a: string, b: string)
  {
    exists k :: 0 <= k < |methods| && methods[k].name == a && forall k2 :: 0 <= k2 <= k ==> methods[k2].name != b
  }

  /** Adding one method at the end keeps the first-occurrence order of the names seen so far and appends a new name. */
  lemma NamesOrderStep(pre: seq<MethodSymbol>, last: MethodSymbol, init: seq<string>,
                        methods: seq<MethodSymbol>, names: seq<string>)
    requires forall m | m in pre :: m.name in init
    requires forall n | n in init :: exists m | m in pre :: m.name == n
    requires forall i, j :: 0 <= i < j < |init| ==> FirstSeenBefore(pre, init[i], init[j])
    requires methods == pre + [last]
    requires names == if last.name in init then init else init + [last.name]
    ensures forall i, j :: 0 <= i < j < |names| ==> FirstSeenBefore(methods, names[i], names[j])
  {
    forall i, j | 0 <= i < j < |names| ensures FirstSeenBefore(methods, names[i], names[j]) {
      if j < |init| {
        var k :| 0 <= k < |pre| && pre[k].name == init[i] && forall k2 :: 0 <= k2 <= k ==> pre[k2].name != init[j];
        assert methods[k] == pre[k];
        forall k2 | 0 <= k2 <= k ensures methods[k2].name != names[j] {
          assert methods[k2] == pre[k2];
        }
      } else {
        assert names[j] == last.name && last.name !in init && names[i] == init[i];
        assert init[i] in init;
        var m :| m in pre && m.name == init[i];
        var k :| 0 <= k < |pre| && pre[k] == m;
        assert methods[k] == pre[k];
        forall k2 | 0 <= k2 <= k ensures methods[k2].name != names[j] {
          assert methods[k2] == pre[k2] && pre[k2] in pre;
        }
      }
    }
  }

  /** The distinct method names, in order of first occurrence (the keys of `GroupBy`). */
  function Names(methods: seq<MethodSymbol>): (names: seq<string>)
    ensures forall m | m in methods :: m.name in names
    ensures forall n | n in names :: exists m | m in methods :: m.name == n
    ensures forall i, j :: 0 <= i < j < |names| ==> names[i] != names[j]
    ensures forall i, j :: 0 <= i < j < |names| ==> FirstSeenBefore(methods, names[i], names[j])
  {
    if methods == [] then []
    else
      var pre := methods[..|methods| - 1];
      var init := Names(pre);
      var last := methods[|methods| - 1];
      assert methods == pre + [last];
      assert forall m | m in methods :: m in pre || m == last;
      var names := if last.name in init then init else init + [last.name];
      NamesOrderStep(pre, last, init, methods, names);
      names
  }

  /** The methods named `name`, in their original order (one group of `GroupBy`). */
  function GroupNamed(methods: seq<MethodSymbol>, name: string): seq<MethodSymbol>
  {
    Filter((m: MethodSymbol) => m.name == name, methods)
  }

  /** The groups of all names, before the singleton groups are dropped: one per name, in the order of the names. */
  function GroupsByName(regular: seq<MethodSymbol>): (all: seq<seq<MethodSymbol>>)
    ensures |all| == |Names(regular)|
    ensures forall i :: 0 <= i < |all| ==> all[i] == GroupNamed(regular, Names(regular)[i])
    ensures forall g: seq<MethodSymbol> | g in all :: exists n | n in Names(regular) :: g == GroupNamed(regular, n)
    ensures forall m | m in regular :: GroupNamed(regular, m.name) in all
  {
    var names := Names(regular);
    var all := seq(|names|, i requires 0 <= i < |names| => GroupNamed(regular, names[i]));
    assert forall i :: 0 <= i < |names| ==> all[i] == GroupNamed(regular, names[i]);
    forall m | m in regular ensures GroupNamed(regular, m.name) in all {
      var i :| 0 <= i < |names| && names[i] == m.name;
      assert all[i] == GroupNamed(regular, m.name);
    }
    all
  }

  /** The group of a name that some method has starts with a method of that name. */
  lemma GroupNamedHead(regular: seq<MethodSymbol>, m: MethodSymbol)
    requires m in regular
    ensures |GroupNamed(regular, m.name)| > 0 && GroupNamed(regular, m.name)[0].name == m.name
  {
    var g := GroupNamed(regular, m.name);
    assert m in g;
    assert g[0] in g;
  }

  /** Different names have different groups, so no group is listed twice. */
  lemma GroupsByNameDistinct(regular: seq<MethodSymbol>)
    ensures Distinct(GroupsByName(regular))
  {
    var names := Names(regular);
    var all: seq<seq<MethodSymbol>> := GroupsByName(regular);
    forall i | 0 <= i < |all| ensures |all[i]| > 0 && all[i][0].name == names[i] {
      assert names[i] in names;
      var m :| m in regular && m.name == names[i];
      GroupNamedHead(regular, m);
    }
  }

  /** Distinct groups, each the group of its own name, have distinct names. */
  lemma DistinctGroupsHaveDistinctNames(regular: seq<MethodSymbol>, groups: seq<seq<MethodSymbol>>)
    requires Distinct(groups)
    requires forall g: seq<MethodSymbol> | g in groups :: |g| > 0 && g == GroupNamed(regular, g[0].name)
    ensures forall i, j :: 0 <= i < j < |groups| ==> groups[i][0].name != groups[j][0].name
  {
    forall i, j | 0 <= i < j < |groups| ensures groups[i][0].name != groups[j][0].name {
      assert groups[i] in groups && groups[j] in groups;
    }
  }

  /** `g` is the group of all regular methods of `t` that share `g`'s name, and it has two or more. */
  predicate IsMethodGroupOf(t: NamedType, g: seq<MethodSymbol>)
  {
    && |g| >= 2
    && g == GroupNamed(RegularMethods(t), g[0].name)
    && forall m | m in g :: m in t.members && IsRegularMethod(m) && m.name == g[0].name
  }

  /** The groups of two or more regular methods, before their properties are established. */
  function GroupsOfTwoOrMore(t: NamedType): seq<seq<MethodSymbol>>
  {
    Filter(HasAtLeastTwoItems, GroupsByName(RegularMethods(t)))
  }

  lemma GroupsOfTwoOrMoreAreMethodGroups(t: NamedType)
    ensures forall g: seq<MethodSymbol> | g in GroupsOfTwoOrMore(t) :: IsMethodGroupOf(t, g)
  {
    var regular := RegularMethods(t);
    forall g: seq<MethodSymbol> | g in GroupsOfTwoOrMore(t) ensures IsMethodGroupOf(t, g) {
      var n :| n in Names(regular) && g == GroupNamed(regular, n);
      assert g[0] in g;
    }
  }

  lemma GroupsOfTwoOrMoreHaveDistinctNames(t: NamedType)
    ensures var groups := GroupsOfTwoOrMore(t);
      forall i, j, m1, m2 :: 0 <= i < j < |groups| && m1 in groups[i] && m2 in groups[j] ==> m1.name != m2.name
  {
    var regular := RegularMethods(t);
    var all: seq<seq<MethodSymbol>> := GroupsByName(regular);
    GroupsOfTwoOrMoreAreMethodGroups(t);
    GroupsByNameDistinct(regular);
    FilterDistinct(HasAtLeastTwoItems, all);
    var groups: seq<seq<MethodSymbol>> := GroupsOfTwoOrMore(t);
    DistinctGroupsHaveDistinctNames(regular, groups);
    forall i, j, m1: MethodSymbol, m2: MethodSymbol | 0 <= i < j < |groups| && m1 in groups[i] && m2 in groups[j] ensures m1.name != m2.name {
      assert groups[i] in groups && groups[j] in groups;
    }
  }

  /**
   * The method groups of a type: one per name shared by at least two regular
   * methods, each holding exactly the regular methods of that name, and no
   * name listed twice.
   */
  function MethodGroups(t: NamedType): (groups: seq<seq<MethodSymbol>>)
    ensures forall g: seq<MethodSymbol> | g in groups :: IsMethodGroupOf(t, g)
    ensures forall m | m in RegularMethods(t) && |GroupNamed(RegularMethods(t), m.name)| >= 2 ::
      GroupNamed(RegularMethods(t), m.name) in groups
    ensures forall i, j, m1, m2 :: 0 <= i < j < |groups| && m1 in groups[i] && m2 in groups[j] ==> m1.name != m2.name
  {
    GroupsOfTwoOrMoreAreMethodGroups(t);
    GroupsOfTwoOrMoreHaveDistinctNames(t);
    GroupsOfTwoOrMore(t)
  }

  /** The largest parameter count in a group. */
  function MaxParameterCount(group: seq<MethodSymbol>): (max: nat)
    requires |group| > 0
    ensures forall m | m in group :: |m.parameters| <= max
    ensures exists k :: 0 <= k < |group| && |group[k].parameters| == max
  {
    if |group| == 1 then |group[0].parameters|
    else
      var rest := MaxParameterCount(group[1..]);
      assert forall m | m in group :: m == group[0] || m in group[1..];
      if |group[0].parameters| >= rest then |group[0].parameters| else rest
  }

  /** Member `k` has strictly more parameters than every other member of the group. */
  ghost predicate IsSingleLongestAt(group: seq<MethodSymbol>, k: int)
  {
    0 <= k < |group| && forall j :: 0 <= j < |group| && j != k ==> |group[j].parameters| < |group[k].parameters|
  }

  function HasParameterCount(n: nat): MethodSymbol -> bool
  {
    (m: MethodSymbol) => |m.parameters| == n
  }

  /** The members holding the maximum parameter count: the first group after ordering by count, descending. */
  function WithHighestParameterCount(group: seq<MethodSymbol>): seq<MethodSymbol>
    requires |group| > 0
  {
    Filter(HasParameterCount(MaxParameterCount(group)), group)
  }

  lemma SingleLongestIsOnlyMaximum(group: seq<MethodSymbol>, k: int)
    requires |group| > 0
    ensures IsSingleLongestAt(group, k) ==> WithHighestParameterCount(group) == [group[k]]
  {
    if IsSingleLongestAt(group, k) {
      var max := MaxParameterCount(group);
      var k0 :| 0 <= k0 < |group| && |group[k0].parameters| == max;
      assert group[k] in group;
      assert |group[k].parameters| <= max;
      assert |group[k].parameters| >= |group[k0].parameters|;
      assert OnlyAt(HasParameterCount(max), group, k);
      FilterOnlyAt(HasParameterCount(max), group, k);
    }
  }

  /** The maximum is held by at least one member, and by exactly one iff there is a single longest member. */
  lemma {:induction false} HighestParameterCountShape(group: seq<MethodSymbol>)
    requires |group| > 0
    ensures |WithHighestParameterCount(group)| >= 1
    ensures |WithHighestParameterCount(group)| == 1 <==> exists k :: IsSingleLongestAt(group, k)
    ensures |WithHighestParameterCount(group)| == 1 ==>
      exists k :: IsSingleLongestAt(group, k) && group[k] == WithHighestParameterCount(group)[0]
  {
    var max := MaxParameterCount(group);
    var p := HasParameterCount(max);
    var k0 :| 0 <= k0 < |group| && |group[k0].parameters| == max;
    assert group[k0] in WithHighestParameterCount(group);
    forall k ensures IsSingleLongestAt(group, k) ==> WithHighestParameterCount(group) == [group[k]] {
      SingleLongestIsOnlyMaximum(group, k);
    }
    if |WithHighestParameterCount(group)| == 1 {
      FilterSingleton(p, group);
      var k :| OnlyAt(p, group, k);
      FilterOnlyAt(p, group, k);
      forall j | 0 <= j < |group| && j != k ensures |group[j].parameters| < |group[k].parameters| {
        assert group[j] in group;
      }
      assert IsSingleLongestAt(group, k);
    }
  }

  /** The unique member with the most parameters, or `None` when the maximum is shared. */
  function TryGetSingleLongestOverload(group: seq<MethodSymbol>): (longest: Option<MethodSymbol>)
    requires |group| > 0
    ensures longest.Some? <==> exists k :: IsSingleLongestAt(group, k)
    ensures longest.Some? ==> exists k :: IsSingleLongestAt(group, k) && group[k] == longest.value
  {
    var overloadsWithHighestParameterCount := WithHighestParameterCount(group);
    HighestParameterCountShape(group);
    if HasAtLeastTwoItems(overloadsWithHighestParameterCount) then None
    else Some(overloadsWithHighestParameterCount[0])
  }

  /** The seven conditions under which the longest overload could be made virtual. */
  predicate CanBeMadeVirtual(m: MethodSymbol, containingType: NamedType)
  {
    && !m.isStatic
    && m.accessibility != Private
    && !containingType.isSealed
    && containingType.kind != Struct
    && !m.isVirtual
    && !m.isOverride
    && |m.explicitInterfaceImplementations| == 0
  }

  /** The parameter-order diagnostic on `overload` (not placed on its partial implementation part). */
  function OrderMismatchDiagnostic(overload: MethodSymbol, longest: MethodSymbol): (d: Option<Diagnostic>)
  {
    if !OrderConsistent(overload.parameters, longest.parameters) && !overload.isSynthesized
    then Some(Diagnostic(OrderRule, overload.location, [TextArg(overload.display)]))
    else None
  }

  method CompareOrderOfParameters(overload: MethodSymbol, longest: MethodSymbol) returns (d: Option<Diagnostic>)
    ensures d.Some? <==> !OrderConsistent(overload.parameters, longest.parameters) && !overload.isSynthesized
    ensures d.Some? ==> d.value == Diagnostic(OrderRule, overload.location, [TextArg(overload.display)])
    ensures d == OrderMismatchDiagnostic(overload, longest)
  {
    var inOrder := AreParametersDeclaredInSameOrder(overload, longest.parameters);
    if !inOrder && !overload.isSynthesized {
      d := Some(Diagnostic(OrderRule, overload.location, [TextArg(overload.display)]));
    } else {
      d := None;
    }
  }

  /** An override, interface implementation or base-hiding member cannot choose its parameter order. */
  predicate SignatureDictatedElsewhere(m: MethodSymbol)
  {
    m.isOverride || m.isInterfaceImplementation || m.hidesBaseMember
  }

  /** Every member of the group except `overload`. */
  function OtherOverloads(group: seq<MethodSymbol>, overload: MethodSymbol): seq<MethodSymbol>
  {
    Filter((m: MethodSymbol) => m.id != overload.id, group)
  }

  predicate CallsAnyOf(m: MethodSymbol, targets: seq<MethodSymbol>)
  {
    m.operationBlock.Some? && ContainsCallTo(m.operationBlock.value, targets)
  }

  function AsSeq<T>(o: Option<T>): seq<T>
  {
    if o.Some? then [o.value] else []
  }

  /** The order diagnostic, if any, that checking `overload` against the longest overload reports. */
  function OrderDiagnostics(longest: MethodSymbol, overload: MethodSymbol): (ds: seq<Diagnostic>)
    ensures |ds| <= 1
    ensures ds != [] <==>
      && !SignatureDictatedElsewhere(overload)
      && !overload.isSynthesized
      && !OrderConsistent(overload.parameters, longest.parameters)
    ensures forall d | d in ds :: d.rule == OrderRule && d.location == overload.location
  {
    if SignatureDictatedElsewhere(overload) then [] else AsSeq(OrderMismatchDiagnostic(overload, longest))
  }

  /** The invoke diagnostic, if any, that checking whether `overload` calls another member of the group reports. */
  function InvokeDiagnostics(group: seq<MethodSymbol>, overload: MethodSymbol): (ds: seq<Diagnostic>)
    ensures |ds| <= 1
    ensures ds != [] <==> !CallsAnyOf(overload, OtherOverloads(group, overload))
    ensures forall d | d in ds :: d.rule == InvokeRule && d.location == ReportSiteOf(overload).location
  {
    var site := ReportSiteOf(overload);
    if CallsAnyOf(overload, OtherOverloads(group, overload)) then []
    else [Diagnostic(InvokeRule, site.location, [TextArg(site.display)])]
  }

  /** What checking one overload against the longest overload reports, in order. */
  function OverloadDiagnostics(group: seq<MethodSymbol>, longest: MethodSymbol, overload: MethodSymbol)
    : (ds: seq<Diagnostic>)
    ensures overload.id == longest.id ==> ds == []
    ensures |ds| <= 2
    ensures (exists d | d in ds :: d.rule == OrderRule) <==>
      && overload.id != longest.id
      && !SignatureDictatedElsewhere(overload)
      && !overload.isSynthesized
      && !OrderConsistent(overload.parameters, longest.parameters)
    ensures (exists d | d in ds :: d.rule == InvokeRule) <==>
      overload.id != longest.id && !CallsAnyOf(overload, OtherOverloads(group, overload))
    ensures forall d | d in ds ::
      || (d.rule == OrderRule && d.location == overload.location)
      || (d.rule == InvokeRule && d.location == ReportSiteOf(overload).location)
  {
    if overload.id == longest.id then []
    else
      var order := OrderDiagnostics(longest, overload);
      var invoke := InvokeDiagnostics(group, overload);
      assert order != [] ==> order[0] in order + invoke;
      assert invoke != [] ==> invoke[0] in order + invoke;
      order + invoke
  }

  /** What checking the overloads in `overloads` (a prefix of the group) reports, in order. */
  function OverloadsDiagnostics(group: seq<MethodSymbol>, longest: MethodSymbol, overloads: seq<MethodSymbol>)
    : seq<Diagnostic>
  {
    if overloads == [] then []
    else OverloadsDiagnostics(group, longest, overloads[..|overloads| - 1])
         + OverloadDiagnostics(group, longest, overloads[|overloads| - 1])
  }

  /** Checks one overload of the group against the longest overload. */
  method AnalyzeOverload(group: seq<MethodSymbol>, longest: MethodSymbol, overload: MethodSymbol)
    returns (ds: seq<Diagnostic>)
    ensures ds == OverloadDiagnostics(group, longest, overload)
  {
    ds := [];
    if overload.id != longest.id {
      if !SignatureDictatedElsewhere(overload) {
        var order := CompareOrderOfParameters(overload, longest);
        ds := ds + AsSeq(order);
      }
      var otherOverloads := OtherOverloads(group, overload);
      var found := HasInvocationToAnyOf(otherOverloads, overload);
      if !found {
        var site := ReportSiteOf(overload);
        ds := ds + [Diagnostic(InvokeRule, site.location, [TextArg(site.display)])];
      }
    }
  }

  method AnalyzeOverloads(group: seq<MethodSymbol>, longest: MethodSymbol) returns (ds: seq<Diagnostic>)
    ensures ds == OverloadsDiagnostics(group, longest, group)
  {
    ds := [];
    for i := 0 to |group|
      invariant ds == OverloadsDiagnostics(group, longest, group[..i])
    {
      assert group[..i + 1][..i] == group[..i];
      var overloadDiagnostics := AnalyzeOverload(group, longest, group[i]);
      ds := ds + overloadDiagnostics;
    }
    assert group[..|group|] == group;
  }

  /** What analysing one method group reports, in order. */
  function GroupDiagnostics(t: NamedType, group: seq<MethodSymbol>): seq<Diagnostic>
    requires |group| > 0
  {
    var longest := TryGetSingleLongestOverload(group);
    if longest.None? then []
    else
      var l := longest.value;
      (if CanBeMadeVirtual(l, t) then [Diagnostic(MakeVirtualRule, ReportSiteOf(l).location, [])] else [])
      + OverloadsDiagnostics(group, l, group)
  }

  method AnalyzeMethodGroup(t: NamedType, group: seq<MethodSymbol>) returns (ds: seq<Diagnostic>)
    requires |group| > 0
    ensures ds == GroupDiagnostics(t, group)
    ensures (exists k :: IsSingleLongestAt(group, k)) || ds == []
  {
    ds := [];
    var longest := TryGetSingleLongestOverload(group);
    if longest.Some? {
      if CanBeMadeVirtual(longest.value, t) {
        ds := [Diagnostic(MakeVirtualRule, ReportSiteOf(longest.value).location, [])];
      }
      var rest := AnalyzeOverloads(group, longest.value);
      ds := ds + rest;
    }
  }

  /** What analysing the groups in `groups` reports, in order. */
  predicate NonEmptyGroups(groups: seq<seq<MethodSymbol>>)
  {
    forall g | g in groups :: |g| > 0
  }

  function GroupsDiagnostics(t: NamedType, groups: seq<seq<MethodSymbol>>): seq<Diagnostic>
    requires NonEmptyGroups(groups)
  {
    if groups == [] then []
    else GroupsDiagnostics(t, groups[..|groups| - 1]) + GroupDiagnostics(t, groups[|groups| - 1])
  }

  /** One more group of `groups` extends the diagnostics of the groups before it. */
  lemma GroupsDiagnosticsStep(t: NamedType, groups: seq<seq<MethodSymbol>>, i: nat)
    requires NonEmptyGroups(groups) && i < |groups|
    ensures NonEmptyGroups(groups[..i]) && NonEmptyGroups(groups[..i + 1]) && |groups[i]| > 0
    ensures GroupsDiagnostics(t, groups[..i + 1]) == GroupsDiagnostics(t, groups[..i]) + GroupDiagnostics(t, groups[i])
  {
    assert groups[i] in groups;
    assert groups[..i + 1][..i] == groups[..i];
  }

  /** What the rule reports for a type: nothing unless it is a class or a struct. */
  function TypeDiagnostics(t: NamedType): seq<Diagnostic>
  {
    if t.kind != Class && t.kind != Struct then [] else GroupsDiagnostics(t, MethodGroups(t))
  }

  lemma MethodGroupsAreNonEmpty(t: NamedType)
    ensures NonEmptyGroups(MethodGroups(t))
  {
    var groups := MethodGroups(t);
    forall g | g in groups ensures |g| > 0 {
      assert IsMethodGroupOf(t, g);
    }
  }

  /** Analyses the groups one after the other, collecting what each reports. */
  method AnalyzeMethodGroups(t: NamedType, groups: seq<seq<MethodSymbol>>) returns (ds: seq<Diagnostic>)
    requires NonEmptyGroups(groups)
    ensures ds == GroupsDiagnostics(t, groups)
  {
    ds := [];
    var i := 0;
    assert groups[..0] == [];
    while i < |groups|
      invariant 0 <= i <= |groups|
      invariant NonEmptyGroups(groups[..i])
      invariant ds == GroupsDiagnostics(t, groups[..i])
    {
      var methodGroup := groups[i];
      GroupsDiagnosticsStep(t, groups, i);
      var groupDiagnostics := AnalyzeMethodGroup(t, methodGroup);
      ds := ds + groupDiagnostics;
      i := i + 1;
    }
    assert groups[..i] == groups;
  }

  method AnalyzeNamedType(t: NamedType) returns (ds: seq<Diagnostic>)
    ensures ds == TypeDiagnostics(t)
    ensures t.kind != Class && t.kind != Struct ==> ds == []
  {
    if t.kind != Class && t.kind != Struct {
      return [];
    }
    var methodGroups := MethodGroups(t);
    MethodGroupsAreNonEmpty(t);
    ds := AnalyzeMethodGroups(t, methodGroups);
  }

  /** Checking the overloads never reports "make virtual". */
  lemma {:induction false} OverloadsNeverMakeVirtual(group: seq<MethodSymbol>, longest: MethodSymbol,
                                                     overloads: seq<MethodSymbol>)
    ensures forall d | d in OverloadsDiagnostics(group, longest, overloads) :: d.rule != MakeVirtualRule
  {
    if overloads != [] {
      OverloadsNeverMakeVirtual(group, longest, overloads[..|overloads| - 1]);
    }
  }

  /**
   * A group reports "make virtual" at most once, as its first diagnostic, and
   * exactly when it has a single longest overload that could be made virtual.
   */
  lemma MakeVirtualOnceIff(t: NamedType, group: seq<MethodSymbol>)
    requires |group| > 0
    ensures var ds := GroupDiagnostics(t, group);
      && (forall i :: 0 < i < |ds| ==> ds[i].rule != MakeVirtualRule)
      && ((|ds| > 0 && ds[0].rule == MakeVirtualRule) <==>
          && TryGetSingleLongestOverload(group).Some?
          && CanBeMadeVirtual(TryGetSingleLongestOverload(group).value, t))
  {
    var longest := TryGetSingleLongestOverload(group);
    if longest.Some? {
      var rest := OverloadsDiagnostics(group, longest.value, group);
      OverloadsNeverMakeVirtual(group, longest.value, group);
      var ds := GroupDiagnostics(t, group);
      forall i | 0 <= i < |rest| ensures rest[i].rule != MakeVirtualRule {
        assert rest[i] in rest;
      }
      if CanBeMadeVirtual(longest.value, t) {
        assert ds[1..] == rest;
      } else {
        assert ds == rest;
      }
    }
  }

  lemma {:induction false} NoMakeVirtualInGroups(t: NamedType, groups: seq<seq<MethodSymbol>>)
    requires NonEmptyGroups(groups)
    requires t.isSealed || t.kind == Struct
    ensures forall d | d in GroupsDiagnostics(t, groups) :: d.rule != MakeVirtualRule
  {
    if groups != [] {
      var init := groups[..|groups| - 1];
      var last := groups[|groups| - 1];
      assert last in groups;
      NoMakeVirtualInGroups(t, init);
      var longest := TryGetSingleLongestOverload(last);
      if longest.Some? {
        OverloadsNeverMakeVirtual(last, longest.value, last);
      }
    }
  }

  /** A sealed type or a struct never gets the "make virtual" diagnostic. */
  lemma SealedOrStructNeverMakeVirtual(t: NamedType)
    requires t.isSealed || t.kind == Struct
    ensures forall d | d in TypeDiagnostics(t) :: d.rule != MakeVirtualRule
  {
    if t.kind == Class || t.kind == Struct {
      MethodGroupsAreNonEmpty(t);
      NoMakeVirtualInGroups(t, MethodGroups(t));
    }
  }

  /** A tie at the maximum parameter count silences the whole group. */
  lemma TiedMaximumSkipsGroup(t: NamedType, group: seq<MethodSymbol>, i: int, j: int)
    requires 0 <= i < |group| && 0 <= j < |group| && i != j
    requires |group[i].parameters| == |group[j].parameters| == MaxParameterCount(group)
    ensures GroupDiagnostics(t, group) == []
  {
    forall k | 0 <= k < |group| ensures !IsSingleLongestAt(group, k) {
      var other := if k == i then j else i;
      assert group[k] in group;
      assert other != k && |group[other].parameters| >= |group[k].parameters|;
    }
  }

  /** Every order and invoke diagnostic of a group is placed on one of its overloads other than the longest. */
  lemma {:induction false} OnlyOtherOverloadsReported(group: seq<MethodSymbol>, longest: MethodSymbol,
                                                      overloads: seq<MethodSymbol>)
    ensures forall d | d in OverloadsDiagnostics(group, longest, overloads) ::
      exists m | m in overloads :: m.id != longest.id &&
        (d.location == m.location || d.location == ReportSiteOf(m).location)
  {
    if overloads != [] {
      var init := overloads[..|overloads| - 1];
      var last := overloads[|overloads| - 1];
      OnlyOtherOverloadsReported(group, longest, init);
      forall d | d in OverloadsDiagnostics(group, longest, overloads)
        ensures exists m | m in overloads ::
          m.id != longest.id && (d.location == m.location || d.location == ReportSiteOf(m).location)
      {
        if d in OverloadsDiagnostics(group, longest, init) {
          var m :| m in init && m.id != longest.id &&
            (d.location == m.location || d.location == ReportSiteOf(m).location);
          assert m in overloads;
        } else {
          assert d in OverloadDiagnostics(group, longest, last);
          assert last in overloads;
        }
      }
    }
  }
}
