/**
 * The parameter-order check of AV1551: an overload's parameters must sit at
 * the same positions as the same-named parameters of the longest overload.
 * The check runs twice, once over the parameters with neither a default
 * value nor `params`, and once over the parameters with a default value;
 * `params` parameters take part in neither pass.
 */
module ParameterOrder {
  import opened Common
  import opened MethodSymbols

  /** The index of the first parameter named `name`, or -1 (`List.FindIndex`). */
  function FindIndex(parameters: seq<Parameter>, name: string): (r: int)
    ensures -1 <= r < |parameters|
    ensures r == -1 <==> forall k :: 0 <= k < |parameters| ==> parameters[k].name != name
    ensures r >= 0 ==> parameters[r].name == name && forall k :: 0 <= k < r ==> parameters[k].name != name
  {
    if parameters == [] then -1
    else if parameters[0].name == name then 0
    else
      var i := FindIndex(parameters[1..], name);
      if i == -1 then -1 else i + 1
  }

  /** Parameter `i` is in place: its name is absent from the longest list, or first found at index `i`. */
  predicate InPlace(parameters: seq<Parameter>, longest: seq<Parameter>, i: int)
    requires 0 <= i < |parameters|
  {
    var j := FindIndex(longest, parameters[i].name);
    j == -1 || j == i
  }

  predicate InSameOrder(parameters: seq<Parameter>, longest: seq<Parameter>)
  {
    forall i :: 0 <= i < |parameters| ==> InPlace(parameters, longest, i)
  }

  /** Parameter `i` is out of place iff its name first occurs in the longest list at another index. */
  lemma OutOfPlace(parameters: seq<Parameter>, longest: seq<Parameter>, i: int)
    requires 0 <= i < |parameters|
    ensures !InPlace(parameters, longest, i) <==>
      exists j :: 0 <= j < |longest| && j != i && longest[j].name == parameters[i].name &&
        forall k :: 0 <= k < j ==> longest[k].name != parameters[i].name
  {
    var f := FindIndex(longest, parameters[i].name);
    if f != -1 && f != i {
      assert longest[f].name == parameters[i].name;
    }
  }

  /**
   * One pass of the check: false exactly when some parameter's name is first
   * found in the longest list at a different index.
   */
  method ParameterListsInSameOrder(parameters: seq<Parameter>, longest: seq<Parameter>) returns (inOrder: bool)
    ensures inOrder == InSameOrder(parameters, longest)
    ensures !inOrder <==>
      exists i, j :: 0 <= i < |parameters| && 0 <= j < |longest| && j != i &&
        longest[j].name == parameters[i].name &&
        forall k :: 0 <= k < j ==> longest[k].name != parameters[i].name
    ensures parameters == [] ==> inOrder
  {
    for parameterIndex := 0 to |parameters|
      invariant forall i :: 0 <= i < parameterIndex ==> InPlace(parameters, longest, i)
    {
      var indexInLongestOverload := FindIndex(longest, parameters[parameterIndex].name);
      if indexInLongestOverload != -1 && indexInLongestOverload != parameterIndex {
        OutOfPlace(parameters, longest, parameterIndex);
        return false;
      }
    }
    forall i | 0 <= i < |parameters| {
      OutOfPlace(parameters, longest, i);
    }
    return true;
  }

  predicate IsRegularParameter(p: Parameter)
  {
    !p.hasExplicitDefaultValue && !p.isParams
  }

  predicate IsParameterWithDefaultValue(p: Parameter)
  {
    p.hasExplicitDefaultValue && !p.isParams
  }

  /** Both passes succeed: first over the regular parameters, then over the defaulted ones. */
  predicate OrderConsistent(parameters: seq<Parameter>, longest: seq<Parameter>)
  {
    && InSameOrder(Filter(IsRegularParameter, parameters), Filter(IsRegularParameter, longest))
    && InSameOrder(Filter(IsParameterWithDefaultValue, parameters), Filter(IsParameterWithDefaultValue, longest))
  }

  /** The two-pass check of `overload` against the longest overload's parameters. */
  method AreParametersDeclaredInSameOrder(overload: MethodSymbol, longestParameters: seq<Parameter>)
    returns (inOrder: bool)
    ensures inOrder == OrderConsistent(overload.parameters, longestParameters)
    ensures inOrder ==> InSameOrder(Filter(IsRegularParameter, overload.parameters),
                                    Filter(IsRegularParameter, longestParameters))
  {
    var regularParametersInMethod := Filter(IsRegularParameter, overload.parameters);
    var regularParametersInLongestOverload := Filter(IsRegularParameter, longestParameters);
    var regularInOrder := ParameterListsInSameOrder(regularParametersInMethod, regularParametersInLongestOverload);
    if regularInOrder {
      var defaultParametersInMethod := Filter(IsParameterWithDefaultValue, overload.parameters);
      var defaultParametersInLongestOverload := Filter(IsParameterWithDefaultValue, longestParameters);
      var defaultInOrder := ParameterListsInSameOrder(defaultParametersInMethod, defaultParametersInLongestOverload);
      if defaultInOrder {
        return true;
      }
    }
    return false;
  }

  /** Parameter names are unique within a list (as C# requires of a method). */
  predicate DistinctNames(parameters: seq<Parameter>)
  {
    forall i, j :: 0 <= i < j < |parameters| ==> parameters[i].name != parameters[j].name
  }

  /** With unique names in the longest list, "first found" is "found": the order check is positional matching. */
  lemma InSameOrderIffSamePositions(parameters: seq<Parameter>, longest: seq<Parameter>)
    requires DistinctNames(longest)
    ensures InSameOrder(parameters, longest) <==>
      forall i, j :: 0 <= i < |parameters| && 0 <= j < |longest| && longest[j].name == parameters[i].name ==> j == i
  {
    if InSameOrder(parameters, longest) {
      forall i, j | 0 <= i < |parameters| && 0 <= j < |longest| && longest[j].name == parameters[i].name
        ensures j == i
      {
        assert InPlace(parameters, longest, i);
        var f := FindIndex(longest, parameters[i].name);
        assert f != -1 && f <= j;
      }
    }
  }

  /** An overload whose parameters are a leading part of the longest overload's is in order. */
  lemma {:induction false} LeadingPartIsInOrder(parameters: seq<Parameter>, longest: seq<Parameter>)
    requires DistinctNames(longest)
    requires |parameters| <= |longest|
    requires forall i :: 0 <= i < |parameters| ==> parameters[i].name == longest[i].name
    ensures InSameOrder(parameters, longest)
  {
    forall i | 0 <= i < |parameters| ensures InPlace(parameters, longest, i) {
      var f := FindIndex(longest, parameters[i].name);
      assert f != -1;
      assert longest[f].name == longest[i].name;
      assert f == i;
    }
  }

  /**
   * The check is positional: leaving out a parameter in the middle shifts the
   * later ones, so `f(a, c)` is out of order against `f(a, b, c)`, and so is
   * the reordered `f(z, x)` against `f(x, y, z)`.
   */
  lemma PositionalMismatches()
    ensures !InSameOrder([Parameter("a", false, false), Parameter("c", false, false)],
                         [Parameter("a", false, false), Parameter("b", false, false), Parameter("c", false, false)])
    ensures !InSameOrder([Parameter("z", false, false), Parameter("x", false, false)],
                         [Parameter("x", false, false), Parameter("y", false, false), Parameter("z", false, false)])
  {
    var abc := [Parameter("a", false, false), Parameter("b", false, false), Parameter("c", false, false)];
    assert FindIndex(abc, "c") == 2 by {
      assert abc[1..][1..][0].name == "c";
    }
    assert !InPlace([Parameter("a", false, false), Parameter("c", false, false)], abc, 1);
    var xyz := [Parameter("x", false, false), Parameter("y", false, false), Parameter("z", false, false)];
    assert FindIndex(xyz, "z") == 2 by {
      assert xyz[1..][1..][0].name == "z";
    }
    assert !InPlace([Parameter("z", false, false), Parameter("x", false, false)], xyz, 0);
  }

  /** A trailing `params` parameter takes part in neither pass. */
  lemma ParamsParameterIgnored(parameters: seq<Parameter>, longest: seq<Parameter>, extra: Parameter)
    requires extra.isParams
    ensures OrderConsistent(parameters + [extra], longest) == OrderConsistent(parameters, longest)
    ensures OrderConsistent(parameters, longest + [extra]) == OrderConsistent(parameters, longest)
  {
    FilterAppend(IsRegularParameter, parameters, [extra]);
    FilterAppend(IsParameterWithDefaultValue, parameters, [extra]);
    FilterAppend(IsRegularParameter, longest, [extra]);
    FilterAppend(IsParameterWithDefaultValue, longest, [extra]);
    assert Filter(IsRegularParameter, [extra]) == [];
    assert Filter(IsParameterWithDefaultValue, [extra]) == [];
    assert parameters + [extra] == parameters + [extra];
    assert Filter(IsRegularParameter, parameters) + [] == Filter(IsRegularParameter, parameters);
    assert Filter(IsParameterWithDefaultValue, parameters) + [] == Filter(IsParameterWithDefaultValue, parameters);
    assert Filter(IsRegularParameter, longest) + [] == Filter(IsRegularParameter, longest);
    assert Filter(IsParameterWithDefaultValue, longest) + [] == Filter(IsParameterWithDefaultValue, longest);
  }
}
