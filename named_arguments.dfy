/**
 * AV1555: avoid named arguments, except for `bool` and `bool?` parameters.
 *
 * Every argument of a call is analysed on its own. Only an argument written
 * with a name is reported, and only when the parameter it binds to is of
 * neither type `bool` nor `bool?`.
 */
module NamedArguments {
  import opened Common

  /** How an argument was supplied. */
  datatype ArgumentKind = Positional | Named | ParamArray | DefaultValue

  /** The special type of a type symbol, reduced to what the rule tells apart. */
  datatype SpecialType = SystemBoolean | NoSpecialType | OtherSpecialType

  datatype TypeSymbol = TypeSymbol(
    specialType: SpecialType,
    /** whether the type is `Nullable<bool>` */
    isNullableBoolean: bool)

  datatype ParameterSymbol = ParameterSymbol(
    name: string,
    parameterType: TypeSymbol,
    /** the containing method or property, in the short error-message display format */
    containingSymbolDisplay: string)

  datatype Argument = Argument(kind: ArgumentKind, parameter: ParameterSymbol, location: Location)

  /** A `bool` or `bool?` parameter, for which naming the argument is encouraged. */
  predicate IsBooleanParameter(p: ParameterSymbol)
  {
    p.parameterType.specialType == SystemBoolean || p.parameterType.isNullableBoolean
  }

  /** The diagnostic AV1555 places on argument `a`. */
  function NamedArgumentDiagnostic(a: Argument): Diagnostic
  {
    Diagnostic(NamedArgumentRule, a.location, [TextArg(a.parameter.name), TextArg(a.parameter.containingSymbolDisplay)])
  }

  function AnalyzeArgument(a: Argument): (d: Option<Diagnostic>)
    ensures d.Some? ==> a.kind == Named && !IsBooleanParameter(a.parameter)
    ensures d.Some? ==> d.value.rule == NamedArgumentRule && d.value.location == a.location
    ensures d.Some? ==> d.value.args == [TextArg(a.parameter.name), TextArg(a.parameter.containingSymbolDisplay)]
  {
    if a.kind == Named then
      if a.parameter.parameterType.specialType != SystemBoolean && !a.parameter.parameterType.isNullableBoolean
      then Some(NamedArgumentDiagnostic(a))
      else None
    else None
  }

  /** An argument is reported exactly when it is named and its parameter is neither `bool` nor `bool?`. */
  lemma ReportedIff(a: Argument)
    ensures AnalyzeArgument(a).Some? <==>
      a.kind == Named && a.parameter.parameterType.specialType != SystemBoolean &&
      !a.parameter.parameterType.isNullableBoolean
  {
  }

  /** Positional, `params` and defaulted arguments are never reported. */
  lemma UnnamedNeverReported(a: Argument)
    requires a.kind != Named
    ensures AnalyzeArgument(a) == None
  {
  }

  /**
   * Naming an argument changes the outcome only for non-boolean parameters:
   * writing the same argument positionally never reports, writing it by name
   * reports iff the parameter is not `bool` or `bool?`.
   */
  lemma NamingMattersOnlyForNonBoolean(a: Argument)
    ensures AnalyzeArgument(a.(kind := Positional)) == None
    ensures AnalyzeArgument(a.(kind := Named)).Some? <==> !IsBooleanParameter(a.parameter)
  {
  }

  predicate IsReportedArgument(a: Argument)
  {
    a.kind == Named && !IsBooleanParameter(a.parameter)
  }

  /**
   * What the rule reports for the arguments of one call: one diagnostic for
   * each named non-boolean argument, in argument order.
   */
  function ArgumentsDiagnostics(args: seq<Argument>): (ds: seq<Diagnostic>)
    ensures |ds| == |Filter(IsReportedArgument, args)|
    ensures forall k :: 0 <= k < |ds| ==> ds[k] == NamedArgumentDiagnostic(Filter(IsReportedArgument, args)[k])
  {
    if args == [] then []
    else
      var rest := ArgumentsDiagnostics(args[1..]);
      var reported := Filter(IsReportedArgument, args);
      assert reported == (if IsReportedArgument(args[0]) then [args[0]] else []) + Filter(IsReportedArgument, args[1..]);
      (if AnalyzeArgument(args[0]).Some? then [AnalyzeArgument(args[0]).value] else []) + rest
  }
}
