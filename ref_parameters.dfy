/**
 * CSS1562: do not declare a parameter as `ref`.
 *
 * A parameter is reported when it has a name, is passed by `ref`, belongs to
 * a member that is not a deconstructor, is not synthesized, and its signature
 * is its own: the containing member neither overrides nor hides a base
 * member, and the parameter does not implement an interface member's
 * parameter. Only `ref` is reported; `out` and `in` parameters are not.
 */
module RefParameters {
  import opened Common

  /** How a parameter is passed. */
  datatype RefKind = NoRefKind | Ref | Out | In

  /** The member a parameter belongs to, as far as the rule looks at it. */
  datatype ContainingMember = ContainingMember(isDeconstructor: bool, isOverride: bool, hidesBaseMember: bool)

  datatype ParameterSymbol = ParameterSymbol(
    name: string,
    refKind: RefKind,
    isSynthesized: bool,
    /** whether the parameter belongs to an implementation of an interface member */
    isInterfaceImplementation: bool,
    /** the first of the parameter's locations */
    location: Location,
    containingMember: ContainingMember)

  predicate IsRefParameter(p: ParameterSymbol)
  {
    p.refKind == Ref
  }

  /** The parameter list is dictated by a base type or an interface. */
  predicate SignatureDictatedElsewhere(p: ParameterSymbol)
  {
    p.containingMember.isOverride || p.containingMember.hidesBaseMember || p.isInterfaceImplementation
  }

  /** The diagnostic CSS1562 places on `p`. */
  function RefParameterDiagnostic(p: ParameterSymbol): Diagnostic
  {
    Diagnostic(RefParameterRule, p.location, [TextArg(p.name)])
  }

  /** The last guard: report a `ref` parameter unless its signature is dictated elsewhere. */
  function AnalyzeRefParameter(p: ParameterSymbol): (d: Option<Diagnostic>)
    ensures d.Some? <==> !SignatureDictatedElsewhere(p)
    ensures d.Some? ==> d.value.rule == RefParameterRule && d.value.location == p.location
    ensures d.Some? ==> d.value.args == [TextArg(p.name)]
  {
    if !p.containingMember.isOverride && !p.containingMember.hidesBaseMember && !p.isInterfaceImplementation
    then Some(RefParameterDiagnostic(p))
    else None
  }

  /**
   * The whole decision for one parameter: parameters without a name are
   * skipped, then those of deconstructors and synthesized ones, then those
   * not passed by `ref`.
   */
  function AnalyzeParameter(p: ParameterSymbol): (d: Option<Diagnostic>)
    ensures d.Some? ==> p.name != "" && IsRefParameter(p)
    ensures d.Some? ==> !p.containingMember.isDeconstructor && !p.isSynthesized
    ensures d.Some? ==> d.value == RefParameterDiagnostic(p)
  {
    if p.name == "" then None
    else if p.containingMember.isDeconstructor || p.isSynthesized then None
    else if !IsRefParameter(p) then None
    else AnalyzeRefParameter(p)
  }

  /** A parameter is reported exactly when it is a named, declared `ref` parameter with a signature of its own. */
  lemma ReportedIff(p: ParameterSymbol)
    ensures AnalyzeParameter(p).Some? <==>
      && p.name != ""
      && p.refKind == Ref
      && !p.containingMember.isDeconstructor
      && !p.isSynthesized
      && !p.containingMember.isOverride
      && !p.containingMember.hidesBaseMember
      && !p.isInterfaceImplementation
  {
  }

  /** `out`, `in` and by-value parameters are never reported, whatever else holds. */
  lemma OnlyRefIsReported(p: ParameterSymbol)
    requires p.refKind != Ref
    ensures AnalyzeParameter(p) == None
  {
  }

  /**
   * Turning a reported `ref` parameter into an `out`, `in` or by-value
   * parameter silences the rule, and nothing but the ref kind decides that.
   */
  lemma ChangingRefKindSilences(p: ParameterSymbol, kind: RefKind)
    requires AnalyzeParameter(p).Some?
    ensures AnalyzeParameter(p.(refKind := kind)).Some? <==> kind == Ref
  {
  }

  /**
   * The exemptions for overrides, base-hiding members and interface
   * implementations each silence an otherwise reported parameter.
   */
  lemma DictatedSignatureSilences(p: ParameterSymbol)
    requires AnalyzeParameter(p).Some?
    ensures AnalyzeParameter(p.(containingMember := p.containingMember.(isOverride := true))) == None
    ensures AnalyzeParameter(p.(containingMember := p.containingMember.(hidesBaseMember := true))) == None
    ensures AnalyzeParameter(p.(isInterfaceImplementation := true)) == None
  {
  }

  predicate IsReportedParameter(p: ParameterSymbol)
  {
    AnalyzeParameter(p).Some?
  }

  /**
   * What the rule reports for a list of parameters: the diagnostics of the
   * reported parameters, one each, in parameter order.
   */
  function ParametersDiagnostics(ps: seq<ParameterSymbol>): (ds: seq<Diagnostic>)
    ensures |ds| == |Filter(IsReportedParameter, ps)|
    ensures forall k :: 0 <= k < |ds| ==> ds[k] == RefParameterDiagnostic(Filter(IsReportedParameter, ps)[k])
  {
    if ps == [] then []
    else
      var rest := ParametersDiagnostics(ps[1..]);
      var reported := Filter(IsReportedParameter, ps);
      assert reported == (if IsReportedParameter(ps[0]) then [ps[0]] else []) + Filter(IsReportedParameter, ps[1..]);
      (if AnalyzeParameter(ps[0]).Some? then [AnalyzeParameter(ps[0]).value] else []) + rest
  }

  /**
   * In a member whose signature is its own and that is neither a deconstructor
   * nor synthesized, there is one diagnostic per named `ref` parameter.
   */
  lemma {:induction false} OneDiagnosticPerRefParameter(ps: seq<ParameterSymbol>)
    requires forall p | p in ps :: p.name != "" && !p.isSynthesized && !p.containingMember.isDeconstructor
    requires forall p | p in ps :: !SignatureDictatedElsewhere(p)
    ensures |ParametersDiagnostics(ps)| == |Filter(IsRefParameter, ps)|
  {
    if ps != [] {
      assert forall p | p in ps[1..] :: p in ps;
      OneDiagnosticPerRefParameter(ps[1..]);
      assert IsReportedParameter(ps[0]) == IsRefParameter(ps[0]);
    }
  }
}
