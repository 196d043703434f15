/**
 * The symbol model that the overload rule reads: named types, their methods
 * and the methods' parameters. Relationships the compiler resolves (whether a
 * method hides a base member or implements an interface member, whether it
 * has body syntax, its operation block) are supplied as fields.
 */
module MethodSymbols {
  import opened Common
  import opened Operations

  datatype TypeKind = Class | Struct | Interface | Enum | Delegate | OtherTypeKind

  datatype Accessibility =
    | NotApplicable | Private | ProtectedAndInternal | Protected | Internal | ProtectedOrInternal | Public

  datatype MethodKind =
    | Ordinary
    | Constructor
    | StaticConstructor
    | Destructor
    | ExplicitInterfaceImplementation
    | PropertyAccessor
    | EventAccessor
    | UserDefinedOperator
    | Conversion
    | LocalFunction
    | OtherMethodKind

  datatype Parameter = Parameter(name: string, hasExplicitDefaultValue: bool, isParams: bool)

  /** Where a diagnostic about a method is placed, and how the method is displayed. */
  datatype ReportSite = ReportSite(location: Location, display: string)

  datatype MethodSymbol = MethodSymbol(
    id: SymbolId,
    name: string,
    kind: MethodKind,
    parameters: seq<Parameter>,
    isStatic: bool,
    accessibility: Accessibility,
    isVirtual: bool,
    isOverride: bool,
    isSynthesized: bool,
    hidesBaseMember: bool,
    isInterfaceImplementation: bool,
    /** original definitions of the interface methods this method implements explicitly */
    explicitInterfaceImplementations: seq<SymbolId>,
    /** whether body syntax could be found for the method */
    hasBodySyntax: bool,
    /** the method's operation block, when the front end can produce one */
    operationBlock: Option<Operation>,
    /** the first of the method's locations */
    location: Location,
    display: string,
    /** the implementing declaration of a partial method */
    partialImplementationPart: Option<ReportSite>)

  /** A declared type; `members` are its method members, in declaration order. */
  datatype NamedType = NamedType(kind: TypeKind, isSealed: bool, members: seq<MethodSymbol>)

  /** The method a diagnostic about `m` is placed on: its partial implementation part, if any. */
  function ReportSiteOf(m: MethodSymbol): ReportSite
  {
    if m.partialImplementationPart.Some? then m.partialImplementationPart.value
    else ReportSite(m.location, m.display)
  }
}
