# CaseAccessors macro — a Dafny model

The `@CaseAccessors` attached member macro takes an `enum` declaration and
generates one computed property per case element. A case without associated
values gets a `Bool` property that is true iff `self` is that case. A case
with associated values gets an optional property that reads the values. With
`@CaseAccessors(setters: true)` that property also gets a setter, which makes
`self` that case. The macro also reports diagnostics when it is misapplied.

This project models `CaseAccessorsMacro.expansion` and the
`CaseAccessorsDiagnostic` enum over a small in-memory syntax tree, and proves
properties of that model:

- `syntax_tree.dfy` (`SyntaxTree`): the attached declaration (`Enum` or
  `Other`), its members (`case` declarations or others), case elements,
  associated-value parameters (`firstName` label and type), types (`Plain`,
  `Optional`, `SomeOrAny`, `Tuple`) and the attribute's arguments.
- `diagnostics.dfy` (`Diagnostics`): severity, message, raw value and
  diagnostic identifier of each diagnostic.
- `macro_arguments.dfy` (`MacroArguments`): the argument loop, as a method
  proved against fold functions over the argument list.
- `decimal.dfy` (`Decimal`): the decimal rendering used in the synthetic
  binding names `_p<i>`, with its inverse.
- `accessor_derivation.dfy` (`AccessorDerivation`): case shape, declared
  type, binding names, rebuilt case call and the whole generated accessor
  (`GeneratedAccessor`: name, return type, getter kind, optional setter).
- `case_accessors_macro.dfy` (`CaseAccessorsMacro`): the expansion: enum
  guard, argument parsing, flattening of case elements, the no-cases guard,
  and one derived accessor per element.
- `generated_accessors.dfy` (`GeneratedAccessors`): what the generated getters
  and setters do at run time, over an abstract enum value (case tag plus
  associated values).
- `findings.dfy` (`Findings`): the `T?` short-cut that never fires.

Where the code and its own comments or declarations disagree, the model
follows the code:

- The comment at CaseAccessorsMacro.swift:71-72 promises the type `T?` for
  `case a(T?)`. The code gives `T??`; see "## Findings".
- The enum in `CaseAccessorsDiagnostic.swift` declares only `notAnEnum` and
  `noCases`, yet CaseAccessorsMacro.swift:33 reports `invalidArguments`. The
  model adds that case with an assumed severity `Error`. Its raw value
  `"invalidArguments"` follows Swift's default raw value for a `String` enum.
  Its message text is this model's own choice; no source states it.
- The argument loop visits every argument: the last accepted `setters:`
  wins, and each rejected argument reports one `invalidArguments`.

## Model

| member | source | states |
|---|---|---|
| `Diagnostics.Severity` | Sources/CaseAccessorsMacros/CaseAccessorsDiagnostic.swift:8-15 | only `noCases` is a warning; `notAnEnum` (and the assumed `invalidArguments`) are errors |
| `Diagnostics.Message` | Sources/CaseAccessorsMacros/CaseAccessorsDiagnostic.swift:17-24 | every message is a fixed string that starts with `'@CaseAccessors'` |
| `Diagnostics.DiagnosticID` | Sources/CaseAccessorsMacros/CaseAccessorsDiagnostic.swift:26-28 | the identifier's domain is `CaseAccessorMacros` and its id decodes back to the same diagnostic |
| `Diagnostics.RawValue` | Sources/CaseAccessorsMacros/CaseAccessorsDiagnostic.swift:4-6 | the `String` raw value of each case is its name, and it decodes back to that case |
| `Diagnostics.FromRawValueInverse` | Sources/CaseAccessorsMacros/CaseAccessorsDiagnostic.swift:4-6 | a string that decodes to a case is that case's raw value |
| `Diagnostics.DiagnosticIDsDistinct` | Sources/CaseAccessorsMacros/CaseAccessorsDiagnostic.swift:17-28 | distinct diagnostics have distinct identifiers and distinct messages |
| `MacroArguments.ParseArguments` | Sources/CaseAccessorsMacros/CaseAccessorsMacro.swift:23-37 | the loop leaves the flag at the fold over all arguments (`false` if there is no labelled list) and reports one `invalidArguments` per rejected argument |
| `MacroArguments.ArgumentSetting` | Sources/CaseAccessorsMacros/CaseAccessorsMacro.swift:26-29 | an argument is accepted only with the label `setters` and a Boolean literal, and then gives that literal's value; any other label or expression is rejected |
| `MacroArguments.RejectedArgumentStep` | Sources/CaseAccessorsMacros/CaseAccessorsMacro.swift:30-35 | a rejected argument adds one diagnostic and leaves the flag unchanged |
| `MacroArguments.LastValidArgumentWins` | Sources/CaseAccessorsMacros/CaseAccessorsMacro.swift:25-29 | the last `setters:` argument with a Boolean literal decides the flag |
| `MacroArguments.NoValidArgumentKeepsDefault` | Sources/CaseAccessorsMacros/CaseAccessorsMacro.swift:23-36 | with no accepted argument the flag stays `false` and every argument is reported |
| `Decimal.Digits` | Sources/CaseAccessorsMacros/CaseAccessorsMacro.swift:137 | the rendering of an index is a non-empty string of decimal digits |
| `Decimal.ValueOfDigits` | Sources/CaseAccessorsMacros/CaseAccessorsMacro.swift:137 | reading the rendered digits back gives the index |
| `Decimal.DigitsInjective` | Sources/CaseAccessorsMacros/CaseAccessorsMacro.swift:137 | distinct indices render differently |
| `AccessorDerivation.ShapeOf` | Sources/CaseAccessorsMacros/CaseAccessorsMacro.swift:52-69 | no parameter clause means no payload; the single-parameter path is taken iff there is exactly one parameter and it has no label; every other parameter clause is composite |
| `AccessorDerivation.LabelledOrEmptyIsComposite` | Sources/CaseAccessorsMacros/CaseAccessorsMacro.swift:66-69 | `case a()` and a single labelled parameter, `_` included, take the tuple path |
| `AccessorDerivation.ParameterNodeIsOptionalType` | Sources/CaseAccessorsMacros/CaseAccessorsMacro.swift:70 | the test on the parameter node is false for every parameter |
| `AccessorDerivation.SingleReturnType` | Sources/CaseAccessorsMacros/CaseAccessorsMacro.swift:70-85 | `any P`/`some P` gives `(any P)?`; every other type `T` gives `T?`, an optional type included (the short-cut at line 70 never fires) |
| `AccessorDerivation.HasRealLabel` | Sources/CaseAccessorsMacros/CaseAccessorsMacro.swift:123 | only a present label counts as a real label, and `_` never does |
| `AccessorDerivation.SyntheticName` | Sources/CaseAccessorsMacros/CaseAccessorsMacro.swift:137 | the synthetic name for index `i` is `_p` followed by digits that read back as `i` |
| `AccessorDerivation.BindingNames` | Sources/CaseAccessorsMacros/CaseAccessorsMacro.swift:133-139 | one name per parameter, in order: its label unless absent or `_`, else `_p<i>` |
| `AccessorDerivation.TupleReturnType` | Sources/CaseAccessorsMacros/CaseAccessorsMacro.swift:120-131 | an optional tuple with one element per parameter, in order, with the parameter's type, named iff the label exists and is not `_` |
| `AccessorDerivation.CaseCallArguments` | Sources/CaseAccessorsMacros/CaseAccessorsMacro.swift:155-174 | one argument per parameter, in order: `label: label` for a real label, positional `_p<i>` otherwise |
| `AccessorDerivation.SetterFailureMessage` | Sources/CaseAccessorsMacros/CaseAccessorsMacro.swift:180 | the setter's assertion message names `EnumName.caseName` right after its fixed prefix |
| `AccessorDerivation.Derive` | Sources/CaseAccessorsMacros/CaseAccessorsMacro.swift:51-191 | the accessor is named by the case; a setter exists iff setters are requested and the case has a parameter clause; no payload means `Bool` with an is-case getter; otherwise the type, getter and setter of the case's shape |
| `AccessorDerivation.SyntheticNamesDistinct` | Sources/CaseAccessorsMacros/CaseAccessorsMacro.swift:137 | synthetic names at different positions differ |
| `AccessorDerivation.BindingNamesDistinct` | Sources/CaseAccessorsMacros/CaseAccessorsMacro.swift:133-140 | binding names are pairwise distinct iff the real labels are pairwise distinct and none equals the `_p<k>` of an unlabelled parameter |
| `AccessorDerivation.SyntheticNameCanCollideWithLabel` | Sources/CaseAccessorsMacros/CaseAccessorsMacro.swift:133-139 | for `case a(Int, _p0: Int)` the two binding names coincide |
| `AccessorDerivation.CompositePartsAgree` | Sources/CaseAccessorsMacros/CaseAccessorsMacro.swift:120-174 | position by position, the tuple element's name is the call argument's label, the element keeps the parameter's type, and the call passes the bound name |
| `AccessorDerivation.CircleExample` | Sources/CaseAccessorsMacros/CaseAccessorsMacro.swift:117-149 | `case circle(radius: Double)` without setters gives a read-only `(radius: Double)?` |
| `AccessorDerivation.SuccessExample` | Sources/CaseAccessorsMacros/CaseAccessorsMacro.swift:66-108 | `case success(Int)` with setters gives `Int?` with a getter and a setter |
| `CaseAccessorsMacro.CaseElements` | Sources/CaseAccessorsMacros/CaseAccessorsMacro.swift:39-41 | the flattened list is empty iff every `case` declaration lists no elements, and every element comes from some `case` declaration; more in CaseElementsAppend and SingleMemberElements |
| `CaseAccessorsMacro.CaseElementsAppend` | Sources/CaseAccessorsMacros/CaseAccessorsMacro.swift:39-41 | flattening the case elements distributes over concatenation of member lists |
| `CaseAccessorsMacro.SingleMemberElements` | Sources/CaseAccessorsMacros/CaseAccessorsMacro.swift:40-41 | a `case` declaration contributes its elements in order; any other member contributes none |
| `CaseAccessorsMacro.Expansion` | Sources/CaseAccessorsMacros/CaseAccessorsMacro.swift:14-51 | a non-enum gives no members and exactly `[notAnEnum]`; an enum without case elements gives no members and the argument diagnostics followed by `noCases`; otherwise one member per case element, in order, named by it |
| `GeneratedAccessors.Evaluate` | Sources/CaseAccessorsMacros/CaseAccessorsMacro.swift:142-149 | reading bound names gives one value per name |
| `GeneratedAccessors.EvaluateDistinct` | Sources/CaseAccessorsMacros/CaseAccessorsMacro.swift:142-149 | when the bound names are distinct, the getter's `return (names)` gives back exactly the bound values |
| `GeneratedAccessors.CallPassesBindings` | Sources/CaseAccessorsMacros/CaseAccessorsMacro.swift:155-174 | the rebuilt case call passes exactly the bound names, in parameter order |
| `GeneratedAccessors.Read` | Sources/CaseAccessorsMacros/CaseAccessorsMacro.swift:54-149 | a no-payload getter gives a `Bool` and a single-value getter an optional value; on a value of another case the getter reads `false` or `nil`, and a no-payload getter reads `true` on its own case; more in GetterPresentIffCase and GetterReturnsPayload |
| `GeneratedAccessors.Write` | Sources/CaseAccessorsMacros/CaseAccessorsMacro.swift:97-183 | a setter raises its assertion iff `newValue` is `nil`, and then leaves `self` unchanged; otherwise `self` becomes the accessor's case |
| `GeneratedAccessors.GetterPresentIffCase` | Sources/CaseAccessorsMacros/CaseAccessorsMacro.swift:54-149 | a getter returns `true` or a value iff `self` is its case, and `false` or `nil` otherwise |
| `GeneratedAccessors.GetterReturnsPayload` | Sources/CaseAccessorsMacros/CaseAccessorsMacro.swift:88-149 | on a value of its case, the getter returns the associated values |
| `GeneratedAccessors.SetThenGetSingle` | Sources/CaseAccessorsMacros/CaseAccessorsMacro.swift:88-108 | setting a value makes `self` that case with that value, and the getter then returns it |
| `GeneratedAccessors.SetThenGetComposite` | Sources/CaseAccessorsMacros/CaseAccessorsMacro.swift:142-183 | setting a tuple rebuilds the case with those values in parameter order, and the getter then returns the same tuple |
| `GeneratedAccessors.NilSetChangesNothing` | Sources/CaseAccessorsMacros/CaseAccessorsMacro.swift:97-183 | setting `nil` leaves `self` unchanged and raises the assertion naming `EnumName.caseName` |
| `GeneratedAccessors.SetMakesOtherCasesAbsent` | Sources/CaseAccessorsMacros/CaseAccessorsMacro.swift:51-183 | after a setter runs, the accessor of every other case reads `false` or `nil` |
| `Findings.AsWrittenAddsOptionalLayer` | Sources/CaseAccessorsMacros/CaseAccessorsMacro.swift:70-85 | as written, the single-parameter type always adds one `?` to a non-existential payload type |
| `Findings.OptionalPayloadIsWrappedTwice` | Sources/CaseAccessorsMacros/CaseAccessorsMacro.swift:70-73 | `case a(Int?)` gets `Int??` |
| `Findings.IntendedSingleReturnType` | Sources/CaseAccessorsMacros/CaseAccessorsMacro.swift:70-85 | keyed on the parameter's type, the declared type is the payload type itself when that is optional, else optional exactly once |
| `Findings.IntendedAgreesOnNonOptional` | Sources/CaseAccessorsMacros/CaseAccessorsMacro.swift:70-85 | the intended and the as-written type agree iff the payload type is not optional |

## Left out

- SwiftSyntax tree construction and the source text of the generated members (`TupleTypeSyntax`, `FunctionCallExprSyntax`, the `"""` templates, whitespace and trivia). Generated members are the structured `GeneratedAccessor` datatype. These are foreign library calls.
- The `MacroExpansionContext.diagnose` channel and the node a diagnostic is attached to. Diagnostics are an ordered output sequence of kinds.
- `assertionFailure`'s debug-versus-release behaviour. A setter's outcome records the assertion message, and `self` is unchanged in either build.
- Swift type checking of the generated code: tuple relabelling in `return (a, b)`, whether `(T)` collapses to `T`, and generic types, which are passed through verbatim as `Plain`.
- The parameter's second name (`case a(_ x: Int)`). The code reads only `firstName`.
- `init(setters:)` (CaseAccessorsMacro.swift:7). It has no behaviour.
- The `MemberMacro` and `DiagnosticMessage` conformances and the imports. These are plumbing.
- The message text of `invalidArguments`. The enum in CaseAccessorsDiagnostic.swift does not declare that case, so the message is an assumption of this model.
- `CaseAccessorsMacro.Expansion`, `AccessorDerivation.Derive`: they keep the code's single-parameter return type (`T??` for `case a(T?)`). `Findings.IntendedSingleReturnType` gives the intended type and `Findings.IntendedAgreesOnNonOptional` says where the two differ.
- `GeneratedAccessors.SetThenGetComposite`, `GeneratedAccessors.GetterReturnsPayload`: they require pairwise distinct binding names. With a repeated name, such as a label spelled `_p0`, the generated pattern does not compile (`AccessorDerivation.SyntheticNameCanCollideWithLabel`).
- Cases that share a base name with different labels (`case a(x: Int)` and `case a(y: Int)`). The expansion gives two members named `a`, which the compiler rejects. `GeneratedAccessors.EnumValue` tags a value by base name only, so `Read` and `Write` would treat the two cases as one. This is harmless, because such generated code never compiles.
- Runtime reading of `case a(T?)`: `GeneratedAccessors.Read` returns the value as written (`.some(param)` of type `T??`). There is no runtime model of the intended `T?` getter.

## Findings

| source | as written | input that shows it | evidently intended | confidence | as-written member | corrected member |
|---|---|---|---|---|---|---|
| Sources/CaseAccessorsMacros/CaseAccessorsMacro.swift:70 | `parameter.is(OptionalTypeSyntax.self)` tests the parameter node, which is never an optional type node, so `case a(T?)` gets `T??` | `case a(Int?)` gives `var a: Int??` | test `parameter.type`, so that `case a(T?)` gets `T?` as the comment at lines 71-72 says | high, not executed | `Findings.OptionalPayloadIsWrappedTwice` | `Findings.IntendedSingleReturnType` |
