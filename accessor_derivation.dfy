/**
  Derivation of the computed property generated for one enum case element:
  which of the three shapes the case has, the property's declared type, the
  names its pattern binds, and (when setters are requested) the case call the
  setter rebuilds.
 */
module AccessorDerivation {
  import opened Wrappers
  import opened SyntaxTree
  import Decimal

  /** The three shapes a case element can take. */
  datatype CaseShape =
    | NoPayload                         // `case a`
    | SinglePositional(param: Param)    // `case a(T)`: one parameter without a label
    | Composite(params: seq<Param>)     // everything else with a parameter clause

  /** How the generated getter reads `self`. */
  datatype Getter =
    | IsCase                            // `if case let .a = self { return true }; return false`
    | ExtractSingle                     // `if case let .a(param) = self { return param }; return nil`
    | Destructure(bindings: seq<string>) // `if case let .a(n0, n1) = self { return (n0, n1) }; return nil`

  /** One argument of the rebuilt case call: `label: binding` or a positional `binding`. */
  datatype CallArg = CallArg(argLabel: Option<string>, binding: string)

  /** How the generated setter writes `self`; both reject `nil` with an assertion failure. */
  datatype Setter =
    | SetSingle(failureMessage: string)   // `if let newValue { self = .a(newValue) }`
    | Rebuild(bindings: seq<string>, call: seq<CallArg>, failureMessage: string)
                                          // `if let (n0, n1) = newValue { self = .a(n0, l: n1) }`

  /** The generated member: `var <name>: <returnType> { get set? }`. */
  datatype GeneratedAccessor = GeneratedAccessor(name: string, returnType: Type, getter: Getter, setter: Option<Setter>)

  const BoolType := Plain("Bool")

  /** Case-shape selection. */
  function ShapeOf(e: CaseElem): (s: CaseShape)
    ensures s.NoPayload? <==> e.associatedValue.None?
    ensures s.SinglePositional? <==>
              e.associatedValue.Some? && |e.associatedValue.value| == 1
              && e.associatedValue.value[0].firstName.None?
    ensures s.SinglePositional? ==> s.param == e.associatedValue.value[0]
    ensures s.Composite? ==> s.params == e.associatedValue.value
  {
    match e.associatedValue
    case None => NoPayload
    case Some(params) =>
      if |params| == 1 && params[0].firstName.None? then SinglePositional(params[0]) else Composite(params)
  }

  /** A parameter clause `()` or a single labelled parameter, `_` included, takes the tuple path. */
  lemma LabelledOrEmptyIsComposite(e: CaseElem)
    requires e.associatedValue.Some?
    requires |e.associatedValue.value| != 1 || e.associatedValue.value[0].firstName.Some?
    ensures ShapeOf(e) == Composite(e.associatedValue.value)
  {
  }

  /**
    The test that guards the `T?` short-cut for a single positional
    parameter. It asks whether the PARAMETER node is an optional-type node;
    a parameter node never is, whatever its type.
   */
  predicate ParameterNodeIsOptionalType(p: Param): (r: bool)
    ensures !r
  {
    false
  }

  /** The declared type for `case a(T)`, as the code computes it. */
  function SingleReturnType(p: Param): (t: Type)
    ensures p.ty.SomeOrAny? ==> t == Optional(Tuple([TupleTypeElement(None, p.ty)]))
    ensures !p.ty.SomeOrAny? ==> t == Optional(p.ty)
  {
    if ParameterNodeIsOptionalType(p) then p.ty
    else if p.ty.SomeOrAny? then Optional(Tuple([TupleTypeElement(None, p.ty)]))
    else Optional(p.ty)
  }

  /** A label that names a tuple element: present and not `_`. */
  predicate HasRealLabel(p: Param): (r: bool)
    ensures r ==> p.firstName.Some?
    ensures p.firstName == Some("_") ==> !r
  {
    p.firstName.Some? && p.firstName.value != "_"
  }

  /** The name bound to an unlabelled parameter at position `i`: `_p<i>`. */
  function SyntheticName(i: nat): (s: string)
    ensures |s| >= 3 && s[..2] == "_p" && Decimal.Value(s[2..]) == i
  {
    Decimal.ValueOfDigits(i);
    var s := "_p" + Decimal.Digits(i);
    assert s[2..] == Decimal.Digits(i);
    s
  }

  function BindingName(p: Param, i: nat): string
  {
    if HasRealLabel(p) then p.firstName.value else SyntheticName(i)
  }

  /** The names the composite getter and setter bind, one per parameter, in order. */
  function BindingNames(params: seq<Param>): (names: seq<string>)
    ensures |names| == |params|
    ensures forall i :: 0 <= i < |params| ==> names[i] == BindingName(params[i], i)
  {
    seq(|params|, i requires 0 <= i < |params| => BindingName(params[i], i))
  }

  /** The tuple element for one parameter: named by its real label, unnamed otherwise. */
  function TupleElement(p: Param): TupleTypeElement
  {
    TupleTypeElement(if HasRealLabel(p) then p.firstName else None, p.ty)
  }

  /** The declared type for a composite case: an optional tuple with one element per parameter. */
  function TupleReturnType(params: seq<Param>): (t: Type)
    ensures t.Optional? && t.wrapped.Tuple? && |t.wrapped.elements| == |params|
    ensures forall i :: 0 <= i < |params| ==> t.wrapped.elements[i] == TupleElement(params[i])
  {
    Optional(Tuple(seq(|params|, i requires 0 <= i < |params| => TupleElement(params[i]))))
  }

  /** The argument list of the case call the composite setter rebuilds. */
  function CaseCallArguments(params: seq<Param>): (args: seq<CallArg>)
    ensures |args| == |params|
    ensures forall i :: 0 <= i < |params| ==>
              args[i] == CallArg(if HasRealLabel(params[i]) then params[i].firstName else None,
                                 BindingName(params[i], i))
  {
    seq(|params|, i requires 0 <= i < |params| =>
      CallArg(if HasRealLabel(params[i]) then params[i].firstName else None, BindingName(params[i], i)))
  }

  /** The message of the assertion a setter raises when it is given `nil`. */
  function SetterFailureMessage(enumName: string, caseName: string): (m: string)
    ensures var k := |"The @CaseAccessors generated setter for "|;
            |m| > k + |enumName| + 1 + |caseName|
            && m[k..k + |enumName| + 1 + |caseName|] == enumName + "." + caseName
  {
    "The @CaseAccessors generated setter for " + enumName + "." + caseName
      + " expects that `newValue` is not nil"
  }

  /** The computed property generated for one case element of enum `enumName`. */
  function Derive(enumName: string, generateSetters: bool, e: CaseElem): (a: GeneratedAccessor)
    ensures a.name == e.identifier
    ensures a.setter.Some? <==> generateSetters && e.associatedValue.Some?
    ensures a.setter.Some? ==> a.setter.value.failureMessage == SetterFailureMessage(enumName, e.identifier)
    ensures e.associatedValue.None? <==> a.returnType == BoolType
    ensures e.associatedValue.None? <==> a.getter == IsCase
    ensures ShapeOf(e).SinglePositional? ==>
              a.returnType == SingleReturnType(ShapeOf(e).param)
              && a.getter == ExtractSingle && (a.setter.Some? ==> a.setter.value.SetSingle?)
    ensures ShapeOf(e).Composite? ==>
              var params := e.associatedValue.value;
              a.returnType == TupleReturnType(params)
              && a.getter == Destructure(BindingNames(params))
              && (a.setter.Some? ==>
                    a.setter.value.Rebuild? && a.setter.value.bindings == BindingNames(params)
                    && a.setter.value.call == CaseCallArguments(params))
  {
    var message := SetterFailureMessage(enumName, e.identifier);
    match ShapeOf(e)
    case NoPayload =>
      GeneratedAccessor(e.identifier, BoolType, IsCase, None)
    case SinglePositional(p) =>
      GeneratedAccessor(e.identifier, SingleReturnType(p), ExtractSingle,
                        if generateSetters then Some(SetSingle(message)) else None)
    case Composite(params) =>
      var names := BindingNames(params);
      GeneratedAccessor(e.identifier, TupleReturnType(params), Destructure(names),
                        if generateSetters then Some(Rebuild(names, CaseCallArguments(params), message)) else None)
  }

  /** Pairwise distinct elements. */
  predicate Distinct(names: seq<string>)
  {
    forall i, j :: 0 <= i < j < |names| ==> names[i] != names[j]
  }

  /** Synthetic names at different positions differ. */
  lemma SyntheticNamesDistinct(i: nat, j: nat)
    requires i != j
    ensures SyntheticName(i) != SyntheticName(j)
  {
  }

  /**
    The real labels are pairwise distinct, and none equals the synthetic
    name of an unlabelled parameter at another position.
   */
  predicate LabelsAvoidCollisions(params: seq<Param>)
  {
    (forall i, j :: 0 <= i < j < |params| && HasRealLabel(params[i]) && HasRealLabel(params[j])
       ==> params[i].firstName != params[j].firstName)
    && (forall i, k :: 0 <= i < |params| && 0 <= k < |params| && HasRealLabel(params[i]) && !HasRealLabel(params[k])
          ==> params[i].firstName.value != SyntheticName(k))
  }

  /** Binding names are pairwise distinct exactly when the labels avoid collisions. */
  lemma BindingNamesDistinct(params: seq<Param>)
    ensures Distinct(BindingNames(params)) <==> LabelsAvoidCollisions(params)
  {
    var names := BindingNames(params);
    if LabelsAvoidCollisions(params) {
      forall i, j | 0 <= i < j < |names| ensures names[i] != names[j] {
        if !HasRealLabel(params[i]) && !HasRealLabel(params[j]) {
          SyntheticNamesDistinct(i, j);
        }
      }
    }
  }

  /** A real label spelled like a synthetic name collides with it: `case a(Int, _p0: Int)`. */
  lemma SyntheticNameCanCollideWithLabel()
    ensures !Distinct(BindingNames([Param(None, Plain("Int")), Param(Some("_p0"), Plain("Int"))]))
  {
    var params := [Param(None, Plain("Int")), Param(Some("_p0"), Plain("Int"))];
    assert Decimal.Digits(0) == "0";
    assert BindingNames(params)[0] == "_p0" == BindingNames(params)[1];
  }

  /** The tuple type, the bindings and the rebuilt call line up position by position. */
  lemma CompositePartsAgree(params: seq<Param>, i: nat)
    requires i < |params|
    ensures TupleReturnType(params).wrapped.elements[i].name == CaseCallArguments(params)[i].argLabel
    ensures TupleReturnType(params).wrapped.elements[i].ty == params[i].ty
    ensures CaseCallArguments(params)[i].binding == BindingNames(params)[i]
    ensures CaseCallArguments(params)[i].argLabel.Some? ==>
              CaseCallArguments(params)[i].binding == CaseCallArguments(params)[i].argLabel.value
  {
  }

  /** `case circle(radius: Double)` without setters: a read-only `(radius: Double)?`. */
  lemma CircleExample()
    ensures Derive("Shape", false, CaseElem("circle", Some([Param(Some("radius"), Plain("Double"))])))
            == GeneratedAccessor("circle", Optional(Tuple([TupleTypeElement(Some("radius"), Plain("Double"))])),
                                 Destructure(["radius"]), None)
  {
  }

  /** `case success(Int)` with setters: an `Int?` with a getter and a setter. */
  lemma SuccessExample()
    ensures Derive("Outcome", true, CaseElem("success", Some([Param(None, Plain("Int"))])))
            == GeneratedAccessor("success", Optional(Plain("Int")), ExtractSingle,
                                 Some(SetSingle(SetterFailureMessage("Outcome", "success"))))
  {
  }
}
