/**
  What the generated properties do when the expanded code runs: a value of
  the annotated enum is a case tag with its associated values, a getter
  reads it, and a setter replaces it (or raises an assertion failure and
  leaves it alone when given `nil`).
 */
module GeneratedAccessors {
  import opened Wrappers
  import opened SyntaxTree
  import opened AccessorDerivation

  /** A value of the annotated enum: the case it was built with, and its associated values in parameter order. */
  datatype EnumValue<V> = EnumValue(tag: string, payload: seq<V>)

  /** What a generated getter returns: a `Bool`, an optional single value, or an optional tuple. */
  datatype Reading<V> = Flag(isCase: bool) | Single(value: Option<V>) | Fields(values: Option<seq<V>>)

  /** The outcome of a generated setter: the new `self`, and the message of the assertion failure raised, if any. */
  datatype SetOutcome<V> = SetOutcome(self: EnumValue<V>, assertionFailure: Option<string>)

  /** `false` or `nil`: the reading for a value of another case. */
  predicate IsAbsent<V>(r: Reading<V>)
  {
    match r
    case Flag(b) => !b
    case Single(v) => v.None?
    case Fields(vs) => vs.None?
  }

  /** The number of associated values a case element carries. */
  function Arity(e: CaseElem): nat
  {
    if e.associatedValue.None? then 0 else |e.associatedValue.value|
  }

  /** A value of case `e` carries exactly the associated values its declaration lists. */
  predicate WellTyped<V>(self: EnumValue<V>, e: CaseElem)
  {
    self.tag == e.identifier ==> |self.payload| == Arity(e)
  }

  /** The value bound to identifier `x` by a pattern that binds `names` to `values`. */
  function Lookup<V>(names: seq<string>, values: seq<V>, x: string): V
    requires |names| == |values| && x in names
  {
    if names[0] == x then values[0] else Lookup(names[1..], values[1..], x)
  }

  /** The values of the identifiers `refs` after a pattern bound `names` to `values`. */
  function Evaluate<V>(refs: seq<string>, names: seq<string>, values: seq<V>): (r: seq<V>)
    requires |names| == |values|
    requires forall k :: 0 <= k < |refs| ==> refs[k] in names
    ensures |r| == |refs|
  {
    seq(|refs|, k requires 0 <= k < |refs| => Lookup(names, values, refs[k]))
  }

  lemma {:induction false} LookupDistinct<V>(names: seq<string>, values: seq<V>, i: nat)
    requires |names| == |values| && i < |names| && Distinct(names)
    ensures Lookup(names, values, names[i]) == values[i]
  {
    if i > 0 {
      assert names[0] != names[i];
      assert names[1..][i - 1] == names[i];
      LookupDistinct(names[1..], values[1..], i - 1);
    }
  }

  /** With pairwise distinct names, reading back every bound name gives the bound values. */
  lemma EvaluateDistinct<V>(names: seq<string>, values: seq<V>)
    requires |names| == |values| && Distinct(names)
    ensures Evaluate(names, names, values) == values
  {
    forall k | 0 <= k < |names| ensures Evaluate(names, names, values)[k] == values[k] {
      LookupDistinct(names, values, k);
    }
  }

  /** The identifiers a case call passes, in argument order. */
  function CallBindings(call: seq<CallArg>): (r: seq<string>)
    ensures |r| == |call| && forall k :: 0 <= k < |call| ==> r[k] == call[k].binding
  {
    seq(|call|, k requires 0 <= k < |call| => call[k].binding)
  }

  /**
    The generated getter applied to `self`. The pattern `.a(...)` matches on
    the case alone; the arity tests only make `Read` total on values Swift
    cannot build, and hold for every `WellTyped` value.
   */
  function Read<V>(a: GeneratedAccessor, self: EnumValue<V>): (r: Reading<V>)
    ensures r.Flag? <==> a.getter.IsCase?
    ensures r.Single? <==> a.getter.ExtractSingle?
    ensures self.tag != a.name ==> IsAbsent(r)
    ensures self.tag == a.name && a.getter.IsCase? ==> r == Flag(true)
  {
    match a.getter
    case IsCase => Flag(self.tag == a.name)
    case ExtractSingle =>
      Single(if self.tag == a.name && |self.payload| == 1 then Some(self.payload[0]) else None)
    case Destructure(names) =>
      Fields(if self.tag == a.name && |self.payload| == |names| then Some(Evaluate(names, names, self.payload)) else None)
  }

  /** `newValue` has the property's type, and the rebuilt call only names bound identifiers. */
  predicate Accepts<V>(s: Setter, newValue: Reading<V>)
  {
    match s
    case SetSingle(_) => newValue.Single?
    case Rebuild(names, call, _) =>
      newValue.Fields?
      && (forall k :: 0 <= k < |call| ==> call[k].binding in names)
      && (newValue.values.Some? ==> |newValue.values.value| == |names|)
  }

  /** Present iff the reading carries a value; only defined for the setter's `newValue` kinds. */
  predicate IsPresent<V>(newValue: Reading<V>)
  {
    match newValue
    case Flag(_) => false
    case Single(v) => v.Some?
    case Fields(vs) => vs.Some?
  }

  /** The generated setter applied to `self` with `newValue`. */
  function Write<V>(a: GeneratedAccessor, self: EnumValue<V>, newValue: Reading<V>): (out: SetOutcome<V>)
    requires a.setter.Some? && Accepts(a.setter.value, newValue)
    ensures out.assertionFailure.Some? <==> !IsPresent(newValue)
    ensures !IsPresent(newValue) ==>
              out == SetOutcome(self, Some(a.setter.value.failureMessage))
    ensures IsPresent(newValue) ==> out.self.tag == a.name
  {
    match a.setter.value
    case SetSingle(message) =>
      (match newValue.value
       case Some(v) => SetOutcome(EnumValue(a.name, [v]), None)
       case None => SetOutcome(self, Some(message)))
    case Rebuild(names, call, message) =>
      (match newValue.values
       case Some(vs) => SetOutcome(EnumValue(a.name, Evaluate(CallBindings(call), names, vs)), None)
       case None => SetOutcome(self, Some(message)))
  }

  /** A getter reads `true` or a value exactly when `self` is its case. */
  lemma GetterPresentIffCase<V>(enumName: string, generateSetters: bool, e: CaseElem, self: EnumValue<V>)
    requires WellTyped(self, e)
    ensures IsAbsent(Read(Derive(enumName, generateSetters, e), self)) <==> self.tag != e.identifier
  {
  }

  /** On a value of its case, the getter returns the associated values, labels aside. */
  lemma GetterReturnsPayload<V>(enumName: string, generateSetters: bool, e: CaseElem, self: EnumValue<V>)
    requires self.tag == e.identifier && |self.payload| == Arity(e)
    requires ShapeOf(e).Composite? ==> Distinct(BindingNames(e.associatedValue.value))
    ensures var r := Read(Derive(enumName, generateSetters, e), self);
            match ShapeOf(e)
            case NoPayload => r == Flag(true)
            case SinglePositional(_) => r == Single(Some(self.payload[0]))
            case Composite(_) => r == Fields(Some(self.payload))
  {
    if ShapeOf(e).Composite? {
      EvaluateDistinct(BindingNames(e.associatedValue.value), self.payload);
    }
  }

  /** The composite setter's call passes exactly the bound names, in parameter order. */
  lemma CallPassesBindings(params: seq<Param>)
    ensures CallBindings(CaseCallArguments(params)) == BindingNames(params)
  {
  }

  /** Setting a value makes `self` that case with that value, so the getter reads it back. */
  lemma SetThenGetSingle<V>(enumName: string, e: CaseElem, self: EnumValue<V>, v: V)
    requires ShapeOf(e).SinglePositional?
    ensures var a := Derive(enumName, true, e);
            var out := Write(a, self, Single(Some(v)));
            out == SetOutcome(EnumValue(e.identifier, [v]), None)
            && Read(a, out.self) == Single(Some(v))
  {
  }

  /** Setting a tuple rebuilds the case from it, so the getter reads the same tuple back. */
  lemma SetThenGetComposite<V>(enumName: string, e: CaseElem, self: EnumValue<V>, vs: seq<V>)
    requires ShapeOf(e).Composite? && |vs| == Arity(e)
    requires Distinct(BindingNames(e.associatedValue.value))
    ensures var a := Derive(enumName, true, e);
            Accepts(a.setter.value, Fields(Some(vs)))
            && var out := Write(a, self, Fields(Some(vs)));
               out == SetOutcome(EnumValue(e.identifier, vs), None)
               && Read(a, out.self) == Fields(Some(vs))
  {
    var params := e.associatedValue.value;
    var names := BindingNames(params);
    CallPassesBindings(params);
    EvaluateDistinct(names, vs);
  }

  /** Setting `nil` changes nothing and raises the assertion naming `EnumName.caseName`. */
  lemma NilSetChangesNothing<V>(enumName: string, e: CaseElem, self: EnumValue<V>)
    requires e.associatedValue.Some?
    ensures var a := Derive(enumName, true, e);
            var absent: Reading<V> := if ShapeOf(e).SinglePositional? then Single(None) else Fields(None);
            Accepts(a.setter.value, absent)
            && Write(a, self, absent) == SetOutcome(self, Some(SetterFailureMessage(enumName, e.identifier)))
  {
  }

  /** After setting one case, the accessor of every other case reads `false` or `nil`. */
  lemma SetMakesOtherCasesAbsent<V>(enumName: string, generateSetters: bool, e: CaseElem, other: CaseElem,
                                    self: EnumValue<V>, newValue: Reading<V>)
    requires e.identifier != other.identifier
    requires Derive(enumName, true, e).setter.Some?
    requires Accepts(Derive(enumName, true, e).setter.value, newValue) && IsPresent(newValue)
    ensures IsAbsent(Read(Derive(enumName, generateSetters, other), Write(Derive(enumName, true, e), self, newValue).self))
  {
  }
}
