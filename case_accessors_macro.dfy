/**
  `CaseAccessorsMacro.expansion`: check that the attached declaration is an
  enum, parse the arguments, flatten the case elements of every `case`
  declaration and derive one computed property per element, in order.
 */
module CaseAccessorsMacro {
  import opened SyntaxTree
  import opened Diagnostics
  import opened MacroArguments
  import opened AccessorDerivation

  /** The case elements of all `case` declarations among `members`, in declaration order. */
  function CaseElements(members: seq<Member>): (r: seq<CaseElem>)
    ensures r == [] <==>
              forall k :: 0 <= k < |members| && members[k].CaseDecl? ==> members[k].elements == []
    ensures forall e :: e in r ==>
              exists k :: 0 <= k < |members| && members[k].CaseDecl? && e in members[k].elements
  {
    if members == [] then []
    else
      (match members[0] case CaseDecl(elements) => elements case OtherMember => [])
      + CaseElements(members[1..])
  }

  /** Flattening distributes over concatenation of member lists. */
  lemma {:induction false} CaseElementsAppend(m1: seq<Member>, m2: seq<Member>)
    ensures CaseElements(m1 + m2) == CaseElements(m1) + CaseElements(m2)
  {
    if m1 == [] {
      assert m1 + m2 == m2;
    } else {
      assert (m1 + m2)[0] == m1[0];
      assert (m1 + m2)[1..] == m1[1..] + m2;
      CaseElementsAppend(m1[1..], m2);
    }
  }

  /** A `case` declaration contributes its elements, in order; any other member contributes none. */
  lemma SingleMemberElements(m: Member)
    ensures CaseElements([m]) == if m.CaseDecl? then m.elements else []
  {
  }

  /** The expansion: generated members and the diagnostics reported, in order. */
  method Expansion(attribute: Attribute, declaration: Decl)
    returns (members: seq<GeneratedAccessor>, diagnostics: seq<CaseAccessorsDiagnostic>)
    ensures !declaration.Enum? ==> members == [] && diagnostics == [NotAnEnum]
    ensures declaration.Enum? && CaseElements(declaration.members) == [] ==>
              members == [] && diagnostics == ArgumentDiagnostics(attribute) + [NoCases]
    ensures declaration.Enum? && CaseElements(declaration.members) != [] ==>
              var elements := CaseElements(declaration.members);
              diagnostics == ArgumentDiagnostics(attribute)
              && |members| == |elements|
              && (forall i :: 0 <= i < |elements| ==>
                    members[i] == Derive(declaration.name, GenerateSetters(attribute), elements[i])
                    && members[i].name == elements[i].identifier)
  {
    if !declaration.Enum? {
      return [], [NotAnEnum];
    }
    var generateSetters;
    generateSetters, diagnostics := ParseArguments(attribute);
    var elements := CaseElements(declaration.members);
    if elements == [] {
      return [], diagnostics + [NoCases];
    }
    members := seq(|elements|, i requires 0 <= i < |elements| =>
                 Derive(declaration.name, generateSetters, elements[i]));
  }
}
