/**
  The `T?` short-cut for a single positional parameter: the code tests the
  parameter node instead of its type, so the short-cut never applies and
  `case a(T?)` gets the type `T??`. This module shows the discrepancy and
  states the intended return type with its property.
 */
module Findings {
  import opened Wrappers
  import opened SyntaxTree
  import opened AccessorDerivation

  /** The number of `?` suffixes around a type. */
  function OptionalDepth(t: Type): nat
  {
    if t.Optional? then 1 + OptionalDepth(t.wrapped) else 0
  }

  /** As written, the declared type always adds one `?`, even to an optional payload type. */
  lemma AsWrittenAddsOptionalLayer(p: Param)
    ensures OptionalDepth(SingleReturnType(p)) == if p.ty.SomeOrAny? then 1 else OptionalDepth(p.ty) + 1
  {
  }

  /** `case a(Int?)`: the generated property is `Int??`, not the `Int?` the comment promises. */
  lemma OptionalPayloadIsWrappedTwice()
    ensures SingleReturnType(Param(None, Optional(Plain("Int")))) == Optional(Optional(Plain("Int")))
    ensures OptionalDepth(SingleReturnType(Param(None, Optional(Plain("Int"))))) == 2
  {
  }

  /** The declared type for `case a(T)` with the short-cut keyed on the parameter's type. */
  function IntendedSingleReturnType(p: Param): (t: Type)
    ensures t.Optional?
    ensures OptionalDepth(t) == if p.ty.Optional? then OptionalDepth(p.ty) else 1
    ensures p.ty.Optional? ==> t == p.ty
  {
    if p.ty.Optional? then p.ty
    else if p.ty.SomeOrAny? then Optional(Tuple([TupleTypeElement(None, p.ty)]))
    else Optional(p.ty)
  }

  /** The two agree on every payload type that is not already optional. */
  lemma IntendedAgreesOnNonOptional(p: Param)
    ensures IntendedSingleReturnType(p) == SingleReturnType(p) <==> !p.ty.Optional?
  {
  }
}
