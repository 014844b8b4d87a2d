/**
  A small in-memory stand-in for the SwiftSyntax nodes the `@CaseAccessors`
  macro inspects: the attached declaration, its `case` declarations and their
  associated-value parameters, and the macro attribute's arguments.
 */
module SyntaxTree {
  import opened Wrappers

  /** A type as written in source. Generic and other types are passed through verbatim as `Plain`. */
  datatype Type =
    | Plain(name: string)                     // `Int`, `[String]`, `Result<A, B>`
    | Optional(wrapped: Type)                 // `T?`
    | SomeOrAny(constraint: Type)             // `any P`, `some P`
    | Tuple(elements: seq<TupleTypeElement>)  // `(name: A, B)`

  /** One element of a tuple type: `name: T` or just `T`. */
  datatype TupleTypeElement = TupleTypeElement(name: Option<string>, ty: Type)

  /** An associated-value parameter of an enum case. `firstName` is the label token, `_` included. */
  datatype Param = Param(firstName: Option<string>, ty: Type)

  /**
    One case element: `case a` has no associated value, `case a()` has an
    empty parameter clause, `case a(Int, b: String)` has two parameters.
   */
  datatype CaseElem = CaseElem(identifier: string, associatedValue: Option<seq<Param>>)

  /** A member of the enum's member block: a `case` declaration (possibly listing several elements) or anything else. */
  datatype Member = CaseDecl(elements: seq<CaseElem>) | OtherMember

  /** The declaration the macro is attached to: an enum, or any other declaration group. */
  datatype Decl = Enum(name: string, members: seq<Member>) | Other

  /** The expression of a macro argument: a Boolean literal, or anything else. */
  datatype Expr = BooleanLiteral(value: bool) | OtherExpr

  /** A labelled expression in the attribute's argument list. */
  datatype Argument = Argument(argumentLabel: Option<string>, expression: Expr)

  /** The attribute's arguments: none, a labelled expression list, or some other argument form. */
  datatype AttributeArguments = NoArguments | LabeledList(arguments: seq<Argument>) | OtherArguments

  datatype Attribute = Attribute(arguments: AttributeArguments)
}
