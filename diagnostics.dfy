/**
  The macro's diagnostic messages (`CaseAccessorsDiagnostic`): each case has a
  severity, a fixed message and an identifier made of a fixed domain and the
  case's raw value.
 */
module Diagnostics {
  import opened Wrappers

  /** The severities a diagnostic may carry. */
  datatype DiagnosticSeverity = Error | Warning | Note | Remark

  datatype CaseAccessorsDiagnostic = NotAnEnum | NoCases | InvalidArguments

  datatype MessageID = MessageID(domain: string, id: string)

  const Domain := "CaseAccessorMacros"

  /** How every message names the attribute. */
  const AttributeName := "'@CaseAccessors'"

  /** The `String` raw value of a case: its name. */
  function RawValue(d: CaseAccessorsDiagnostic): (s: string)
    ensures FromRawValue(s) == Some(d)
  {
    match d
    case NotAnEnum => "notAnEnum"
    case NoCases => "noCases"
    case InvalidArguments => "invalidArguments"
  }

  /** The failable initialiser from a raw value. */
  function FromRawValue(s: string): Option<CaseAccessorsDiagnostic>
  {
    if s == "notAnEnum" then Some(NotAnEnum)
    else if s == "noCases" then Some(NoCases)
    else if s == "invalidArguments" then Some(InvalidArguments)
    else None
  }

  lemma FromRawValueInverse(s: string, d: CaseAccessorsDiagnostic)
    requires FromRawValue(s) == Some(d)
    ensures RawValue(d) == s
  {
  }

  /** Only the empty-enum diagnostic is a warning; the others stop compilation. */
  function Severity(d: CaseAccessorsDiagnostic): (s: DiagnosticSeverity)
    ensures s == Warning <==> d == NoCases
    ensures s == Error <==> d != NoCases
  {
    match d
    case NotAnEnum => Error
    case NoCases => Warning
    case InvalidArguments => Error
  }

  /** The message shown to the user; every message names the attribute first. */
  function Message(d: CaseAccessorsDiagnostic): (m: string)
    ensures |m| > |AttributeName| && m[..|AttributeName|] == AttributeName
  {
    match d
    case NotAnEnum => AttributeName + " can only be applied to 'enum'"
    case NoCases => AttributeName + " was applied to an enum without any cases. This has no effect."
    case InvalidArguments => AttributeName + " only accepts the argument 'setters:' with a Boolean literal"
  }

  /** The identifier is in the macro's domain and decodes back to the diagnostic. */
  function DiagnosticID(d: CaseAccessorsDiagnostic): (id: MessageID)
    ensures id.domain == Domain
    ensures FromRawValue(id.id) == Some(d)
  {
    MessageID(Domain, RawValue(d))
  }

  lemma DiagnosticIDsDistinct(d1: CaseAccessorsDiagnostic, d2: CaseAccessorsDiagnostic)
    requires d1 != d2
    ensures DiagnosticID(d1) != DiagnosticID(d2)
    ensures Message(d1) != Message(d2)
  {
  }
}
