/**
  Parsing of the `@CaseAccessors(setters: ...)` arguments: `generateSetters`
  starts `false`; every argument is visited in order; `setters:` with a
  Boolean literal overwrites the flag, any other argument reports
  `invalidArguments` and leaves the flag alone.
 */
module MacroArguments {
  import opened Wrappers
  import opened SyntaxTree
  import opened Diagnostics

  /** What one argument does to the flag: `Some(b)` for `setters: <b>`, `None` for a rejected argument. */
  function ArgumentSetting(argument: Argument): (r: Option<bool>)
    ensures r.Some? ==> argument.argumentLabel == Some("setters") && argument.expression == BooleanLiteral(r.value)
    ensures argument.argumentLabel != Some("setters") || argument.expression == OtherExpr ==> r.None?
  {
    if argument.argumentLabel == Some("setters") && argument.expression.BooleanLiteral?
    then Some(argument.expression.value)
    else None
  }

  /** The flag after processing `arguments` in order, starting from `false`. */
  function SettingAfter(arguments: seq<Argument>): bool
  {
    if arguments == [] then false
    else match ArgumentSetting(arguments[|arguments| - 1])
      case Some(b) => b
      case None => SettingAfter(arguments[..|arguments| - 1])
  }

  /** The number of rejected arguments among `arguments`. */
  function RejectedCount(arguments: seq<Argument>): nat
  {
    if arguments == [] then 0
    else RejectedCount(arguments[..|arguments| - 1])
         + (if ArgumentSetting(arguments[|arguments| - 1]).None? then 1 else 0)
  }

  function Repeat(d: CaseAccessorsDiagnostic, n: nat): (r: seq<CaseAccessorsDiagnostic>)
    ensures |r| == n && forall k :: 0 <= k < n ==> r[k] == d
  {
    seq(n, _ => d)
  }

  /** The effective `generateSetters` for an attribute. */
  function GenerateSetters(attribute: Attribute): bool
  {
    match attribute.arguments
    case LabeledList(arguments) => SettingAfter(arguments)
    case _ => false
  }

  /** The diagnostics argument parsing reports for an attribute, in order. */
  function ArgumentDiagnostics(attribute: Attribute): seq<CaseAccessorsDiagnostic>
  {
    match attribute.arguments
    case LabeledList(arguments) => Repeat(InvalidArguments, RejectedCount(arguments))
    case _ => []
  }

  /** The argument loop: one pass over the labelled list, appending a diagnostic per rejected argument. */
  method ParseArguments(attribute: Attribute) returns (generateSetters: bool, diagnostics: seq<CaseAccessorsDiagnostic>)
    ensures generateSetters == GenerateSetters(attribute)
    ensures diagnostics == ArgumentDiagnostics(attribute)
  {
    generateSetters := false;
    diagnostics := [];
    if attribute.arguments.LabeledList? {
      var arguments := attribute.arguments.arguments;
      for i := 0 to |arguments|
        invariant generateSetters == SettingAfter(arguments[..i])
        invariant diagnostics == Repeat(InvalidArguments, RejectedCount(arguments[..i]))
      {
        var argument := arguments[i];
        assert arguments[..i + 1][..i] == arguments[..i];
        if argument.argumentLabel == Some("setters") && argument.expression.BooleanLiteral? {
          generateSetters := argument.expression.value;
        } else {
          diagnostics := diagnostics + [InvalidArguments];
        }
      }
      assert arguments[..|arguments|] == arguments;
    }
  }

  /** A rejected argument adds one diagnostic and does not change the flag. */
  lemma RejectedArgumentStep(arguments: seq<Argument>, argument: Argument)
    requires ArgumentSetting(argument).None?
    ensures SettingAfter(arguments + [argument]) == SettingAfter(arguments)
    ensures RejectedCount(arguments + [argument]) == RejectedCount(arguments) + 1
  {
  }

  /** The last accepted `setters:` argument decides the flag, whatever comes before it. */
  lemma {:induction false} LastValidArgumentWins(arguments: seq<Argument>, i: nat)
    requires i < |arguments| && ArgumentSetting(arguments[i]).Some?
    requires forall j :: i < j < |arguments| ==> ArgumentSetting(arguments[j]).None?
    ensures SettingAfter(arguments) == ArgumentSetting(arguments[i]).value
  {
    if i < |arguments| - 1 {
      var prefix := arguments[..|arguments| - 1];
      assert prefix[i] == arguments[i];
      LastValidArgumentWins(prefix, i);
    }
  }

  /** Without an accepted argument the flag keeps its default and every argument is reported. */
  lemma {:induction false} NoValidArgumentKeepsDefault(arguments: seq<Argument>)
    requires forall j :: 0 <= j < |arguments| ==> ArgumentSetting(arguments[j]).None?
    ensures !SettingAfter(arguments)
    ensures RejectedCount(arguments) == |arguments|
  {
    if arguments != [] {
      NoValidArgumentKeepsDefault(arguments[..|arguments| - 1]);
    }
  }
}
