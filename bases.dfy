/**
 * The collaborators the rule framework is built on: accessibility elements,
 * conditions over them, the verdict vocabulary, and the failures the rules
 * raise. Only the parts the rule core touches are modelled.
 */
module Bases {

  /** Optional value; `None` stands for a C# `null`. */
  datatype Option<+T> = None | Some(value: T)

  /** Either a value or the exception that was thrown instead. */
  datatype Result<+T, +E> = Success(value: T) | Failure(error: E)

  /** A UI Automation control-type identifier. */
  type ControlTypeId = int

  /** UI Automation's identifiers for the Button and Hyperlink control types. */
  const ButtonControlTypeId: ControlTypeId := 50000
  const HyperlinkControlTypeId: ControlTypeId := 50005

  /**
   * A node of the accessibility tree, reduced to the two capabilities the
   * Invoke rule and its condition query: its control type and whether it
   * supports the Invoke pattern.
   */
  datatype Element = Element(controlType: ControlTypeId, supportsInvoke: bool)

  /**
   * A condition: a predicate over elements together with its string form
   * (what `ToString()` returns). Nothing is assumed about how either is
   * built; the condition algebra is not part of this model.
   */
  datatype Condition = Condition(matches: Element -> bool, text: string)

  /** `ToString()` of a possibly-null condition (`condition?.ToString()`). */
  function ConditionText(c: Option<Condition>): Option<string>
  {
    match c
    case None => None
    case Some(cond) => Some(cond.text)
  }

  /** The control-type condition "is a Hyperlink". */
  const Hyperlink: Condition :=
    Condition((e: Element) => e.controlType == HyperlinkControlTypeId, "ControlType = Hyperlink")

  /** The pattern condition "supports the Invoke pattern". */
  const InvokePattern: Condition :=
    Condition((e: Element) => e.supportsInvoke, "Pattern = Invoke")

  /** The verdicts an evaluation may produce. */
  datatype EvaluationCode = Pass | Error | Open | NotApplicable | ExecutionError

  /** The exceptions the rule core throws. */
  datatype Exception =
    | MissingRuleInfo(typeName: string)   // construction: no RuleInfo attribute
    | ArgumentNull(paramName: string)     // evaluation of a null element
    | NotImplemented                      // a base-class stub was reached
}
