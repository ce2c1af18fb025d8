# Rule construction and metadata binding in Axe.Windows

This project models the core of the Axe.Windows rule framework in Dafny:

- the abstract `Rule` base class;
- its construction protocol;
- one concrete rule built on it, `ControlShouldSupportInvokePattern`.

Constructing a rule runs these steps in order:

1. The rule obtains its `Condition` from the subclass factory `CreateCondition`.
2. It searches the attributes of its own type for the first one whose type is exactly `RuleInfo`.
3. If there is no such attribute, construction throws.
4. Otherwise it writes the condition's string form into that record's `Condition` field and publishes the record as `Info`.

The concrete rule's constructor then fills in the description, the remediation text and the accessibility standard. Its `Evaluate` throws on a null element. Otherwise it returns `Pass` when the element supports the Invoke pattern and `Error` when it does not.

Files:

- `bases.dfy` (module `Bases`): what the rules are built on.
  - Elements, with a control type and an Invoke-support flag.
  - Conditions: a predicate plus its `ToString()` text.
  - The Hyperlink and Invoke conditions.
  - The `EvaluationCode` verdicts.
  - The exceptions thrown, as values.
  - `Option` (where C# has `null`) and `Result` (a value or the exception thrown instead).
- `rule.dfy` (module `Rules`): `Rule.cs`.
  - The mutable `RuleInfo` record and the tagged attribute list.
  - The attribute search: a loop, specified by the ghost function `FirstRuleInfo`.
  - The `Rule` class. Its `condition` is a `const`. Its `info` stays null until `InitRuleInfo` publishes the record.
  - `NewRule`: the whole base constructor, with a failed construction as `Failure(MissingRuleInfo(..))`.
  - The base `Evaluate` and `PassesTest` stubs.
- `control_should_support_invoke_pattern.dfy` (module `Library`): the concrete rule.
  - The C# subclass becomes a class that holds its `Rule` base part.
  - Its constructor becomes the explicit pipeline `New`: condition, then base construction, then metadata.

The invariant `Rule.Ready()` is kept by every successful construction. It says that `Info` is published and `Info.Condition` is exactly `ConditionText(Condition)`, which is null when the condition is null.

## Model

| member | source | states |
|---|---|---|
| `Rules.FirstRuleInfoIsFirst` | src/Rules/Rule.cs:45-51 | The search finds nothing exactly when no attribute has type exactly RuleInfo. Otherwise it returns the record of a RuleInfo attribute, and every attribute before it is of another type. |
| `Rules.GetRuleInfoFromAttributes` | src/Rules/Rule.cs:41-52 | The in-order scan with early return gives null exactly when no attribute is a RuleInfo. Otherwise it gives the first RuleInfo record (`FirstRuleInfo`). |
| `Rules.RuleInfo.constructor` | src/Rules/Library/ControlShouldSupportInvokePattern.cs:12 | A `RuleInfo(ID = id)` declaration sets only the identifier. Description, remediation, standard and condition start unset. |
| `Rules.Rule.constructor` | src/Rules/Rule.cs:21-26 | The first step of construction stores the condition the subclass built. `Info` is not yet set. |
| `Rules.Rule.InitRuleInfo` | src/Rules/Rule.cs:31-39 | It throws `MissingRuleInfo` exactly when the search finds nothing, and then publishes no Info. Otherwise it publishes the found record with `Info.Condition` equal to the string of the stored condition (`Ready`). The record's ID, Description, HowToFix and Standard are unchanged, and nothing outside the found record and `info` is written. |
| `Rules.NewRule` | src/Rules/Rule.cs:21-39 | The base constructor fails exactly when the type has no RuleInfo attribute, with the type's name. On success the rule is new and keeps the given condition. Its Info is the same record the search found. `Info.Condition` is the string of that condition, or null for a null condition. The other fields of the record are untouched. |
| `Rules.Rule.Evaluate` | src/Rules/Rule.cs:54-59 | The base Evaluate returns no verdict for any element. It always throws NotImplemented. |
| `Rules.Rule.PassesTest` | src/Rules/Rule.cs:61-66 | The base PassesTest returns no answer for any element. It always throws NotImplemented. |
| `Library.ControlShouldSupportInvokePattern.CreateCondition` | src/Rules/Library/ControlShouldSupportInvokePattern.cs:29-33 | The rule's condition is the Hyperlink control-type condition. It matches exactly the elements of the Hyperlink control type and has the Hyperlink condition's text. |
| `Library.ControlShouldSupportInvokePattern.New` | src/Rules/Library/ControlShouldSupportInvokePattern.cs:15-20 | Construction fails exactly as the base constructor does. On success the rule stores `CreateCondition()` as its Condition. The published Info is the record the search found. It has this rule's description, remediation text and the AvailableActions standard. Its ID is the one the declaration gave. Its Condition is still the Hyperlink text stamped by the base. Together these are the class invariant `Valid()`. |
| `Library.ControlShouldSupportInvokePattern.Evaluate` | src/Rules/Library/ControlShouldSupportInvokePattern.cs:22-27 | A null element throws ArgumentNull and gets no verdict. A non-null element gets `Pass` exactly when it supports the Invoke pattern. Otherwise it gets `Error`, never Open, NotApplicable or ExecutionError. |
| `Library.ControlShouldSupportInvokePattern.PassesTest` | src/Rules/Rule.cs:61-66 | The rule does not override PassesTest, so a call falls through to the base stub and throws NotImplemented. |
| `Library.DeclaredAttributes` | src/Rules/Library/ControlShouldSupportInvokePattern.cs:12 | The rule's type carries one attribute: a fresh RuleInfo whose ID is `ControlShouldSupportInvokePattern` and whose other fields are unset. |
| `Library.Instantiate` | src/Rules/Library/ControlShouldSupportInvokePattern.cs:12-20 | Building the rule from its own declaration never fails. Afterwards the rule is `Valid()` and stores the Hyperlink condition. Info holds this rule's ID, description, remediation text, standard and the Hyperlink condition's text. |
| `Library.EvaluateIgnoresControlType` | src/Rules/Library/ControlShouldSupportInvokePattern.cs:22-27 | Evaluate reads neither the condition nor the control type. Two elements with the same Invoke support get the same verdict. |
| `Library.RuleConditionIsHyperlink` | src/Rules/Library/ControlShouldSupportInvokePattern.cs:29-33 | The condition a constructed rule stores, which callers use to pre-filter elements, matches exactly the Hyperlinks. Info.Condition is that condition's text. |
| `Library.EvaluateScenarios` | src/Rules/Library/ControlShouldSupportInvokePattern.cs:22-33 | For a constructed rule, a Hyperlink with Invoke matches the rule's condition and passes. A Hyperlink without Invoke matches and gets Error. A Button without Invoke does not match the rule's own condition, and Evaluate on it still gives Error, not NotApplicable. |

## Where the code differs from the framework's stated design

- The framework's stated design says that evaluating an element outside the rule's condition should give `NotApplicable`. `ControlShouldSupportInvokePattern.Evaluate` does not look at the condition. A Button without Invoke gets `Error` (`EvaluateScenarios`). The model follows the code: pre-filtering by the condition is the caller's job.
- The framework's stated design says that `PassesTest` agrees with `Evaluate`. The concrete rule does not override `PassesTest`, so it always throws NotImplemented, while `Evaluate` returns a verdict. The model follows the code.
- The framework's stated design lists the verdicts as Pass, Error, Open, NotApplicable and an execution-error state. `EvaluationCode` is defined in a file that is not part of this model. The model uses exactly those five values.

## Left out

- Reflection (`GetType()`, `GetCustomAttributes(true)`): the attribute list is a parameter of the construction. The exact-type test is a tag: an attribute of a type derived from RuleInfo is an `OtherAttribute`.
- NewRule: in .NET, `GetCustomAttributes(true)` creates new attribute objects on every call, so every constructed rule owns its own RuleInfo record. The model takes the attribute list as a parameter, so its contracts also allow two constructions over the same list. Those would share one record, and the second would overwrite the first rule's `Info.Condition`. C# never produces that sharing. `Instantiate` builds a fresh list for each construction, as C# does.
- ControlShouldSupportInvokePattern.New: like `NewRule`, it takes the attribute list as a parameter and may be given a list whose RuleInfo record another rule already owns, which C# never does. `Instantiate` does not do this.
- The condition algebra (`PropertyConditions.ControlType.Hyperlink`, `Patterns.Invoke`, `Condition.ToString`) is not part of this model. A condition is an arbitrary predicate with an arbitrary text. The Hyperlink condition's text is a fixed string chosen by the model, and no property depends on its content.
- Elements carry only a control type and an Invoke-support flag. The element accessors are not part of this model. The control-type identifiers are UI Automation's values for Button and Hyperlink.
- Localised resource strings (`Descriptions.*`, `HowToFix.*`) are represented by their resource keys, not their text. The `A11yCriteriaId` enum is reduced to `AvailableActions` and other named criteria. An unset Standard (the enum's default value) is `None`.
- Exceptions are values of `Exception`. Their .NET types and message texts are not modelled, except for the type name in the missing-attribute case.
- Virtual dispatch from the base constructor is not modelled. Construction is an explicit pipeline: the subclass supplies the condition, base initialisation runs, then the subclass sets its metadata.
- Inheritance and the `IRule` interface: the concrete rule holds its base part as a field. `Info` and `Condition` are read through that field, not through an interface type. The wrapping constructor is only the last step of `New`. On its own it does not establish `Valid()`.
- Private setters: Dafny has no access modifiers. `Condition` is a `const`. `info` is assigned only by `InitRuleInfo`, which `NewRule` calls once on a fresh object before returning it. `Evaluate` and `PassesTest` change nothing.
- Concurrency: nothing in the code implements it.
- The rule registry and runner, element-tree capture and result aggregation are not part of this model.
