/**
 * The rule ControlShouldSupportInvokePattern: a Hyperlink must support the
 * Invoke pattern. The C# class derives from Rule; here the object holds its
 * base part (`base`, which carries Info and Condition) and construction is
 * the explicit pipeline "build the condition, run the base constructor,
 * then fill in this rule's metadata".
 */
module Library {
  import opened Bases
  import opened Rules

  /** The name reported when the RuleInfo attribute is missing. */
  const TypeName := "ControlShouldSupportInvokePattern"

  /** The resource entries this rule's constructor assigns. */
  const InvokeDescription := Localized("Descriptions", "ControlShouldSupportInvokePattern")
  const InvokeHowToFix := Localized("HowToFix", "ControlShouldSupportInvokePattern")

  class ControlShouldSupportInvokePattern {
    /** The Rule base-class part of this object. */
    const base: Rule

    /**
     * The object invariant once construction is complete: the base part has
     * published its Info, stores this rule's condition, and Info carries
     * this rule's metadata.
     */
    ghost predicate Valid()
      reads this, base, base.info
    {
      && base.Ready()
      && base.condition == Some(CreateCondition())
      && base.info.description == Some(InvokeDescription)
      && base.info.howToFix == Some(InvokeHowToFix)
      && base.info.standard == Some(AvailableActions)
    }

    /**
     * Wraps an already constructed base part. This is only the last step of
     * `New`, which establishes `Valid()` around it; it does not by itself.
     */
    constructor (base: Rule)
      ensures this.base == base
    {
      this.base := base;
    }

    /** CreateCondition: this rule applies to Hyperlinks (Buttons are handled elsewhere). */
    static function CreateCondition(): (c: Condition)
      ensures c.text == Hyperlink.text
      ensures forall e :: c.matches(e) <==> e.controlType == HyperlinkControlTypeId
    {
      Hyperlink
    }

    /**
     * The constructor: the base constructor runs first (and may throw), then
     * the description, the remediation text and the standard are set on the
     * published Info.
     */
    static method New(attrs: seq<Attribute>) returns (r: Result<ControlShouldSupportInvokePattern, Exception>)
      modifies FoundSet(attrs)
      ensures r.Failure? <==> FirstRuleInfo(attrs).None?
      ensures r.Failure? ==> r.error == MissingRuleInfo(TypeName)
      ensures r.Success? ==> fresh(r.value) && fresh(r.value.base) && r.value.Valid()
      ensures r.Success? ==> r.value.base.condition == Some(CreateCondition())
      ensures r.Success? ==> Some(r.value.base.info) == FirstRuleInfo(attrs)
      ensures r.Success? ==> r.value.base.Ready() && r.value.base.info.condition == Some(Hyperlink.text)
      ensures r.Success? ==> r.value.base.info.id == old(FirstRuleInfo(attrs).value.id)
      ensures r.Success? ==>
                r.value.base.info.description == Some(InvokeDescription) &&
                r.value.base.info.howToFix == Some(InvokeHowToFix) &&
                r.value.base.info.standard == Some(AvailableActions)
    {
      var made := NewRule(Some(CreateCondition()), TypeName, attrs);
      if made.Failure? {
        return Failure(made.error);
      }
      var rule := made.value;
      rule.info.description := Some(InvokeDescription);
      rule.info.howToFix := Some(InvokeHowToFix);
      rule.info.standard := Some(AvailableActions);
      var self := new ControlShouldSupportInvokePattern(rule);
      return Success(self);
    }

    /**
     * Evaluate: a null element throws ArgumentNull; otherwise Pass if the
     * element supports the Invoke pattern and Error if it does not.
     */
    function Evaluate(e: Option<Element>): (r: Result<EvaluationCode, Exception>)
      ensures e.None? <==> r.Failure?
      ensures e.None? ==> r.error == ArgumentNull("e")
      ensures e.Some? ==> (r.value == Pass <==> e.value.supportsInvoke)
      ensures e.Some? ==> (r.value == Pass || r.value == Error)
    {
      if e.None? then Failure(ArgumentNull("e"))
      else if InvokePattern.matches(e.value) then Success(Pass)
      else Success(Error)
    }

    /** PassesTest is not overridden: the base stub runs and throws. */
    method PassesTest(e: Option<Element>) returns (r: Result<bool, Exception>)
      ensures r == Failure(NotImplemented)
    {
      r := base.PassesTest(e);
    }
  }

  /** The attributes declared on the rule's type: `[RuleInfo(ID = ...)]`. */
  method DeclaredAttributes() returns (attrs: seq<Attribute>)
    ensures |attrs| == 1 && attrs[0].RuleInfoAttribute? && fresh(attrs[0].info)
    ensures attrs[0].info.id == RuleId.ControlShouldSupportInvokePattern
    ensures attrs[0].info.description == None && attrs[0].info.howToFix == None
    ensures attrs[0].info.standard == None && attrs[0].info.condition == None
  {
    var info := new RuleInfo(RuleId.ControlShouldSupportInvokePattern);
    attrs := [RuleInfoAttribute(info)];
  }

  /**
   * Instantiating the rule from its own declaration always succeeds, and
   * leaves Info holding this rule's identifier, texts, standard and the
   * Hyperlink condition's string.
   */
  method Instantiate() returns (r: Result<ControlShouldSupportInvokePattern, Exception>)
    ensures r.Success? && fresh(r.value) && fresh(r.value.base) && fresh(r.value.base.info)
    ensures r.value.Valid() && r.value.base.Ready()
    ensures r.value.base.condition == Some(ControlShouldSupportInvokePattern.CreateCondition())
    ensures r.value.base.info.id == RuleId.ControlShouldSupportInvokePattern
    ensures r.value.base.info.condition == Some(Hyperlink.text)
    ensures r.value.base.info.description == Some(InvokeDescription)
    ensures r.value.base.info.howToFix == Some(InvokeHowToFix)
    ensures r.value.base.info.standard == Some(AvailableActions)
  {
    var attrs := DeclaredAttributes();
    assert FirstRuleInfo(attrs) == Some(attrs[0].info);
    r := ControlShouldSupportInvokePattern.New(attrs);
  }

  /**
   * Evaluate consults neither the rule's condition nor the element's control
   * type: elements that agree on Invoke support get the same verdict.
   */
  lemma EvaluateIgnoresControlType(rule: ControlShouldSupportInvokePattern, a: Element, b: Element)
    requires a.supportsInvoke == b.supportsInvoke
    ensures rule.Evaluate(Some(a)) == rule.Evaluate(Some(b))
  {
  }

  /**
   * The condition a constructed rule stores, and exposes for pre-filtering,
   * admits exactly the Hyperlinks.
   */
  lemma RuleConditionIsHyperlink(rule: ControlShouldSupportInvokePattern, e: Element)
    requires rule.Valid()
    ensures rule.base.condition.Some?
    ensures rule.base.condition.value.matches(e) <==> e.controlType == HyperlinkControlTypeId
    ensures rule.base.info.condition == Some(rule.base.condition.value.text)
  {
  }

  /**
   * Scenarios for a constructed rule: a Hyperlink that supports Invoke
   * passes, one that does not fails. A Button without Invoke is outside the
   * rule's own condition, yet Evaluate still reports Error rather than
   * NotApplicable.
   */
  lemma EvaluateScenarios(rule: ControlShouldSupportInvokePattern)
    requires rule.Valid()
    ensures rule.base.condition.Some?
    ensures rule.base.condition.value.matches(Element(HyperlinkControlTypeId, true))
    ensures rule.Evaluate(Some(Element(HyperlinkControlTypeId, true))) == Success(Pass)
    ensures rule.base.condition.value.matches(Element(HyperlinkControlTypeId, false))
    ensures rule.Evaluate(Some(Element(HyperlinkControlTypeId, false))) == Success(Error)
    ensures !rule.base.condition.value.matches(Element(ButtonControlTypeId, false))
    ensures rule.Evaluate(Some(Element(ButtonControlTypeId, false))) == Success(Error)
  {
  }
}
