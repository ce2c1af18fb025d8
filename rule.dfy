/**
 * The rule base class: binding a rule's condition to its metadata record.
 * Constructing a rule obtains its condition, finds the RuleInfo attribute
 * declared on the rule's type, stamps the condition's string form into it,
 * and publishes it as the rule's Info.
 */
module Rules {
  import opened Bases

  /** Rule identifiers; only the one rule of this model is named. */
  datatype RuleId = ControlShouldSupportInvokePattern | OtherRuleId(name: string)

  /** Accessibility criteria a rule can refer to. */
  datatype Criterion = AvailableActions | OtherCriterion(name: string)

  /** A localised string, identified by its resource class and entry name. */
  datatype LocalizedText = Localized(resource: string, name: string)

  /**
   * The RuleInfo attribute, a mutable metadata record. Fields a declaration
   * leaves unset hold `None` (C#'s null, or the enum's default for Standard).
   */
  class RuleInfo {
    var id: RuleId
    var description: Option<LocalizedText>
    var howToFix: Option<LocalizedText>
    var standard: Option<Criterion>
    var condition: Option<string>

    /** `[RuleInfo(ID = id)]`: only the identifier is given. */
    constructor (id: RuleId)
      ensures this.id == id
      ensures description == None && howToFix == None
      ensures standard == None && condition == None
    {
      this.id := id;
      description, howToFix := None, None;
      standard, condition := None, None;
    }
  }

  /**
   * An attribute on a rule's type, tagged by its runtime type: exactly
   * `RuleInfo`, or anything else (which includes types derived from it,
   * since the search compares types exactly).
   */
  datatype Attribute = RuleInfoAttribute(info: RuleInfo) | OtherAttribute(typeName: string)

  /** The record of the first attribute whose type is exactly RuleInfo. */
  ghost function FirstRuleInfo(attrs: seq<Attribute>): Option<RuleInfo>
  {
    if attrs == [] then None
    else if attrs[0].RuleInfoAttribute? then Some(attrs[0].info)
    else FirstRuleInfo(attrs[1..])
  }

  /** The records that constructing a rule over `attrs` may change. */
  ghost function FoundSet(attrs: seq<Attribute>): set<RuleInfo>
  {
    match FirstRuleInfo(attrs)
    case None => {}
    case Some(info) => {info}
  }

  /**
   * FirstRuleInfo finds nothing exactly when no attribute is a RuleInfo,
   * and otherwise the record of a RuleInfo attribute with none before it.
   */
  lemma {:induction false} FirstRuleInfoIsFirst(attrs: seq<Attribute>)
    ensures FirstRuleInfo(attrs).None? <==>
              forall i :: 0 <= i < |attrs| ==> attrs[i].OtherAttribute?
    ensures FirstRuleInfo(attrs).Some? ==>
              exists k :: 0 <= k < |attrs| &&
                attrs[k] == RuleInfoAttribute(FirstRuleInfo(attrs).value) &&
                forall j :: 0 <= j < k ==> attrs[j].OtherAttribute?
  {
    if attrs != [] && attrs[0].OtherAttribute? {
      FirstRuleInfoIsFirst(attrs[1..]);
      if FirstRuleInfo(attrs).Some? {
        var k :| 0 < k + 1 <= |attrs[1..]| &&
                 attrs[1..][k] == RuleInfoAttribute(FirstRuleInfo(attrs).value) &&
                 forall j :: 0 <= j < k ==> attrs[1..][j].OtherAttribute?;
        assert attrs[k + 1] == attrs[1..][k];
        assert forall j :: 1 <= j < k + 1 ==> attrs[j] == attrs[1..][j - 1];
      } else {
        assert forall i :: 1 <= i < |attrs| ==> attrs[i] == attrs[1..][i - 1];
      }
    } else if attrs != [] {
      assert attrs[0] == RuleInfoAttribute(FirstRuleInfo(attrs).value);
    }
  }

  /**
   * GetRuleInfoFromAttributes: scan the attributes in order and return the
   * first one whose type is exactly RuleInfo, or null if there is none.
   */
  method GetRuleInfoFromAttributes(attrs: seq<Attribute>) returns (info: RuleInfo?)
    ensures info == null <==> FirstRuleInfo(attrs).None?
    ensures info != null ==> FirstRuleInfo(attrs) == Some(info)
  {
    for i := 0 to |attrs|
      invariant FirstRuleInfo(attrs) == FirstRuleInfo(attrs[i..])
    {
      assert attrs[i..][1..] == attrs[i + 1..];
      if attrs[i].RuleInfoAttribute? {
        return attrs[i].info;
      }
    }
    return null;
  }

  /**
   * The base part of every rule. `condition` is fixed when the object is
   * created; `info` stays null until InitRuleInfo publishes the record.
   */
  class Rule {
    const condition: Option<Condition>
    var info: RuleInfo?

    /** The published Info carries the string form of the stored Condition. */
    ghost predicate Ready()
      reads this, info
    {
      info != null && info.condition == ConditionText(condition)
    }

    /** First step of construction: `this.Condition = CreateCondition()`. */
    constructor (created: Option<Condition>)
      ensures condition == created && info == null
    {
      condition := created;
      info := null;
    }

    /**
     * Second step: find the RuleInfo attribute, fail if there is none,
     * otherwise stamp the condition's string into it and publish it.
     */
    method InitRuleInfo(typeName: string, attrs: seq<Attribute>) returns (thrown: Option<Exception>)
      requires info == null
      modifies this`info, FoundSet(attrs)
      ensures thrown.Some? <==> FirstRuleInfo(attrs).None?
      ensures thrown.Some? ==> thrown.value == MissingRuleInfo(typeName) && info == null
      ensures thrown.None? ==> Some(info) == FirstRuleInfo(attrs) && Ready()
      ensures thrown.None? ==>
                info.id == old(FirstRuleInfo(attrs).value.id) &&
                info.description == old(FirstRuleInfo(attrs).value.description) &&
                info.howToFix == old(FirstRuleInfo(attrs).value.howToFix) &&
                info.standard == old(FirstRuleInfo(attrs).value.standard)
    {
      var found := GetRuleInfoFromAttributes(attrs);
      if found == null {
        return Some(MissingRuleInfo(typeName));
      }
      FirstRuleInfoIsFirst(attrs);
      found.condition := ConditionText(condition);
      info := found;
      return None;
    }

    /** The base Evaluate is a stub: it always throws NotImplemented. */
    method Evaluate(e: Option<Element>) returns (r: Result<EvaluationCode, Exception>)
      ensures r == Failure(NotImplemented)
    {
      r := Failure(NotImplemented);
    }

    /** The base PassesTest is a stub: it always throws NotImplemented. */
    method PassesTest(e: Option<Element>) returns (r: Result<bool, Exception>)
      ensures r == Failure(NotImplemented)
    {
      r := Failure(NotImplemented);
    }
  }

  /**
   * The base constructor as a whole: set the condition the subclass built,
   * then initialise Info from the type's attributes. On failure the
   * half-built object never reaches the caller.
   */
  method NewRule(created: Option<Condition>, typeName: string, attrs: seq<Attribute>)
    returns (r: Result<Rule, Exception>)
    modifies FoundSet(attrs)
    ensures r.Failure? <==> FirstRuleInfo(attrs).None?
    ensures r.Failure? ==> r.error == MissingRuleInfo(typeName)
    ensures r.Success? ==> fresh(r.value) && r.value.condition == created
    ensures r.Success? ==> Some(r.value.info) == FirstRuleInfo(attrs) && r.value.Ready()
    ensures r.Success? ==> r.value.info.condition == ConditionText(created)
    ensures r.Success? ==>
              r.value.info.id == old(FirstRuleInfo(attrs).value.id) &&
              r.value.info.description == old(FirstRuleInfo(attrs).value.description) &&
              r.value.info.howToFix == old(FirstRuleInfo(attrs).value.howToFix) &&
              r.value.info.standard == old(FirstRuleInfo(attrs).value.standard)
  {
    FirstRuleInfoIsFirst(attrs);
    var rule := new Rule(created);
    var thrown := rule.InitRuleInfo(typeName, attrs);
    if thrown.Some? {
      return Failure(thrown.value);
    }
    return Success(rule);
  }
}
