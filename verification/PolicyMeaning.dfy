/** What a report says of each rule, in terms of the rule, its exception and the facts. */
module PolicyMeaning {
  import opened Text
  import opened DecimalNumber
  import opened JsonValue
  import opened Permutations
  import opened PolicyEvaluation

  // ---------------------------------------------------------------------
  // Conditions.
  // ---------------------------------------------------------------------

  /** The condition is true of a value: it denotes the same, it is no less, it is no more, it is not empty. */
  ghost predicate True(c: Condition, v: Json)
    requires Readable(c.expected) && WellFormed(v)
  {
    var w := c.expected;
    || (c.operator == Equals && w.Value? && Denote(v) == Denote(w.json))
    || (c.operator == AtLeast && w.Value? && v.Number? && w.json.Number? && v.n.Value() >= w.json.n.Value())
    || (c.operator == AtMost && w.Value? && v.Number? && w.json.Number? && v.n.Value() <= w.json.n.Value())
    || (c.operator == NonEmpty
        && ((v.Text? && |v.s| > 0) || (v.Array? && |v.items| > 0) || (v.Object? && |v.fields| > 0)))
  }

  predicate Bounds(c: Condition) {
    c.operator == AtLeast || c.operator == AtMost
  }

  /** A bound compares zero with a positive number below one, and is decided the wrong way. */
  ghost predicate Misjudged(c: Condition, v: Json)
    requires Readable(c.expected) && WellFormed(v)
  {
    && Bounds(c) && c.expected.Value? && c.expected.json.Number? && v.Number?
    && ZeroAgainstFraction(v.n.Value(), c.expected.json.n.Value())
  }

  /** The condition holds of a value as the evaluator sees it: when it is true, but for that one kind of pair. */
  ghost predicate Holds(c: Condition, v: Json)
    requires Readable(c.expected) && WellFormed(v)
  {
    if Misjudged(c, v) then !True(c, v) else True(c, v)
  }

  /** A bound between values that are not both numbers. */
  predicate NotComparable(c: Condition, v: Json) {
    Bounds(c) && !(v.Number? && c.expected.Value? && c.expected.json.Number?)
  }

  lemma MatchesWhenHolds(c: Condition, v: Json)
    requires ValidCondition(c) && Readable(c.expected) && WellFormed(v)
    ensures Matches(c, Value(v)) == if NotComparable(c, v) then Err(NotNumeric) else Ok(Holds(c, v))
  {
    hide JsonNumber.Value, JsonNumber.Valid, Denote, WellFormed;
    if c.operator == NonEmpty {
      NonEmptyHasContent(v);
    }
  }

  lemma NonEmptyHasContent(v: Json)
    ensures HasContent(v) <==> (v.Text? && |v.s| > 0) || (v.Array? && |v.items| > 0) || (v.Object? && |v.fields| > 0)
  {
  }

  // ---------------------------------------------------------------------
  // Facts.
  // ---------------------------------------------------------------------

  /** The value of a fact that was supplied and observed. */
  function ObservedValue(inputs: Inputs, name: string): Option<Json> {
    if name in inputs.facts && inputs.facts[name].state == Observed && inputs.facts[name].value.Value?
    then Some(inputs.facts[name].value.json) else None
  }

  predicate IsUnavailable(inputs: Inputs, name: string) {
    name in inputs.facts && inputs.facts[name].state == Unavailable
  }

  /** The evidence supplied with a fact; a fact that was not supplied has one note that says so. */
  predicate EvidenceOf(inputs: Inputs, name: string, evidence: seq<Evidence>) {
    if name in inputs.facts then evidence == inputs.facts[name].evidence
    else |evidence| == 1 && evidence[0].source == "posture-policy" && evidence[0].reference == name
  }

  lemma ValuesAreReadable(inputs: Inputs, name: string)
    requires ReadableInputs(inputs)
    ensures ObservedValue(inputs, name).Some? ==> WellFormed(ObservedValue(inputs, name).value)
  {
  }

  // ---------------------------------------------------------------------
  // One rule.
  // ---------------------------------------------------------------------

  ghost predicate HoldsOf(c: Condition, inputs: Inputs, name: string)
    requires Readable(c.expected) && ReadableInputs(inputs)
  {
    ValuesAreReadable(inputs, name);
    ObservedValue(inputs, name).Some? && Holds(c, ObservedValue(inputs, name).value)
  }

  predicate NotComparableOf(c: Condition, inputs: Inputs, name: string) {
    ObservedValue(inputs, name).Some? && NotComparable(c, ObservedValue(inputs, name).value)
  }

  /** A rule applies when it names no selector or its selector's fact meets applicable_when. */
  ghost predicate Applies(rule: Rule, inputs: Inputs)
    requires ReadableRule(rule) && ReadableInputs(inputs)
  {
    rule.applicability.None?
    || HoldsOf(rule.applicability.value.applicableWhen, inputs, rule.applicability.value.fact)
  }

  /** A rule is ruled out when its selector's fact meets not_applicable_when. */
  ghost predicate RuledOut(rule: Rule, inputs: Inputs)
    requires ReadableRule(rule) && ReadableInputs(inputs)
  {
    rule.applicability.Some?
    && HoldsOf(rule.applicability.value.notApplicableWhen, inputs, rule.applicability.value.fact)
  }

  /** A rule that cannot be decided: a bound on no number, or a selector that both applies and is ruled out. */
  ghost predicate Undecidable(rule: Rule, inputs: Inputs)
    requires ReadableRule(rule) && ReadableInputs(inputs)
  {
    || (rule.applicability.Some? && NotComparableOf(rule.applicability.value.applicableWhen, inputs,
                                                    rule.applicability.value.fact))
    || (rule.applicability.Some? && NotComparableOf(rule.applicability.value.notApplicableWhen, inputs,
                                                    rule.applicability.value.fact))
    || (rule.applicability.Some? && Applies(rule, inputs) && RuledOut(rule, inputs))
    || (Applies(rule, inputs) && NotComparableOf(rule.condition, inputs, rule.fact))
  }

  /** The status of a rule whose condition does not hold, before exceptions. */
  function Mismatch(rule: Rule): Status {
    if rule.severity == Informational then Warning else Fail
  }

  /** The exception is still in force, on its last day too. */
  predicate InForce(x: Exception, asOf: int) {
    x.expires.Date? && asOf < x.expires.day * DAY + DAY
  }

  /** The status of a rule that applies and whose fact was observed. */
  ghost predicate JudgedStatus(e: Evaluation, rule: Rule, inputs: Inputs, asOf: int, excuse: Option<Exception>)
    requires ReadableRule(rule) && ReadableInputs(inputs)
  {
    var holds := HoldsOf(rule.condition, inputs, rule.fact);
    && (e.status == Pass <==> holds)
    && (e.status == Excepted <==> !holds && excuse.Some? && InForce(excuse.value, asOf))
    && (e.status == Mismatch(rule) <==> !holds && !(excuse.Some? && InForce(excuse.value, asOf)))
    && e.exception == (if holds then None else excuse)
    && (e.exceptionGap != "" <==> !holds && excuse.Some? && !InForce(excuse.value, asOf))
  }

  /** What the evaluation of a rule that applies says. */
  ghost predicate AppliedSays(e: Evaluation, rule: Rule, inputs: Inputs, asOf: int, excuse: Option<Exception>)
    requires ReadableRule(rule) && ReadableInputs(inputs)
  {
    var observed := ObservedValue(inputs, rule.fact);
    && EvidenceOf(inputs, rule.fact, e.evidence)
    && e.observed == (if observed.Some? then Value(observed.value) else Absent)
    && (observed.Some? ==> JudgedStatus(e, rule, inputs, asOf, excuse))
    && (observed.None? ==>
          && e.status == (if IsUnavailable(inputs, rule.fact) then UnavailableStatus else UnknownStatus)
          && e.exception.None? && e.exceptionGap == "")
  }

  /** What the evaluation of a rule that does not apply says. */
  ghost predicate SkippedSays(e: Evaluation, rule: Rule, inputs: Inputs)
    requires ReadableRule(rule) && ReadableInputs(inputs) && rule.applicability.Some?
  {
    var name := rule.applicability.value.fact;
    && EvidenceOf(inputs, name, e.evidence) && e.observed == Absent && e.exception.None? && e.exceptionGap == ""
    && (e.status == NotApplicable <==> RuledOut(rule, inputs))
    && (e.status == UnavailableStatus <==> IsUnavailable(inputs, name))
    && (e.status == UnknownStatus <==> !RuledOut(rule, inputs) && !IsUnavailable(inputs, name))
  }

  /** The selector is recorded with its fact, its conditions and the decision they led to. */
  ghost predicate SelectorSays(e: Evaluation, rule: Rule, inputs: Inputs)
    requires ReadableRule(rule) && ReadableInputs(inputs) && rule.applicability.Some?
  {
    var s, a := rule.applicability.value, e.applicability;
    && a.Some? && a.value.fact == s.fact
    && a.value.applicableWhen == s.applicableWhen && a.value.notApplicableWhen == s.notApplicableWhen
    && EvidenceOf(inputs, s.fact, a.value.evidence)
    && var observed := ObservedValue(inputs, s.fact);
       && a.value.observed == (if observed.Some? then Value(observed.value) else Absent)
       && a.value.state == (if observed.Some? then Observed
                            else if IsUnavailable(inputs, s.fact) then Unavailable else Unknown)
       && a.value.decision == if observed.None?
                              then if IsUnavailable(inputs, s.fact) then DecidedUnavailable else DecidedUnknown
                              else if Applies(rule, inputs) then Applicable
                              else if RuledOut(rule, inputs) then DecidedNotApplicable
                              else Unresolved
  }

  /** An evaluation carries what its rule says of itself. */
  predicate Described(e: Evaluation, rule: Rule) {
    && e.ruleId == rule.id && e.area == rule.area && e.fact == rule.fact && e.severity == rule.severity
    && e.title == rule.title && e.expected == rule.condition.expected && e.remediation == rule.remediation
  }

  /** The whole evaluation of a rule. */
  ghost predicate Says(e: Evaluation, rule: Rule, inputs: Inputs, asOf: int, excuse: Option<Exception>)
    requires ReadableRule(rule) && ReadableInputs(inputs)
  {
    && Described(e, rule)
    && (if Applies(rule, inputs) then AppliedSays(e, rule, inputs, asOf, excuse) else SkippedSays(e, rule, inputs))
    && (if rule.applicability.Some? then SelectorSays(e, rule, inputs) else e.applicability.None?)
  }

  /** The rule's one exception, if the profile has one. */
  ghost predicate IsExcuse(p: Profile, rule: Rule, excuse: Option<Exception>) {
    match excuse
    case None => forall x :: x in p.exceptions ==> x.ruleId != rule.id
    case Some(x) => x in p.exceptions && x.ruleId == rule.id
  }

  // ---------------------------------------------------------------------
  // The evaluator says just that.
  // ---------------------------------------------------------------------

  /** A supplied fact of valid inputs is observed with a value, or unknown, or unavailable. */
  lemma FactOfInputs(inputs: Inputs, name: string)
    requires ValidInputs(inputs) && ReadableInputs(inputs)
    ensures var fact := InputFact(inputs, name);
            && CoherentFact(fact) && EvidenceOf(inputs, name, fact.evidence)
            && (fact.state == Observed <==> ObservedValue(inputs, name).Some?)
            && (fact.state == Observed ==> fact.value == Value(ObservedValue(inputs, name).value))
            && (fact.state == Unavailable <==> IsUnavailable(inputs, name))
            && (fact.state == Unknown <==> ObservedValue(inputs, name).None? && !IsUnavailable(inputs, name))
  {
    hide Blank;
    SuppliedFactIsValid(inputs, name);
    if name in inputs.facts {
      assert ValidFact(inputs.facts[name]);
    }
  }

  lemma ConditionOfFact(c: Condition, inputs: Inputs, name: string)
    requires ValidInputs(inputs) && ReadableInputs(inputs) && ValidCondition(c) && Readable(c.expected)
    requires ObservedValue(inputs, name).Some?
    ensures var fact := InputFact(inputs, name);
            Readable(fact.value)
            && Matches(c, fact.value) == if NotComparableOf(c, inputs, name) then Err(NotNumeric)
                                         else Ok(HoldsOf(c, inputs, name))
  {
    hide Matches, ValidInputs, Holds, NotComparable, InputFact, ValidCondition;
    ValuesAreReadable(inputs, name);
    FactOfInputs(inputs, name);
    MatchesWhenHolds(c, ObservedValue(inputs, name).value);
  }

  lemma SelectionSays(rule: Rule, inputs: Inputs)
    requires ReadableRule(rule) && ReadableInputs(inputs) && ValidInputs(inputs) && rule.applicability.Some?
    requires ValidApplicability(rule.applicability.value)
    ensures var s := rule.applicability.value;
            var fact := InputFact(inputs, s.fact);
            && Readable(fact.value)
            && var selection := Select(s, fact);
               && (selection.Err? <==>
                     || NotComparableOf(s.applicableWhen, inputs, s.fact)
                     || NotComparableOf(s.notApplicableWhen, inputs, s.fact)
                     || (Applies(rule, inputs) && RuledOut(rule, inputs)))
               && (selection.Ok? ==>
                     && (selection.value.applies <==> Applies(rule, inputs))
                     && (selection.value.status == NotApplicable <==> RuledOut(rule, inputs) && !Applies(rule, inputs))
                     && (!selection.value.applies ==>
                           && (selection.value.status == UnavailableStatus <==> IsUnavailable(inputs, s.fact))
                           && (selection.value.status == UnknownStatus <==>
                                 !RuledOut(rule, inputs) && !IsUnavailable(inputs, s.fact)))
                     && forall e: Evaluation :: e.applicability == Some(selection.value.evaluation) ==>
                          SelectorSays(e, rule, inputs))
  {
    hide Matches, ValidInputs, HoldsOf, NotComparableOf, InputFact, ValidCondition, EvidenceOf, ObservedValue,
         IsUnavailable, Readable;
    var s := rule.applicability.value;
    FactOfInputs(inputs, s.fact);
    NothingHoldsUnobserved(s.applicableWhen, inputs, s.fact);
    NothingHoldsUnobserved(s.notApplicableWhen, inputs, s.fact);
    if ObservedValue(inputs, s.fact).Some? {
      ConditionOfFact(s.applicableWhen, inputs, s.fact);
      ConditionOfFact(s.notApplicableWhen, inputs, s.fact);
    }
  }

  lemma NothingHoldsUnobserved(c: Condition, inputs: Inputs, name: string)
    requires Readable(c.expected) && ReadableInputs(inputs)
    ensures ObservedValue(inputs, name).None? ==> !HoldsOf(c, inputs, name) && !NotComparableOf(c, inputs, name)
    ensures !(IsUnavailable(inputs, name) && ObservedValue(inputs, name).Some?)
  {
  }

  /** An applicable rule is decided unless its bound is on no number. */
  lemma AppliedIsSaid(rule: Rule, applicability: Option<ApplicabilityEvaluation>, exceptions: map<string, Exception>,
                      inputs: Inputs, asOf: int)
    requires ReadableRule(rule) && ReadableInputs(inputs) && ValidInputs(inputs) && ValidCondition(rule.condition)
    ensures var fact := InputFact(inputs, rule.fact);
            var excuse := if rule.id in exceptions then Some(exceptions[rule.id]) else None;
            && Readable(fact.value)
            && var outcome := Applied(rule, applicability, exceptions, fact, asOf);
               && (outcome.Err? <==> NotComparableOf(rule.condition, inputs, rule.fact))
               && (outcome.Ok? ==>
                     && AppliedSays(outcome.value, rule, inputs, asOf, excuse)
                     && Described(outcome.value, rule) && outcome.value.applicability == applicability)
  {
    hide Matches, ValidInputs, HoldsOf, NotComparableOf, InputFact, ValidCondition, EvidenceOf, ObservedValue,
         IsUnavailable, Readable;
    FactOfInputs(inputs, rule.fact);
    NothingHoldsUnobserved(rule.condition, inputs, rule.fact);
    if ObservedValue(inputs, rule.fact).Some? {
      ConditionOfFact(rule.condition, inputs, rule.fact);
    }
  }

  /** What the evaluator says of a rule, or that the rule cannot be decided. */
  lemma OutcomeSays(rule: Rule, exceptions: map<string, Exception>, inputs: Inputs, asOf: int, version: int)
    requires ReadableRule(rule) && ReadableInputs(inputs) && ValidInputs(inputs) && ValidRule(rule, version)
    ensures var outcome := Outcome(rule, exceptions, inputs, asOf);
            var excuse := if rule.id in exceptions then Some(exceptions[rule.id]) else None;
            && (outcome.Err? <==> Undecidable(rule, inputs))
            && (outcome.Ok? ==> Says(outcome.value, rule, inputs, asOf, excuse))
  {
    hide Applied, Select, ValidInputs, HoldsOf, NotComparableOf, InputFact, ValidCondition, AppliedSays,
         SelectorSays, ObservedValue, IsUnavailable, Readable, Blank;
    if rule.applicability.None? {
      AppliedIsSaid(rule, None, exceptions, inputs, asOf);
    } else {
      var s := rule.applicability.value;
      FactOfInputs(inputs, s.fact);
      SelectionSays(rule, inputs);
      var selection := Select(s, InputFact(inputs, s.fact));
      if selection.Ok? {
        AppliedIsSaid(rule, Some(selection.value.evaluation), exceptions, inputs, asOf);
      }
    }
  }

  lemma ExcuseOfIndex(p: Profile, rule: Rule)
    requires ValidProfile(p)
    ensures var index := ExceptionIndex(p.exceptions);
            IsExcuse(p, rule, if rule.id in index then Some(index[rule.id]) else None)
  {
    hide ValidRule, IndexBy, Map, NoDuplicates;
    IndexOfDistinct(RuleOfException, p.exceptions);
  }

  /** Evaluation fails exactly when some rule cannot be decided. */
  lemma DecidedExactly(p: Profile, inputs: Inputs, asOf: int)
    requires ReadableProfile(p) && ReadableInputs(inputs) && ValidProfile(p) && ValidInputs(inputs)
    ensures AllDecided(p, inputs, asOf) <==> forall k :: 0 <= k < |p.rules| ==> !Undecidable(p.rules[k], inputs)
  {
    hide Outcome, ExceptionIndex, ValidRule, ValidInputs, Undecidable, Says;
    var outcomes := Outcomes(p, inputs, asOf);
    forall k | 0 <= k < |p.rules| ensures outcomes[k].Err? <==> Undecidable(p.rules[k], inputs) {
      OutcomeSays(p.rules[k], ExceptionIndex(p.exceptions), inputs, asOf, p.version);
    }
    if AllDecided(p, inputs, asOf) {
      forall k | 0 <= k < |p.rules| ensures outcomes[k].Ok? {
        assert outcomes[k] in outcomes;
      }
    }
  }

  /**
   * A report has exactly one evaluation of every rule, and it says whether the rule applies, whether its condition
   * holds of the observed fact, and what its exception makes of that.
   */
  lemma ReportSays(report: Report, p: Profile, inputs: Inputs, asOf: int, k: nat)
    returns (i: nat, excuse: Option<Exception>)
    requires ReadableProfile(p) && ReadableInputs(inputs) && ValidProfile(p) && ValidInputs(inputs)
    requires Reports(report, p, inputs, asOf) && k < |p.rules|
    ensures i < |report.evaluations| && IsExcuse(p, p.rules[k], excuse)
    ensures Says(report.evaluations[i], p.rules[k], inputs, asOf, excuse)
    ensures forall j :: 0 <= j < |report.evaluations| && report.evaluations[j].ruleId == p.rules[k].id ==> j == i
  {
    hide Outcome, ExceptionIndex, ValidRule, ValidInputs, AppliedSays, SkippedSays, SelectorSays, Applies, Sorted,
         IsExcuse, ValidException;
    var index, rule := ExceptionIndex(p.exceptions), p.rules[k];
    excuse := if rule.id in index then Some(index[rule.id]) else None;
    ExcuseOfIndex(p, rule);
    OutcomeSays(rule, index, inputs, asOf, p.version);
    ReportedRulesAreDecided(report, p, inputs, asOf);
    var accepted, outcomes := Map(Accept, report.evaluations), Outcomes(p, inputs, asOf);
    SameMembers(accepted, outcomes);
    assert outcomes[k] in outcomes && outcomes[k] in accepted;
    i :| 0 <= i < |accepted| && accepted[i] == outcomes[k];
    DistinctEvaluations(report, p, inputs, asOf);
  }

  /** A report names its profile, its repository and the day of its instant, and lists areas and rules in order. */
  lemma HeaderSays(report: Report, p: Profile, inputs: Inputs, asOf: int)
    requires ReadableProfile(p) && ReadableInputs(inputs) && ValidProfile(p) && ValidInputs(inputs)
    requires Reports(report, p, inputs, asOf)
    ensures report.kind == "repora.posture-report" && report.version == p.version
    ensures report.repository == inputs.repository && report.profileId == p.id
    ensures report.asOf.Date? ==> report.asOf.day * 86400 <= asOf < report.asOf.day * 86400 + 86400
    ensures |report.evaluations| == |p.rules|
    ensures forall i, j :: 0 <= i < j < |report.evaluations| ==>
              InOrder(report.evaluations[i], report.evaluations[j])
  {
    hide Outcome, ValidProfile, ValidInputs;
    SameMembers(Map(Accept, report.evaluations), Outcomes(p, inputs, asOf));
    DistinctEvaluations(report, p, inputs, asOf);
    forall i, j | 0 <= i < j < |report.evaluations|
      ensures InOrder(report.evaluations[i], report.evaluations[j]) {
      BeforeIsOrder(report.evaluations[i], report.evaluations[j], report.evaluations[i]);
    }
  }

  /** Areas in text order, and rules in text order within an area. */
  predicate InOrder(a: Evaluation, b: Evaluation) {
    CompareStrings(a.area, b.area) < 0 || (a.area == b.area && CompareStrings(a.ruleId, b.ruleId) < 0)
  }

  // ---------------------------------------------------------------------
  // What profiles, inputs and reports must hold.
  // ---------------------------------------------------------------------

  /** Comparisons expect a value and non_empty expects none. */
  lemma {:induction false} ConditionFields(x: Raw, name: string)
    ensures ValidCondition(Condition(Equals, x)) <==> x.Value?
    ensures ValidCondition(Condition(AtLeast, x)) <==> x.Value?
    ensures ValidCondition(Condition(AtMost, x)) <==> x.Value?
    ensures ValidCondition(Condition(NonEmpty, x)) <==> x == Absent
    ensures !ValidCondition(Condition(OtherOperator(name), x))
  {
  }

  /** A rule has an id, an area, a fact, a title, a condition and a known severity; only version 2 has selectors. */
  lemma {:induction false} RuleFields(r: Rule, version: int, x: string)
    requires ValidRule(r, version)
    ensures ValidRule(r.(id := x), version) <==> !Blank(x)
    ensures ValidRule(r.(area := x), version) <==> !Blank(x)
    ensures ValidRule(r.(fact := x), version) <==> !Blank(x)
    ensures ValidRule(r.(title := x), version) <==> !Blank(x)
    ensures ValidRule(r.(remediation := [x]), version) <==> !Blank(x)
    ensures !ValidRule(r.(severity := OtherSeverity(x)), version)
    ensures forall c :: ValidRule(r.(condition := c), version) <==> ValidCondition(c)
    ensures forall a :: ValidRule(r.(applicability := Some(a)), version) <==>
              version == 2 && !Blank(a.fact) && ValidCondition(a.applicableWhen) && ValidCondition(a.notApplicableWhen)
  {
    hide Blank, ValidCondition;
    var reworded := r.(remediation := [x]);
    if ValidRule(reworded, version) {
      assert reworded.remediation[0] == x;
    }
  }

  /**
   * A profile has distinct rules, and distinct exceptions with a reason, an owner and a day, each of one of the
   * rules; and that is all it needs.
   */
  lemma {:induction false} ProfileExactly(p: Profile)
    ensures ValidProfile(p) <==>
              && p.kind == "repora.posture-policy-profile" && p.version in {1, 2} && !Blank(p.id)
              && (forall i :: 0 <= i < |p.rules| ==> ValidRule(p.rules[i], p.version))
              && (forall i, j :: 0 <= i < j < |p.rules| ==> p.rules[i].id != p.rules[j].id)
              && (forall i :: 0 <= i < |p.exceptions| ==> OfSomeRule(p, p.exceptions[i]))
              && (forall i, j :: 0 <= i < j < |p.exceptions| ==> p.exceptions[i].ruleId != p.exceptions[j].ruleId)
  {
    hide Blank, ValidRule, Map;
    var rules, exceptions := RuleIds(p.rules), ExceptionIds(p.exceptions);
    assert |rules| == |p.rules| && forall i :: 0 <= i < |p.rules| ==> rules[i] == p.rules[i].id;
    assert |exceptions| == |p.exceptions|
           && forall i :: 0 <= i < |p.exceptions| ==> exceptions[i] == p.exceptions[i].ruleId;
    forall i | 0 <= i < |p.exceptions|
      ensures p.exceptions[i].ruleId in rules <==> exists k :: 0 <= k < |p.rules| && p.rules[k].id == exceptions[i] {
      assert exceptions[i] in exceptions;
      if k :| 0 <= k < |p.rules| && p.rules[k].id == exceptions[i] {
        assert rules[k] in rules;
      }
    }
  }

  /** An exception of one of the rules, with a reason, an owner and a day. */
  predicate OfSomeRule(p: Profile, x: Exception) {
    && !Blank(x.reason) && !Blank(x.owner) && x.expires.Date?
    && exists k :: 0 <= k < |p.rules| && p.rules[k].id == x.ruleId
  }

  /**
   * Inputs name a repository and facts; an observed fact has a value, any other has none, and evidence has a source.
   */
  lemma {:induction false} InputFields(inputs: Inputs, x: string, name: string)
    requires ValidInputs(inputs) && name in inputs.facts
    ensures ValidInputs(inputs.(kind := x)) <==> x == "repora.posture-policy-inputs"
    ensures ValidInputs(inputs.(repository := x)) <==> !Blank(x)
    ensures forall v :: ValidInputs(inputs.(version := v)) <==> v == 1
    ensures !Blank(name)
    ensures var fact := inputs.facts[name];
            && (fact.state == Observed ==> fact.value.Value?)
            && (fact.state == Unknown || fact.state == Unavailable ==> fact.value == Absent)
            && !fact.state.OtherState?
            && forall e :: e in fact.evidence ==> !Blank(e.source) && !Blank(e.reference)
  {
    hide Blank;
    assert ValidFact(inputs.facts[name]);
  }

  /** An evaluation names rule, area, fact and title, and carries a whole exception of its own rule, if any. */
  lemma {:induction false} EvaluationFields(e: Evaluation, version: int, x: string)
    requires ValidEvaluation(e, version)
    ensures ValidEvaluation(e.(area := x), version) <==> !Blank(x)
    ensures ValidEvaluation(e.(fact := x), version) <==> !Blank(x)
    ensures ValidEvaluation(e.(title := x), version) <==> !Blank(x)
    ensures ValidEvaluation(e.(ruleId := x), version) <==> !Blank(x) && (e.exception.Some? ==> x == e.ruleId)
    ensures !ValidEvaluation(e.(severity := OtherSeverity(x)), version)
    ensures !ValidEvaluation(e.(expected := Malformed), version) && !ValidEvaluation(e.(observed := Malformed), version)
    ensures e.exception.Some? ==>
              && e.exception.value.ruleId == e.ruleId && e.exception.value.expires.Date?
              && !Blank(e.exception.value.reason) && !Blank(e.exception.value.owner)
    ensures e.applicability.Some? ==> version != 1
    ensures e.status == NotApplicable ==>
              version == 2 && e.applicability.Some? && e.applicability.value.decision == DecidedNotApplicable
  {
    hide Blank, ValidApplicabilityEvaluation;
  }

  /** A recorded selector has its conditions, and a decision its fact's state allows. */
  lemma {:induction false} SelectorFields(a: ApplicabilityEvaluation, x: string)
    requires ValidApplicabilityEvaluation(a)
    ensures ValidApplicabilityEvaluation(a.(fact := x)) <==> !Blank(x)
    ensures forall c :: ValidApplicabilityEvaluation(a.(applicableWhen := c)) <==> ValidCondition(c)
    ensures forall c :: ValidApplicabilityEvaluation(a.(notApplicableWhen := c)) <==> ValidCondition(c)
    ensures !ValidApplicabilityEvaluation(a.(state := OtherState(x)))
    ensures forall d :: ValidApplicabilityEvaluation(a.(decision := d)) <==>
              if a.state == Observed then d in {Applicable, DecidedNotApplicable, Unresolved} else d == a.decision
    ensures a.observed.Value? <==> a.state == Observed
    ensures a.observed == Absent <==> a.state == Unknown || a.state == Unavailable
  {
    hide Blank, ValidCondition;
  }

  /** A report has a kind, a version, a repository, a profile, a day, and one valid evaluation for each rule. */
  lemma {:induction false} ReportFields(r: Report, x: string)
    requires ValidReport(r)
    ensures ValidReport(r.(kind := x)) <==> x == "repora.posture-report"
    ensures ValidReport(r.(repository := x)) <==> !Blank(x)
    ensures ValidReport(r.(profileId := x)) <==> !Blank(x)
    ensures forall d :: ValidReport(r.(asOf := d)) <==> d.Date?
    ensures forall v :: v !in {1, 2} ==> !ValidReport(r.(version := v))
    ensures forall e :: e in r.evaluations ==> ValidEvaluation(e, r.version)
    ensures forall i, j :: 0 <= i < j < |r.evaluations| ==> r.evaluations[i].ruleId != r.evaluations[j].ruleId
  {
    hide Blank, ValidEvaluation;
  }
}
