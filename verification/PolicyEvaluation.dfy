/** Evaluation of normalized facts against a policy profile, and the report it yields. */
module PolicyEvaluation {
  import opened Text
  import opened DecimalNumber
  import opened JsonValue
  import opened Permutations

  const PROFILE_KIND := "repora.posture-policy-profile"
  const INPUTS_KIND := "repora.posture-policy-inputs"
  const REPORT_KIND := "repora.posture-report"

  // Days count from 1970-01-01; an instant counts seconds.
  const DAY := 86400
  const FIRST_DATE := -719528 // 0000-01-01
  const LAST_DATE := 2932896 // 9999-12-31

  /** A date text is a day, or does not parse as YYYY-MM-DD. */
  datatype DateText = Unparsable | Date(day: int)

  datatype Severity = Critical | High | Medium | Low | Informational | OtherSeverity(name: string)

  datatype Operator = Equals | AtLeast | AtMost | NonEmpty | OtherOperator(name: string)

  /** A raw JSON field: left out, not JSON, or a value. */
  datatype Raw = Absent | Malformed | Value(json: Json)

  datatype Condition = Condition(operator: Operator, expected: Raw)

  datatype RuleApplicability =
    RuleApplicability(fact: string, applicableWhen: Condition, notApplicableWhen: Condition)

  datatype Rule = Rule(
    id: string, applicability: Option<RuleApplicability>, area: string, fact: string, condition: Condition,
    severity: Severity, title: string, remediation: seq<string>)

  datatype Exception = Exception(ruleId: string, reason: string, owner: string, expires: DateText)

  datatype Profile = Profile(kind: string, version: int, id: string, rules: seq<Rule>, exceptions: seq<Exception>)

  datatype FactState = Observed | Unknown | Unavailable | OtherState(name: string)

  datatype Evidence = Evidence(source: string, reference: string, detail: string)

  datatype FactInput = FactInput(state: FactState, value: Raw, evidence: seq<Evidence>)

  datatype Inputs = Inputs(kind: string, version: int, repository: string, facts: map<string, FactInput>)

  datatype Status = Pass | Fail | Warning | Excepted | NotApplicable | UnknownStatus | UnavailableStatus

  datatype Decision = Applicable | DecidedNotApplicable | Unresolved | DecidedUnknown | DecidedUnavailable

  datatype ApplicabilityEvaluation = ApplicabilityEvaluation(
    fact: string, state: FactState, decision: Decision, observed: Raw, evidence: seq<Evidence>,
    applicableWhen: Condition, notApplicableWhen: Condition)

  datatype Evaluation = Evaluation(
    ruleId: string, area: string, fact: string, severity: Severity, status: Status, title: string,
    expected: Raw, observed: Raw, evidence: seq<Evidence>, remediation: seq<string>,
    applicability: Option<ApplicabilityEvaluation>, exception: Option<Exception>, exceptionGap: string)

  datatype Report = Report(
    kind: string, version: int, repository: string, profileId: string, asOf: DateText, evaluations: seq<Evaluation>)

  datatype EvaluationError =
    | InvalidProfile
    | InvalidInputs
    | Undecodable
    | NotNumeric
    | UnsupportedOperator
    | UnsupportedState
    | Ambiguous

  // ---------------------------------------------------------------------
  // Validation of what is read and of what is written.
  // ---------------------------------------------------------------------

  /** The numbers of a raw value are spelled as JSON asks. */
  predicate Readable(raw: Raw) {
    raw.Value? ==> WellFormed(raw.json)
  }

  predicate ValidCondition(c: Condition) {
    match c.operator
    case Equals => c.expected.Value?
    case AtLeast => c.expected.Value?
    case AtMost => c.expected.Value?
    case NonEmpty => c.expected.Absent?
    case OtherOperator(_) => false
  }

  predicate ValidApplicability(a: RuleApplicability) {
    !Blank(a.fact) && ValidCondition(a.applicableWhen) && ValidCondition(a.notApplicableWhen)
  }

  predicate ValidRule(r: Rule, profileVersion: int) {
    && !Blank(r.id) && !Blank(r.area) && !Blank(r.fact) && !Blank(r.title)
    && ValidCondition(r.condition)
    && (r.applicability.Some? ==> profileVersion == 2 && ValidApplicability(r.applicability.value))
    && !r.severity.OtherSeverity?
    && (forall i :: 0 <= i < |r.remediation| ==> !Blank(r.remediation[i]))
  }

  predicate ValidException(e: Exception) {
    !Blank(e.reason) && !Blank(e.owner) && e.expires.Date?
  }

  function IdOfRule(r: Rule): string {
    r.id
  }

  function RuleOfException(e: Exception): string {
    e.ruleId
  }

  function RuleIds(rules: seq<Rule>): seq<string> {
    Map(IdOfRule, rules)
  }

  function ExceptionIds(exceptions: seq<Exception>): seq<string> {
    Map(RuleOfException, exceptions)
  }

  predicate ValidProfile(p: Profile) {
    && p.kind == PROFILE_KIND && (p.version == 1 || p.version == 2)
    && !Blank(p.id)
    && (forall i :: 0 <= i < |p.rules| ==> ValidRule(p.rules[i], p.version))
    && NoDuplicates(RuleIds(p.rules))
    && (forall i :: 0 <= i < |p.exceptions| ==> ValidException(p.exceptions[i]))
    && NoDuplicates(ExceptionIds(p.exceptions))
    && (forall id :: id in ExceptionIds(p.exceptions) ==> id in RuleIds(p.rules))
  }

  predicate ValidFact(fact: FactInput) {
    && match fact.state {
         case Observed => fact.value.Value?
         case Unknown => fact.value.Absent?
         case Unavailable => fact.value.Absent?
         case OtherState(_) => false
       }
    && forall i :: 0 <= i < |fact.evidence| ==> !Blank(fact.evidence[i].source) && !Blank(fact.evidence[i].reference)
  }

  predicate ValidInputs(inputs: Inputs) {
    && inputs.kind == INPUTS_KIND && inputs.version == 1
    && !Blank(inputs.repository)
    && forall name :: name in inputs.facts ==> !Blank(name) && ValidFact(inputs.facts[name])
  }

  predicate ValidApplicabilityEvaluation(a: ApplicabilityEvaluation) {
    && !Blank(a.fact) && ValidCondition(a.applicableWhen) && ValidCondition(a.notApplicableWhen)
    && match a.state
       case Observed =>
         a.observed.Value? && (a.decision == Applicable || a.decision == DecidedNotApplicable
                               || a.decision == Unresolved)
       case Unknown => a.observed.Absent? && a.decision == DecidedUnknown
       case Unavailable => a.observed.Absent? && a.decision == DecidedUnavailable
       case OtherState(_) => false
  }

  predicate ValidEvaluation(e: Evaluation, reportVersion: int) {
    && !Blank(e.ruleId) && !Blank(e.area) && !Blank(e.fact) && !Blank(e.title)
    && !e.severity.OtherSeverity?
    && (e.status == NotApplicable ==>
          && reportVersion == 2
          && e.applicability.Some? && e.applicability.value.decision == DecidedNotApplicable)
    && (e.applicability.Some? ==> reportVersion != 1 && ValidApplicabilityEvaluation(e.applicability.value))
    && !e.expected.Malformed? && !e.observed.Malformed?
    && (e.exception.Some? ==>
          && e.exception.value.ruleId == e.ruleId
          && !Blank(e.exception.value.reason) && !Blank(e.exception.value.owner)
          && e.exception.value.expires.Date?)
  }

  predicate ValidReport(r: Report) {
    && r.kind == REPORT_KIND && (r.version == 1 || r.version == 2)
    && !Blank(r.repository) && !Blank(r.profileId)
    && r.asOf.Date?
    && (forall i :: 0 <= i < |r.evaluations| ==> ValidEvaluation(r.evaluations[i], r.version))
    && (forall i, j :: 0 <= i < j < |r.evaluations| ==> r.evaluations[i].ruleId != r.evaluations[j].ruleId)
  }

  /** Formatting an instant as YYYY-MM-DD; years of other widths do not parse back. */
  function FormatDate(asOf: int): DateText {
    if FIRST_DATE <= asOf / DAY <= LAST_DATE then Date(asOf / DAY) else Unparsable
  }

  predicate ReadableInputs(inputs: Inputs) {
    forall name :: name in inputs.facts ==> Readable(inputs.facts[name].value)
  }

  predicate ReadableRule(r: Rule) {
    && Readable(r.condition.expected)
    && (r.applicability.Some? ==>
          && Readable(r.applicability.value.applicableWhen.expected)
          && Readable(r.applicability.value.notApplicableWhen.expected))
  }

  predicate ReadableProfile(p: Profile) {
    forall i :: 0 <= i < |p.rules| ==> ReadableRule(p.rules[i])
  }

  // ---------------------------------------------------------------------
  // Conditions.
  // ---------------------------------------------------------------------

  /** What a condition means for an observed value. */
  ghost function Matches(c: Condition, observed: Raw): Result<bool, EvaluationError>
    requires Readable(c.expected) && Readable(observed)
  {
    match c.operator
    case Equals =>
      if observed.Value? && c.expected.Value? then Ok(Denote(observed.json) == Denote(c.expected.json))
      else Err(Undecodable)
    case AtLeast => NumericMatch(c, observed)
    case AtMost => NumericMatch(c, observed)
    case NonEmpty =>
      if !observed.Value? then Err(Undecodable) else Ok(HasContent(observed.json))
    case OtherOperator(_) => Err(UnsupportedOperator)
  }

  ghost function NumericMatch(c: Condition, observed: Raw): Result<bool, EvaluationError>
    requires Readable(c.expected) && Readable(observed)
  {
    if !observed.Value? || !c.expected.Value? then Err(Undecodable)
    else if !observed.json.Number? || !c.expected.json.Number? then Err(NotNumeric)
    else
      var comparison := Compared(observed.json.n.Value(), c.expected.json.n.Value());
      Ok(if c.operator == AtLeast then comparison >= 0 else comparison <= 0)
  }

  predicate HasContent(j: Json) {
    match j
    case Text(s) => s != ""
    case Array(items) => items != []
    case Object(fields) => fields != map[]
    case _ => false
  }

  method MatchesCondition(c: Condition, observed: Raw) returns (r: Result<bool, EvaluationError>)
    requires Readable(c.expected) && Readable(observed)
    ensures r == Matches(c, observed)
  {
    hide JsonNumber.Value, JsonNumber.Print, JsonNumber.Valid, Parseable;
    if c.operator.Equals? {
      if !observed.Value? || !c.expected.Value? {
        return Err(Undecodable);
      }
      var equal := EqualJsonValue(observed.json, c.expected.json);
      return Ok(equal);
    } else if c.operator.AtLeast? || c.operator.AtMost? {
      var comparison := CompareJsonNumbers(observed, c.expected);
      if comparison.Err? {
        return Err(comparison.error);
      }
      return Ok(if c.operator == AtLeast then comparison.value >= 0 else comparison.value <= 0);
    } else if c.operator.NonEmpty? {
      if !observed.Value? {
        return Err(Undecodable);
      }
      return Ok(HasContent(observed.json));
    }
    return Err(UnsupportedOperator);
  }

  method CompareJsonNumbers(observed: Raw, expected: Raw) returns (r: Result<int, EvaluationError>)
    requires Readable(observed) && Readable(expected)
    ensures !observed.Value? || !expected.Value? ==> r == Err(Undecodable)
    ensures observed.Value? && expected.Value? && !(observed.json.Number? && expected.json.Number?) ==>
              r == Err(NotNumeric)
    ensures observed.Value? && expected.Value? && observed.json.Number? && expected.json.Number? ==>
              r == Ok(Compared(observed.json.n.Value(), expected.json.n.Value()))
  {
    hide JsonNumber.Value, JsonNumber.Print, JsonNumber.Valid, Parseable;
    if !observed.Value? || !expected.Value? {
      return Err(Undecodable);
    }
    if !observed.json.Number? || !expected.json.Number? {
      return Err(NotNumeric);
    }
    var l, n := observed.json.n, expected.json.n;
    var comparison := CompareNumberStrings(l.Print(), n.Print());
    assert comparison == Ok(Compared(l.Value(), n.Value()));
    return Ok(comparison.value);
  }

  /** On numbers, both bounds hold exactly when equality does. */
  lemma BothBoundsAreEquality(observed: Json, expected: Json)
    requires observed.Number? && expected.Number? && WellFormed(observed) && WellFormed(expected)
    ensures var holds := (op: Operator) => Matches(Condition(op, Value(expected)), Value(observed)) == Ok(true);
            holds(Equals) <==> holds(AtLeast) && holds(AtMost)
  {
    hide JsonNumber.Value;
  }

  /** at_least means "not below", unless zero meets a positive number below one; then it means the opposite. */
  lemma AtLeastMeansNotBelow(observed: Json, expected: Json)
    requires observed.Number? && expected.Number? && WellFormed(observed) && WellFormed(expected)
    ensures var x, y := observed.n.Value(), expected.n.Value();
            Matches(Condition(AtLeast, Value(expected)), Value(observed)) == Ok(x >= y) <==> !ZeroAgainstFraction(x, y)
  {
    hide JsonNumber.Value;
  }

  /** One half is not "at least zero" to the evaluator. */
  lemma HalfFailsAtLeastZero()
    ensures Matches(Condition(AtLeast, Value(Number(ZERO))), Value(Number(HALF))) == Ok(false)
  {
    hide JsonNumber.Value, JsonNumber.Valid;
    ZeroAndHalf();
  }

  // ---------------------------------------------------------------------
  // One rule.
  // ---------------------------------------------------------------------

  function InputFact(inputs: Inputs, name: string): FactInput {
    if name in inputs.facts then inputs.facts[name]
    else FactInput(Unknown, Absent,
                   [Evidence("posture-policy", name, "normalized fact was not supplied to the convergence layer")])
  }

  function NewEvaluation(rule: Rule, evidence: seq<Evidence>, status: Status): Evaluation {
    Evaluation(rule.id, rule.area, rule.fact, rule.severity, status, rule.title, rule.condition.expected, Absent,
               evidence, rule.remediation, None, None, "")
  }

  /** The applicability record, whether the rule applies, and the status when it does not. */
  datatype Selection = Selection(evaluation: ApplicabilityEvaluation, applies: bool, status: Status)

  function Record(selector: RuleApplicability, fact: FactInput, decision: Decision,
                  observed: Raw): ApplicabilityEvaluation {
    ApplicabilityEvaluation(selector.fact, fact.state, decision, observed, fact.evidence,
                            selector.applicableWhen, selector.notApplicableWhen)
  }

  ghost function Select(selector: RuleApplicability, fact: FactInput): Result<Selection, EvaluationError>
    requires Readable(selector.applicableWhen.expected) && Readable(selector.notApplicableWhen.expected)
    requires Readable(fact.value)
  {
    match fact.state
    case Unknown => Ok(Selection(Record(selector, fact, DecidedUnknown, Absent), false, UnknownStatus))
    case Unavailable => Ok(Selection(Record(selector, fact, DecidedUnavailable, Absent), false, UnavailableStatus))
    case OtherState(_) => Err(UnsupportedState)
    case Observed =>
      var applies, not := Matches(selector.applicableWhen, fact.value), Matches(selector.notApplicableWhen, fact.value);
      if applies.Err? then Err(applies.error)
      else if not.Err? then Err(not.error)
      else if applies.value && not.value then Err(Ambiguous)
      else if applies.value then Ok(Selection(Record(selector, fact, Applicable, fact.value), true, Pass))
      else if not.value
           then Ok(Selection(Record(selector, fact, DecidedNotApplicable, fact.value), false, NotApplicable))
      else Ok(Selection(Record(selector, fact, Unresolved, fact.value), false, UnknownStatus))
  }

  method EvaluateApplicability(selector: RuleApplicability, fact: FactInput)
    returns (r: Result<Selection, EvaluationError>)
    requires Readable(selector.applicableWhen.expected) && Readable(selector.notApplicableWhen.expected)
    requires Readable(fact.value)
    ensures r == Select(selector, fact)
  {
    hide Matches;
    var evaluation := ApplicabilityEvaluation(selector.fact, fact.state, Unresolved, Absent, fact.evidence,
                                              selector.applicableWhen, selector.notApplicableWhen);
    match fact.state
    case Unknown => return Ok(Selection(evaluation.(decision := DecidedUnknown), false, UnknownStatus));
    case Unavailable => return Ok(Selection(evaluation.(decision := DecidedUnavailable), false, UnavailableStatus));
    case OtherState(_) => return Err(UnsupportedState);
    case Observed =>
      evaluation := evaluation.(observed := fact.value);
      var applies := MatchesCondition(selector.applicableWhen, fact.value);
      if applies.Err? {
        return Err(applies.error);
      }
      var notApplicable := MatchesCondition(selector.notApplicableWhen, fact.value);
      if notApplicable.Err? {
        return Err(notApplicable.error);
      }
      if applies.value && notApplicable.value {
        return Err(Ambiguous);
      }
      if applies.value {
        return Ok(Selection(evaluation.(decision := Applicable), true, Pass));
      }
      if notApplicable.value {
        return Ok(Selection(evaluation.(decision := DecidedNotApplicable), false, NotApplicable));
      }
      return Ok(Selection(evaluation.(decision := Unresolved), false, UnknownStatus));
  }

  /** The status of an applicable rule against its fact. */
  ghost function Judge(rule: Rule, fact: FactInput): Result<Status, EvaluationError>
    requires Readable(rule.condition.expected) && Readable(fact.value)
  {
    match fact.state
    case Unknown => Ok(UnknownStatus)
    case Unavailable => Ok(UnavailableStatus)
    case OtherState(_) => Err(UnsupportedState)
    case Observed =>
      var matched := Matches(rule.condition, fact.value);
      if matched.Err? then Err(matched.error)
      else if matched.value then Ok(Pass)
      else if rule.severity == Informational then Ok(Warning)
      else Ok(Fail)
  }

  method EvaluateRule(rule: Rule, fact: FactInput) returns (r: Result<Evaluation, EvaluationError>)
    requires Readable(rule.condition.expected) && Readable(fact.value)
    ensures var judged := Judge(rule, fact);
            r == if judged.Err? then Err(judged.error)
                 else Ok(NewEvaluation(rule, fact.evidence, judged.value)
                         .(observed := if fact.state == Observed then fact.value else Absent))
  {
    hide Matches;
    var evaluation := NewEvaluation(rule, fact.evidence, Pass);
    match fact.state
    case Unknown => return Ok(evaluation.(status := UnknownStatus));
    case Unavailable => return Ok(evaluation.(status := UnavailableStatus));
    case OtherState(_) => return Err(UnsupportedState);
    case Observed =>
      evaluation := evaluation.(observed := fact.value);
      var matched := MatchesCondition(rule.condition, fact.value);
      if matched.Err? {
        return Err(matched.error);
      }
      if matched.value {
        evaluation := evaluation.(status := Pass);
      } else if rule.severity == Informational {
        evaluation := evaluation.(status := Warning);
      } else {
        evaluation := evaluation.(status := Fail);
      }
      return Ok(evaluation);
  }

  predicate IsMismatch(status: Status) {
    status == Fail || status == Warning
  }

  /** An exception covers the whole of its expiry day, in UTC. */
  predicate StillExcepted(e: Exception, asOf: int) {
    e.expires.Date? && asOf < (e.expires.day + 1) * DAY
  }

  function ApplyException(evaluation: Evaluation, exceptions: map<string, Exception>, asOf: int): Evaluation {
    if evaluation.ruleId in exceptions && IsMismatch(evaluation.status) then
      var exception := exceptions[evaluation.ruleId];
      var marked := evaluation.(exception := Some(exception));
      if StillExcepted(exception, asOf) then marked.(status := Excepted)
      else marked.(exceptionGap := "exception expired")
    else evaluation
  }

  /** The evaluation of a rule that applies. */
  ghost function Applied(rule: Rule, applicability: Option<ApplicabilityEvaluation>, exceptions: map<string, Exception>,
                         fact: FactInput, asOf: int): Result<Evaluation, EvaluationError>
    requires Readable(rule.condition.expected) && Readable(fact.value)
  {
    var judged := Judge(rule, fact);
    if judged.Err? then Err(judged.error)
    else
      var observed := if fact.state == Observed then fact.value else Absent;
      Ok(ApplyException(
           NewEvaluation(rule, fact.evidence, judged.value).(observed := observed, applicability := applicability),
           exceptions, asOf))
  }

  /** What the report says of one rule, from that rule, its exception and the facts alone. */
  ghost function Outcome(rule: Rule, exceptions: map<string, Exception>, inputs: Inputs,
                         asOf: int): Result<Evaluation, EvaluationError>
    requires ReadableRule(rule) && ReadableInputs(inputs)
  {
    var fact := InputFact(inputs, rule.fact);
    if rule.applicability.None? then Applied(rule, None, exceptions, fact, asOf)
    else
      var selectorFact := InputFact(inputs, rule.applicability.value.fact);
      var selection := Select(rule.applicability.value, selectorFact);
      if selection.Err? then Err(selection.error)
      else if selection.value.applies then Applied(rule, Some(selection.value.evaluation), exceptions, fact, asOf)
      else
        Ok(NewEvaluation(rule, selectorFact.evidence,
                         selection.value.status).(applicability := Some(selection.value.evaluation)))
  }

  /** A valid rule on valid facts yields a valid evaluation, under the report version of its profile. */
  lemma OutcomeIsValid(rule: Rule, exceptions: map<string, Exception>, inputs: Inputs, asOf: int, version: int)
    requires ReadableRule(rule) && ReadableInputs(inputs)
    requires ValidRule(rule, version) && ValidInputs(inputs) && (version == 1 || version == 2)
    requires rule.id in exceptions ==> ValidException(exceptions[rule.id]) && exceptions[rule.id].ruleId == rule.id
    ensures var outcome := Outcome(rule, exceptions, inputs, asOf);
            outcome.Ok? ==>
              outcome.value.ruleId == rule.id && outcome.value.area == rule.area
                && ValidEvaluation(outcome.value, version)
  {
    hide Matches, Blank, Applied, Select, CoherentFact, ValidEvaluation, ValidInputs, ReadableInputs, ValidException,
         NewEvaluation, ValidApplicabilityEvaluation, Readable, ValidCondition, ValidApplicability;
    SuppliedFactIsValid(inputs, rule.fact);
    if rule.applicability.None? {
      AppliedIsValid(rule, None, exceptions, InputFact(inputs, rule.fact), asOf, version);
    } else {
      var selectorFact := InputFact(inputs, rule.applicability.value.fact);
      SuppliedFactIsValid(inputs, rule.applicability.value.fact);
      SelectionIsValid(rule.applicability.value, selectorFact);
      var selection := Select(rule.applicability.value, selectorFact);
      if selection.Ok? {
        AppliedIsValid(rule, Some(selection.value.evaluation), exceptions, InputFact(inputs, rule.fact), asOf, version);
        UnappliedIsValid(rule, selectorFact, version);
      }
    }
  }

  lemma UnappliedIsValid(rule: Rule, fact: FactInput, version: int)
    requires ValidRule(rule, version) && (version == 1 || version == 2) && rule.applicability.Some?
    requires CoherentFact(fact)
    requires Readable(rule.applicability.value.applicableWhen.expected)
    requires Readable(rule.applicability.value.notApplicableWhen.expected)
    ensures var selection := Select(rule.applicability.value, fact);
            selection.Ok? && !selection.value.applies ==>
              var evaluation :=
                NewEvaluation(rule, fact.evidence,
                              selection.value.status).(applicability := Some(selection.value.evaluation));
              evaluation.ruleId == rule.id && evaluation.area == rule.area && ValidEvaluation(evaluation, version)
  {
    hide Matches, Blank;
    SelectionIsValid(rule.applicability.value, fact);
  }

  predicate CoherentFact(fact: FactInput) {
    && !fact.state.OtherState?
    && Readable(fact.value)
    && (if fact.state == Observed then fact.value.Value? else fact.value.Absent?)
  }

  lemma SelectionIsValid(selector: RuleApplicability, fact: FactInput)
    requires ValidApplicability(selector) && CoherentFact(fact)
    requires Readable(selector.applicableWhen.expected) && Readable(selector.notApplicableWhen.expected)
    ensures var selection := Select(selector, fact);
            selection.Ok? ==>
              && ValidApplicabilityEvaluation(selection.value.evaluation)
              && (selection.value.status == NotApplicable ==>
                    selection.value.evaluation.decision == DecidedNotApplicable)
  {
    hide Matches, Blank;
  }

  lemma AppliedIsValid(rule: Rule, applicability: Option<ApplicabilityEvaluation>, exceptions: map<string, Exception>,
                       fact: FactInput, asOf: int, version: int)
    requires ValidRule(rule, version) && Readable(rule.condition.expected) && CoherentFact(fact)
    requires applicability.Some? ==> version != 1 && ValidApplicabilityEvaluation(applicability.value)
    requires rule.id in exceptions ==> ValidException(exceptions[rule.id]) && exceptions[rule.id].ruleId == rule.id
    ensures var outcome := Applied(rule, applicability, exceptions, fact, asOf);
            outcome.Ok? ==>
              outcome.value.ruleId == rule.id && outcome.value.area == rule.area
                && ValidEvaluation(outcome.value, version)
  {
    hide Matches, Blank;
  }

  lemma SuppliedFactIsValid(inputs: Inputs, name: string)
    requires ValidInputs(inputs) && ReadableInputs(inputs)
    ensures CoherentFact(InputFact(inputs, name))
  {
  }

  // ---------------------------------------------------------------------
  // Sorting by (area, rule id).
  // ---------------------------------------------------------------------

  predicate Before(a: Evaluation, b: Evaluation) {
    if a.area != b.area then CompareStrings(a.area, b.area) < 0 else CompareStrings(a.ruleId, b.ruleId) < 0
  }

  predicate Sorted(s: seq<Evaluation>) {
    forall i, j :: 0 <= i < j < |s| ==> !Before(s[j], s[i])
  }

  predicate DistinctIds(s: seq<Evaluation>) {
    forall i, j :: 0 <= i < j < |s| ==> s[i].ruleId != s[j].ruleId
  }

  lemma BeforeIsOrder(a: Evaluation, b: Evaluation, c: Evaluation)
    ensures Before(a, b) && Before(b, c) ==> Before(a, c)
    ensures !(Before(a, b) && Before(b, a))
    ensures a.ruleId != b.ruleId ==> Before(a, b) || Before(b, a)
  {
    CompareStringsOrder(a.area, b.area, c.area);
    CompareStringsOrder(a.ruleId, b.ruleId, c.ruleId);
  }

  /** Insertion keeps order; the library sort may be any that yields such a permutation. */
  method SortedEvaluations(values: seq<Evaluation>) returns (out: seq<Evaluation>)
    ensures multiset(out) == multiset(values)
    ensures Sorted(out)
  {
    hide Sorted, Before;
    out := [];
    NothingSorted();
    for i := 0 to |values|
      invariant multiset(out) == multiset(values[..i])
      invariant Sorted(out)
    {
      assert values[..i + 1] == values[..i] + [values[i]];
      out := InsertEvaluation(out, values[i]);
    }
    assert values[..|values|] == values;
  }

  lemma NothingSorted()
    ensures Sorted([])
  {
  }

  method InsertEvaluation(sorted: seq<Evaluation>, value: Evaluation) returns (out: seq<Evaluation>)
    requires Sorted(sorted)
    ensures multiset(out) == multiset(sorted) + multiset{value} && Sorted(out)
  {
    hide Sorted, Before;
    var at := 0;
    while at < |sorted| && !Before(value, sorted[at])
      invariant 0 <= at <= |sorted|
      invariant forall k :: 0 <= k < at ==> !Before(value, sorted[k])
    {
      at := at + 1;
    }
    InsertedIsSorted(sorted, value, at);
    out := sorted[..at] + [value] + sorted[at..];
    assert sorted == sorted[..at] + sorted[at..];
  }

  lemma InsertedIsSorted(sorted: seq<Evaluation>, value: Evaluation, at: nat)
    requires Sorted(sorted) && at <= |sorted| && (at < |sorted| ==> Before(value, sorted[at]))
    requires forall k :: 0 <= k < at ==> !Before(value, sorted[k])
    ensures Sorted(sorted[..at] + [value] + sorted[at..])
  {
    hide Before;
    forall k | at <= k < |sorted| ensures !Before(sorted[k], value) {
      BeforeIsOrder(sorted[k], value, sorted[at]);
      BeforeIsOrder(value, sorted[at], sorted[k]);
    }
  }

  /** Distinct rule ids make the order strict, so a sorted permutation is unique. */
  lemma {:induction false} SortedPermutationIsUnique(a: seq<Evaluation>, b: seq<Evaluation>)
    requires multiset(a) == multiset(b)
    requires Sorted(a) && Sorted(b) && DistinctIds(a)
    ensures a == b
  {
    hide Sorted, DistinctIds;
    assert |multiset(a)| == |a| && |multiset(b)| == |b|;
    if a != [] {
      FirstIsLeast(a, b);
      TailOfSorted(a);
      TailOfSorted(b);
      assert a == [a[0]] + a[1..] && b == [b[0]] + b[1..];
      assert multiset(a[1..]) == multiset(a) - multiset{a[0]};
      assert multiset(b[1..]) == multiset(b) - multiset{b[0]};
      SortedPermutationIsUnique(a[1..], b[1..]);
    }
  }

  lemma TailOfSorted(s: seq<Evaluation>)
    requires s != []
    ensures Sorted(s) ==> Sorted(s[1..])
    ensures DistinctIds(s) ==> DistinctIds(s[1..])
  {
    hide Before;
  }

  lemma FirstIsLeast(a: seq<Evaluation>, b: seq<Evaluation>)
    requires multiset(a) == multiset(b) && a != [] && b != []
    requires Sorted(a) && Sorted(b) && DistinctIds(a)
    ensures a[0] == b[0]
  {
    hide Before;
    assert b[0] in multiset(a) && a[0] in multiset(b);
    var i :| 0 <= i < |a| && a[i] == b[0];
    var j :| 0 <= j < |b| && b[j] == a[0];
    if i > 0 && j > 0 {
      BeforeIsOrder(a[0], b[0], a[0]);
    }
  }

  // ---------------------------------------------------------------------
  // The whole report.
  // ---------------------------------------------------------------------

  function ExceptionIndex(exceptions: seq<Exception>): map<string, Exception> {
    IndexBy(RuleOfException, exceptions)
  }

  ghost function Outcomes(p: Profile, inputs: Inputs, asOf: int): (r: seq<Result<Evaluation, EvaluationError>>)
    requires ReadableProfile(p) && ReadableInputs(inputs)
    ensures |r| == |p.rules|
    ensures forall i :: 0 <= i < |r| ==> r[i] == Outcome(p.rules[i], ExceptionIndex(p.exceptions), inputs, asOf)
  {
    Map((rule: Rule) requires ReadableRule(rule) => Outcome(rule, ExceptionIndex(p.exceptions), inputs, asOf), p.rules)
  }

  ghost predicate AllDecided(p: Profile, inputs: Inputs, asOf: int)
    requires ReadableProfile(p) && ReadableInputs(inputs)
  {
    forall outcome :: outcome in Outcomes(p, inputs, asOf) ==> outcome.Ok?
  }

  function Accept(e: Evaluation): Result<Evaluation, EvaluationError> {
    Ok(e)
  }

  /** A report of this profile on these facts: one evaluation per rule, in key order. */
  ghost predicate Reports(report: Report, p: Profile, inputs: Inputs, asOf: int)
    requires ReadableProfile(p) && ReadableInputs(inputs)
  {
    && report.kind == REPORT_KIND && report.version == p.version
    && report.repository == inputs.repository && report.profileId == p.id && report.asOf == FormatDate(asOf)
    && multiset(Map(Accept, report.evaluations)) == multiset(Outcomes(p, inputs, asOf))
    && Sorted(report.evaluations)
  }

  method Evaluate(profile: Profile, inputs: Inputs, asOf: int) returns (r: Result<Report, EvaluationError>)
    requires ReadableProfile(profile) && ReadableInputs(inputs)
    ensures r.Ok? <==> ValidProfile(profile) && ValidInputs(inputs) && AllDecided(profile, inputs, asOf)
    ensures r.Ok? ==> Reports(r.value, profile, inputs, asOf)
    ensures !ValidProfile(profile) ==> r == Err(InvalidProfile)
    ensures ValidProfile(profile) && !ValidInputs(inputs) ==> r == Err(InvalidInputs)
    ensures ValidProfile(profile) && ValidInputs(inputs) && r.Err? ==>
              exists i :: 0 <= i < |profile.rules|
                && Outcomes(profile, inputs, asOf)[i] == Err(r.error)
                && forall k :: 0 <= k < i ==> Outcomes(profile, inputs, asOf)[k].Ok?
  {
    hide ValidProfile, ValidInputs, Outcome, Sorted, IndexBy;
    if !ValidProfile(profile) {
      return Err(InvalidProfile);
    }
    if !ValidInputs(inputs) {
      return Err(InvalidInputs);
    }
    var exceptions := BuildIndex(RuleOfException, profile.exceptions);
    var evaluations := [];
    for i := 0 to |profile.rules|
      invariant |evaluations| == i
      invariant forall k :: 0 <= k < i ==> Outcomes(profile, inputs, asOf)[k] == Ok(evaluations[k])
    {
      var evaluated := EvaluateOne(profile.rules[i], exceptions, inputs, asOf);
      assert evaluated == Outcomes(profile, inputs, asOf)[i];
      if evaluated.Err? {
        return Err(evaluated.error);
      }
      evaluations := evaluations + [evaluated.value];
    }
    assert Map(Accept, evaluations) == Outcomes(profile, inputs, asOf);
    var sorted := SortedEvaluations(evaluations);
    MapOfPermutation(Accept, sorted, evaluations);
    r := Ok(Report(REPORT_KIND, if profile.version == 2 then 2
                                else 1, inputs.repository, profile.id, FormatDate(asOf), sorted));
    ReportVersion(profile);
  }

  lemma ReportVersion(p: Profile)
    requires ValidProfile(p)
    ensures p.version == 1 || p.version == 2
  {
  }

  method EvaluateOne(rule: Rule, exceptions: map<string, Exception>, inputs: Inputs, asOf: int)
    returns (r: Result<Evaluation, EvaluationError>)
    requires ReadableRule(rule) && ReadableInputs(inputs)
    ensures r == Outcome(rule, exceptions, inputs, asOf)
  {
    hide Judge, Select;
    var applicability := None;
    if rule.applicability.Some? {
      var selectorFact := InputFact(inputs, rule.applicability.value.fact);
      var selection := EvaluateApplicability(rule.applicability.value, selectorFact);
      if selection.Err? {
        return Err(selection.error);
      }
      applicability := Some(selection.value.evaluation);
      if !selection.value.applies {
        var skipped := NewEvaluation(rule, selectorFact.evidence, selection.value.status);
        return Ok(skipped.(applicability := applicability));
      }
    }
    var evaluated := EvaluateRule(rule, InputFact(inputs, rule.fact));
    if evaluated.Err? {
      return Err(evaluated.error);
    }
    var evaluation := evaluated.value.(applicability := applicability);
    if rule.id in exceptions && IsMismatch(evaluation.status) {
      var exception := exceptions[rule.id];
      evaluation := evaluation.(exception := Some(exception));
      if StillExcepted(exception, asOf) {
        evaluation := evaluation.(status := Excepted);
      } else {
        evaluation := evaluation.(exceptionGap := "exception expired");
      }
    }
    return Ok(evaluation);
  }

  function IdOf(outcome: Result<Evaluation, EvaluationError>): string {
    if outcome.Ok? then outcome.value.ruleId else ""
  }

  lemma RuleOutcomeIsValid(p: Profile, inputs: Inputs, asOf: int, k: nat)
    requires ReadableProfile(p) && ReadableInputs(inputs) && ValidProfile(p) && ValidInputs(inputs)
    requires k < |p.rules|
    ensures var outcome := Outcome(p.rules[k], ExceptionIndex(p.exceptions), inputs, asOf);
            outcome.Ok? ==> outcome.value.ruleId == p.rules[k].id && ValidEvaluation(outcome.value, p.version)
  {
    hide Outcome, IndexBy, ValidEvaluation, ValidInputs, ValidRule;
    var index, id := ExceptionIndex(p.exceptions), p.rules[k].id;
    IndexOfDistinct(RuleOfException, p.exceptions);
    if id in index {
      var i :| 0 <= i < |p.exceptions| && p.exceptions[i] == index[id];
      assert ValidException(index[id]);
    }
    OutcomeIsValid(p.rules[k], index, inputs, asOf, p.version);
  }

  /** Every evaluation in a report is the outcome of a rule of the profile. */
  lemma EvaluationComesFromRule(report: Report, p: Profile, inputs: Inputs, asOf: int, i: nat) returns (k: nat)
    requires ReadableProfile(p) && ReadableInputs(inputs) && Reports(report, p, inputs, asOf)
    requires i < |report.evaluations|
    ensures k < |p.rules|
    ensures Outcome(p.rules[k], ExceptionIndex(p.exceptions), inputs, asOf) == Ok(report.evaluations[i])
  {
    hide Outcome, Sorted, ExceptionIndex;
    var accepted := Map(Accept, report.evaluations);
    SameMembers(accepted, Outcomes(p, inputs, asOf));
    assert accepted[i] in accepted;
    k :| 0 <= k < |p.rules| && Outcomes(p, inputs, asOf)[k] == accepted[i];
  }

  lemma ReportedRulesAreDecided(report: Report, p: Profile, inputs: Inputs, asOf: int)
    requires ReadableProfile(p) && ReadableInputs(inputs) && Reports(report, p, inputs, asOf)
    ensures AllDecided(p, inputs, asOf)
  {
    hide Outcome, Sorted, ExceptionIndex;
    SameMembers(Map(Accept, report.evaluations), Outcomes(p, inputs, asOf));
  }

  lemma DistinctEvaluations(report: Report, p: Profile, inputs: Inputs, asOf: int)
    requires ReadableProfile(p) && ReadableInputs(inputs) && Reports(report, p, inputs, asOf)
    requires ValidProfile(p) && ValidInputs(inputs)
    ensures DistinctIds(report.evaluations)
  {
    hide Outcome, Sorted, ExceptionIndex, ValidInputs, ReadableInputs;
    var outcomes, accepted := Outcomes(p, inputs, asOf), Map(Accept, report.evaluations);
    ReportedRulesAreDecided(report, p, inputs, asOf);
    forall k | 0 <= k < |outcomes| ensures IdOf(outcomes[k]) == RuleIds(p.rules)[k] {
      assert outcomes[k] in outcomes;
      RuleOutcomeIsValid(p, inputs, asOf, k);
    }
    assert Map(IdOf, outcomes) == RuleIds(p.rules);
    MapOfPermutation(IdOf, accepted, outcomes);
    DistinctUnderPermutation(Map(IdOf, accepted), Map(IdOf, outcomes));
    IdsOfAccepted(report.evaluations);
  }

  lemma IdsOfAccepted(evaluations: seq<Evaluation>)
    ensures NoDuplicates(Map(IdOf, Map(Accept, evaluations))) ==> DistinctIds(evaluations)
  {
    var ids := Map(IdOf, Map(Accept, evaluations));
    assert forall i :: 0 <= i < |evaluations| ==> ids[i] == evaluations[i].ruleId;
  }

  /** A report passes its own validator exactly when its date has a four-digit year. */
  lemma EvaluatedReportIsValid(report: Report, p: Profile, inputs: Inputs, asOf: int)
    requires ReadableProfile(p) && ReadableInputs(inputs) && Reports(report, p, inputs, asOf)
    requires ValidProfile(p) && ValidInputs(inputs)
    ensures ValidReport(report) <==> FIRST_DATE <= asOf / DAY <= LAST_DATE
  {
    hide Outcome, Sorted, ExceptionIndex, ValidEvaluation, ValidRule, ValidFact;
    DistinctEvaluations(report, p, inputs, asOf);
    forall i | 0 <= i < |report.evaluations| ensures ValidEvaluation(report.evaluations[i], report.version) {
      var k := EvaluationComesFromRule(report, p, inputs, asOf, i);
      RuleOutcomeIsValid(p, inputs, asOf, k);
    }
  }

  /** On the first day of the year 10000 every report of every profile fails its own validator. */
  lemma YearTenThousandIsInvalid(report: Report, p: Profile, inputs: Inputs)
    requires ReadableProfile(p) && ReadableInputs(inputs) && Reports(report, p, inputs, (LAST_DATE + 1) * DAY)
    requires ValidProfile(p) && ValidInputs(inputs)
    ensures !ValidReport(report)
  {
    hide Reports, ValidReport, ValidProfile, ValidInputs, ReadableProfile, ReadableInputs;
    EvaluatedReportIsValid(report, p, inputs, (LAST_DATE + 1) * DAY);
  }

  // ---------------------------------------------------------------------
  // The order of rules and exceptions does not matter.
  // ---------------------------------------------------------------------

  predicate Reordered(p: Profile, q: Profile) {
    && p.kind == q.kind && p.version == q.version && p.id == q.id
    && multiset(p.rules) == multiset(q.rules) && multiset(p.exceptions) == multiset(q.exceptions)
  }

  lemma ReorderedProfileIsValid(p: Profile, q: Profile)
    requires Reordered(p, q) && ValidProfile(p)
    ensures ValidProfile(q)
  {
    hide ValidRule, ValidException;
    SameMembers(p.rules, q.rules);
    SameMembers(p.exceptions, q.exceptions);
    MapOfPermutation(IdOfRule, p.rules, q.rules);
    MapOfPermutation(RuleOfException, p.exceptions, q.exceptions);
    DistinctUnderPermutation(RuleIds(p.rules), RuleIds(q.rules));
    DistinctUnderPermutation(ExceptionIds(p.exceptions), ExceptionIds(q.exceptions));
    SameMembers(RuleIds(p.rules), RuleIds(q.rules));
    SameMembers(ExceptionIds(p.exceptions), ExceptionIds(q.exceptions));
    forall i | 0 <= i < |q.rules| ensures ValidRule(q.rules[i], q.version) {
      assert q.rules[i] in p.rules;
    }
    forall i | 0 <= i < |q.exceptions| ensures ValidException(q.exceptions[i]) {
      assert q.exceptions[i] in p.exceptions;
    }
  }

  lemma SameOutcomes(p: Profile, q: Profile, inputs: Inputs, asOf: int)
    requires ReadableProfile(p) && ReadableProfile(q) && ReadableInputs(inputs)
    requires Reordered(p, q) && ValidProfile(p)
    ensures multiset(Outcomes(p, inputs, asOf)) == multiset(Outcomes(q, inputs, asOf))
  {
    hide Outcome, IndexBy;
    ReorderedProfileIsValid(p, q);
    IndexOfPermutation(RuleOfException, p.exceptions, q.exceptions);
    var outcome :=
      (rule: Rule) requires ReadableRule(rule) => Outcome(rule, ExceptionIndex(p.exceptions), inputs, asOf);
    MapOfPermutation(outcome, p.rules, q.rules);
    assert Map(outcome, p.rules) == Outcomes(p, inputs, asOf);
    assert Map(outcome, q.rules) == Outcomes(q, inputs, asOf);
  }

  /** Reordering rules and exceptions changes neither success nor a single entry of the report. */
  lemma OrderDoesNotMatter(p: Profile, q: Profile, inputs: Inputs, asOf: int)
    requires ReadableProfile(p) && ReadableProfile(q) && ReadableInputs(inputs)
    requires Reordered(p, q) && ValidProfile(p) && ValidInputs(inputs)
    ensures AllDecided(p, inputs, asOf) <==> AllDecided(q, inputs, asOf)
    ensures forall a, b :: Reports(a, p, inputs, asOf) && Reports(b, q, inputs, asOf) ==> a == b
  {
    hide Outcome, Sorted, ExceptionIndex;
    SameOutcomes(p, q, inputs, asOf);
    SameMembers(Outcomes(p, inputs, asOf), Outcomes(q, inputs, asOf));
    forall a, b | Reports(a, p, inputs, asOf) && Reports(b, q, inputs, asOf) ensures a == b {
      DistinctEvaluations(a, p, inputs, asOf);
      AcceptIsInjective(a.evaluations, b.evaluations);
      SortedPermutationIsUnique(a.evaluations, b.evaluations);
    }
  }

  lemma AcceptIsInjective(a: seq<Evaluation>, b: seq<Evaluation>)
    requires multiset(Map(Accept, a)) == multiset(Map(Accept, b))
    ensures multiset(a) == multiset(b)
  {
    hide Map;
    SameMembers(Map(Accept, a), Map(Accept, b));
    if a != [] {
      var back := (r: Result<Evaluation, EvaluationError>) => if r.Ok? then r.value else a[0];
      MapOfPermutation(back, Map(Accept, a), Map(Accept, b));
      assert Map(back, Map(Accept, a)) == a;
      assert Map(back, Map(Accept, b)) == b;
    } else {
      assert a == b;
    }
  }
}
