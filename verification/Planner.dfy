/**
 The conversion planner: it filters a target's capability manifest for one source and target field, orders
 what is left, and builds a plan from the chosen capability. Both entry points are modelled: the one that
 sees a transaction and the one that sees catalog definitions only.

 The filters that compare type declarations in detail, the option checks and the parameters they fill in
 are arbitrary functions of the request: nothing below depends on what they decide.
 */
module Planner {
  import opened Outcomes
  import opened Images
  import opened Sorting
  import Labels

  datatype Qualification = Exact | RangeChecked | ExplicitConversion | Unsupported

  type Parameters = map<string, string>

  const CONVERSION_KIND := "conversion_kind"

  datatype LogicalType =
    | IntegerType(bits: nat) | DecimalType(precision: nat) | FloatType(bits: nat)
    | BinaryType | BitStringType | SpatialType | OtherType(name: string)

  datatype Representation = Representation(nativeType: string, parameters: Parameters)

  datatype RuleReference = RuleReference(id: string, version: string)

  datatype Rule = Rule(
    reference: RuleReference, qualification: Qualification, risk: nat, requiresConfirmation: bool,
    operations: set<Operation>, presences: set<string>, allowsKey: bool, evidence: string)

  datatype Capability = Capability(
    code: string, sourceType: LogicalType, target: Representation, rule: Rule,
    operations: set<Operation>, presences: set<string>)

  /** `intact`: the contract is current and the digest verifies. */
  datatype Manifest = Manifest(capabilities: seq<Capability>, requiresPrimaryKey: bool, intact: bool)

  datatype FieldDefinition = FieldDefinition(
    primaryKey: Option<nat>, unique: bool, rowLocator: bool, generated: bool, nullable: bool,
    logicalType: LogicalType, nativeType: string, collation: Option<string>)

  predicate IsKeyLike(f: FieldDefinition) {
    f.primaryKey.Some? || f.unique || f.rowLocator
  }

  // ---------------------------------------------------------------- the manifest

  predicate Blank(text: string) {
    forall i :: 0 <= i < |text| ==> Labels.IsWhitespace(text[i])
  }

  predicate Complete(c: Capability) {
    && !Blank(c.code) && !Blank(c.target.nativeType) && !Blank(c.rule.reference.id)
    && !Blank(c.rule.reference.version) && !Blank(c.rule.evidence)
  }

  predicate GoodRule(rule: Rule) {
    rule.qualification != Unsupported ==>
      && !(rule.qualification == ExplicitConversion && rule.allowsKey)
      && rule.operations != {} && rule.presences != {}
  }

  predicate DistinctCodes(caps: seq<Capability>) {
    forall i, j :: 0 <= i < j < |caps| ==> caps[i].code != caps[j].code
  }

  predicate ValidManifest(m: Manifest) {
    && m.intact
    && (forall i :: 0 <= i < |m.capabilities| ==> Complete(m.capabilities[i]) && GoodRule(m.capabilities[i].rule))
    && DistinctCodes(m.capabilities)
  }

  /** The source's loop with its set of codes. */
  method Validate(m: Manifest) returns (ok: bool)
    ensures ok <==> ValidManifest(m)
  {
    if !m.intact {
      return false;
    }
    var codes: set<string> := {};
    for n := 0 to |m.capabilities|
      invariant forall i :: 0 <= i < n ==> Complete(m.capabilities[i]) && GoodRule(m.capabilities[i].rule)
      invariant forall code :: code in codes <==> exists i :: 0 <= i < n && m.capabilities[i].code == code
      invariant DistinctCodes(m.capabilities[..n])
    {
      var c := m.capabilities[n];
      if !Complete(c) || c.code in codes {
        return false;
      }
      codes := codes + {c.code};
      if c.rule.qualification != Unsupported {
        if c.rule.qualification == ExplicitConversion && c.rule.allowsKey {
          return false;
        }
        if c.rule.operations == {} || c.rule.presences == {} {
          return false;
        }
      }
    }
    assert m.capabilities[..|m.capabilities|] == m.capabilities;
    return true;
  }

  // ---------------------------------------------------------------- requests and results

  datatype ParameterCheck = ParametersOk | ParametersInvalid | ParametersMissing

  /**
   A planning request. `inputOk` stands for the identity and staleness checks of the input, `probed` for the
   codes a target probe qualified, and `spatialMismatch` for a geodetic against a planar type.
   */
  datatype Request = Request(
    manifest: Manifest, source: FieldDefinition, target: FieldDefinition, selected: Option<RuleReference>,
    probed: Option<set<string>>, operations: set<Operation>, presences: set<string>, hasPrimaryKey: bool,
    sameConnector: bool, spatialMismatch: bool, inputOk: bool,
    matchesTypes: Capability -> bool, matchesBinding: Capability -> bool,
    nativeType: Capability -> string, details: Capability -> Parameters,
    check: Capability -> ParameterCheck, confirms: Plan -> bool)

  datatype Candidate = Candidate(
    target: Representation, rule: RuleReference, code: string, qualification: Qualification, risk: nat,
    requiresConfirmation: bool)

  datatype Loss = Loss(value: bool, comparison: bool, ordering: bool, constraints: bool)

  datatype LocatorImpact = Preserved | ValueOnly | NotUsed

  datatype Confirmation = NotRequired | Required | Confirmed

  datatype Plan = Plan(
    target: Representation, rule: RuleReference, code: string, qualification: Qualification, risk: nat,
    loss: Loss, locator: LocatorImpact, confirmation: Confirmation)

  datatype Status = Compatible | NeedsConfirmation | NeedsConfiguration | Blocked | NotSupported

  datatype Answer = Answer(status: Status, plan: Option<Plan>)

  // ---------------------------------------------------------------- filters

  predicate IsRangeTemplate(t: LogicalType) {
    (t.IntegerType? && t.bits == 0) || (t.DecimalType? && t.precision == 0) || (t.FloatType? && t.bits == 0)
  }

  predicate IsExplicitTemplate(c: Capability) {
    CONVERSION_KIND in c.target.parameters
  }

  predicate SupportsDeclared<T(==)>(capability: set<T>, rule: set<T>, required: set<T>) {
    (capability == {} || required <= capability) && (rule == {} || required <= rule)
  }

  predicate Qualifies(r: Request, c: Capability) {
    && (r.selected.Some? ==> r.selected.value == c.rule.reference)
    && c.rule.qualification != Unsupported
    && (r.probed.Some? ==> c.code in r.probed.value)
    && SupportsDeclared(c.operations, c.rule.operations, r.operations)
    && SupportsDeclared(c.presences, c.rule.presences, r.presences)
    && !(IsKeyLike(r.source) && !c.rule.allowsKey)
    && (IsExplicitTemplate(c) ==> !IsKeyLike(r.source) && !IsKeyLike(r.target))
    && r.matchesTypes(c) && r.matchesBinding(c)
    && r.source.generated == r.target.generated
    && !(r.source.nullable && !r.target.nullable)
    && (!IsRangeTemplate(c.sourceType) || r.source.logicalType != r.target.logicalType)
  }

  /** The capability as a candidate; only the native type follows the target column. */
  function CandidateOf(r: Request, mismatch: bool, c: Capability): Candidate {
    Candidate(
      Representation(r.nativeType(c), c.target.parameters), c.rule.reference, c.code, c.rule.qualification,
      if mismatch && c.rule.risk < HIGH_RISK then HIGH_RISK else c.rule.risk,
      c.rule.requiresConfirmation || c.rule.qualification == ExplicitConversion || mismatch)
  }

  const HIGH_RISK: nat := 3

  function Rank(q: Qualification): nat {
    match q
    case Exact => 0
    case RangeChecked => 1
    case ExplicitConversion => 2
    case Unsupported => 3
  }

  /** The candidates' order: qualification, then risk, then code. */
  predicate CandidateLeq(a: Candidate, b: Candidate) {
    || Rank(a.qualification) < Rank(b.qualification)
    || (a.qualification == b.qualification && (a.risk < b.risk || (a.risk == b.risk && TextLeq(a.code, b.code))))
  }

  function Candidates(r: Request, mismatch: bool): seq<Candidate> {
    var qualified := Filter((c: Capability) => Qualifies(r, c), r.manifest.capabilities);
    Sort(CandidateLeq, MapSeq((c: Capability) => CandidateOf(r, mismatch, c), qualified))
  }

  // ---------------------------------------------------------------- choosing

  predicate IsCarrier(c: Candidate) {
    && CONVERSION_KIND in c.target.parameters
    && c.target.parameters[CONVERSION_KIND] in {"logical_value_json", "source_representation"}
  }

  function FirstExactNative(cs: seq<Candidate>): (i: nat)
    ensures i <= |cs|
    ensures i < |cs| ==> cs[i].qualification == Exact && !IsCarrier(cs[i])
  {
    if cs == [] || (cs[0].qualification == Exact && !IsCarrier(cs[0])) then 0 else 1 + FirstExactNative(cs[1..])
  }

  /** An exact native candidate is preferred when everything else is an explicit carrier. */
  function Preferred(cs: seq<Candidate>): (i: Option<nat>)
    ensures i.Some? ==> i.value < |cs|
  {
    var first := FirstExactNative(cs);
    if first < |cs| && forall k :: 0 <= k < |cs| && k != first ==> IsCarrier(cs[k]) then Some(first) else None
  }

  /** The candidate to plan with, or the need for a selection. */
  function Choose(r: Request, cs: seq<Candidate>): (i: Option<nat>)
    requires cs != []
    ensures i.Some? ==> i.value < |cs|
  {
    var preferred := Preferred(cs);
    if (|cs| > 1 && preferred.None?) || (r.selected.None? && forall k :: 0 <= k < |cs| ==> IsCarrier(cs[k])) then None
    else if preferred.Some? then preferred else Some(0)
  }

  function FindCode(caps: seq<Capability>, code: string): Option<Capability> {
    if caps == [] then None else if caps[0].code == code then Some(caps[0]) else FindCode(caps[1..], code)
  }

  // ---------------------------------------------------------------- the plan

  function KindFor(source: LogicalType, target: LogicalType): Option<string> {
    if source.BinaryType? && target.BinaryType? then Some("binary")
    else if source.BitStringType? && target.BitStringType? then Some("bit_string")
    else if source.SpatialType? && target.SpatialType? then Some("spatial")
    else None
  }

  /** The planned representation: `details` adds parameters, but the conversion kind only three pairs set. */
  function PlannedParameters(source: LogicalType, target: LogicalType, given: Parameters, details: Parameters)
    : Parameters
  {
    var filled := given + (details - {CONVERSION_KIND});
    var kind := KindFor(source, target);
    if kind.Some? then filled[CONVERSION_KIND := kind.value] else filled
  }

  function LossFor(q: Qualification, keyLike: bool): Loss {
    match q
    case Exact | RangeChecked => Loss(false, false, false, false)
    case ExplicitConversion => Loss(true, keyLike, keyLike, true)
    case Unsupported => Loss(true, true, true, true)
  }

  function RepresentationLoss(p: Parameters, q: Qualification, keyLike: bool): Loss {
    if CONVERSION_KIND in p && p[CONVERSION_KIND] in {"logical_value_json", "recursive"}
    then Loss(false, true, true, true)
    else if CONVERSION_KIND in p && p[CONVERSION_KIND] == "source_representation" then Loss(true, true, true, true)
    else LossFor(q, keyLike)
  }

  function BuildPlan(r: Request, candidate: Candidate, c: Capability): Plan {
    var given := candidate.target.parameters;
    var parameters := PlannedParameters(r.source.logicalType, r.target.logicalType, given, r.details(c));
    var keyLike := IsKeyLike(r.source);
    Plan(
      Representation(candidate.target.nativeType, parameters), candidate.rule, candidate.code,
      candidate.qualification, candidate.risk, RepresentationLoss(parameters, candidate.qualification, keyLike),
      if keyLike then Preserved else if c.rule.qualification == ExplicitConversion then ValueOnly else NotUsed,
      if candidate.requiresConfirmation then Required else NotRequired)
  }

  /** A different collation on the target patches the loss of a catalog plan. */
  function Patch(mismatch: bool, plan: Plan): Plan {
    if mismatch then plan.(loss := plan.loss.(comparison := true, ordering := true, constraints := true)) else plan
  }

  function Confirm(r: Request, candidate: Candidate, plan: Plan): Answer {
    var confirmed := candidate.requiresConfirmation && r.confirms(plan);
    Answer(
      if candidate.requiresConfirmation && !confirmed then NeedsConfirmation else Compatible,
      Some(if confirmed then plan.(confirmation := Confirmed) else plan))
  }

  /** The answer when nothing qualifies. */
  function Refusal(r: Request): Status {
    var keyBlocked := IsKeyLike(r.source)
      && exists c :: c in r.manifest.capabilities && r.matchesTypes(c) && !c.rule.allowsKey;
    if keyBlocked || r.spatialMismatch || r.source.logicalType.SpatialType? then Blocked else NotSupported
  }

  /** From the sorted candidates to the answer. */
  function Decide(r: Request, mismatch: bool, cs: seq<Candidate>): Answer {
    if cs == [] then Answer(Refusal(r), None)
    else
      var chosen := Choose(r, cs);
      if chosen.None? then Answer(NeedsConfiguration, None)
      else
        var candidate := cs[chosen.value];
        var c := FindCode(r.manifest.capabilities, candidate.code);
        if c.None? || r.check(c.value) == ParametersInvalid then Answer(Blocked, None)
        else if r.check(c.value) == ParametersMissing then Answer(NeedsConfiguration, None)
        else Confirm(r, candidate, Patch(mismatch, BuildPlan(r, candidate, c.value)))
  }

  /** Planning for a field of a validated transaction. */
  function ExplainTransaction(r: Request): Result<Answer, ()> {
    if !r.inputOk || !ValidManifest(r.manifest) then Err(())
    else if r.manifest.requiresPrimaryKey && !r.hasPrimaryKey then Ok(Answer(Blocked, None))
    else Ok(Decide(r, false, Candidates(r, false)))
  }

  predicate CollationMismatch(r: Request) {
    if r.sameConnector then r.source.collation != r.target.collation
    else r.source.collation.Some? && r.target.collation.Some? && r.source.collation != r.target.collation
  }

  /** Planning from catalog definitions; `validated` says that the manifest was validated before. */
  function ExplainField(r: Request, validated: bool): Result<Answer, ()> {
    if !r.inputOk || (!validated && !ValidManifest(r.manifest)) then Err(())
    else if r.manifest.requiresPrimaryKey && !r.hasPrimaryKey then Ok(Answer(Blocked, None))
    else if r.source.primaryKey != r.target.primaryKey then Ok(Answer(Blocked, None))
    else if CollationMismatch(r) && IsKeyLike(r.source) then Ok(Answer(Blocked, None))
    else Ok(Decide(r, CollationMismatch(r), Candidates(r, CollationMismatch(r))))
  }

  // ---------------------------------------------------------------- where a plan comes from

  lemma {:induction false} FilterMembers<T>(p: T -> bool, s: seq<T>)
    ensures forall x :: x in Filter(p, s) <==> x in s && p(x)
    decreases |s|
  {
    if s != [] {
      FilterMembers(p, s[1..]);
      assert s == [s[0]] + s[1..];
    }
  }

  lemma {:induction false} CandidateOrigin(r: Request, mismatch: bool, candidate: Candidate)
    requires candidate in Candidates(r, mismatch)
    ensures exists c :: c in r.manifest.capabilities && Qualifies(r, c) && candidate == CandidateOf(r, mismatch, c)
  {
    var p := (c: Capability) => Qualifies(r, c);
    var f := (c: Capability) => CandidateOf(r, mismatch, c);
    var qualified := Filter(p, r.manifest.capabilities);
    FilterMembers(p, r.manifest.capabilities);
    assert candidate in multiset(Candidates(r, mismatch)) && candidate in MapSeq(f, qualified);
    var i :| 0 <= i < |qualified| && MapSeq(f, qualified)[i] == candidate;
    assert qualified[i] in qualified;
  }

  lemma {:induction false} FoundByCode(caps: seq<Capability>, c: Capability)
    requires DistinctCodes(caps) && c in caps
    ensures FindCode(caps, c.code) == Some(c)
    decreases |caps|
  {
    if caps[0].code != c.code {
      assert c in caps[1..];
      FoundByCode(caps[1..], c);
    } else {
      var i :| 0 <= i < |caps| && caps[i] == c;
    }
  }

  /** The request's answer in either entry point, with what is known when a plan comes back. */
  ghost predicate Answers(r: Request, mismatch: bool, answer: Answer) {
    answer == Decide(r, mismatch, Candidates(r, mismatch)) && ValidManifest(r.manifest)
  }

  /** The plan that a capability leads to, before confirmation. */
  function PlanOf(r: Request, mismatch: bool, c: Capability): Plan {
    Patch(mismatch, BuildPlan(r, CandidateOf(r, mismatch, c), c))
  }

  /** Every plan is built from one capability of the manifest that passed every filter. */
  lemma {:induction false} PlanOrigin(r: Request, mismatch: bool, answer: Answer)
    requires Answers(r, mismatch, answer) && answer.plan.Some?
    ensures exists c :: c in r.manifest.capabilities && Qualifies(r, c)
              && answer == Confirm(r, CandidateOf(r, mismatch, c), PlanOf(r, mismatch, c))
  {
    var cs := Candidates(r, mismatch);
    var candidate := cs[Choose(r, cs).value];
    CandidateOrigin(r, mismatch, candidate);
    var c :| c in r.manifest.capabilities && Qualifies(r, c) && candidate == CandidateOf(r, mismatch, c);
    FoundByCode(r.manifest.capabilities, c);
    assert answer == Confirm(r, candidate, Patch(mismatch, BuildPlan(r, candidate, c)));
  }

  /** What key safety asks of a plan built from a capability. */
  ghost predicate KeySafe(plan: Plan, c: Capability) {
    && c.rule.allowsKey && plan.rule == c.rule.reference && plan.code == c.code
    && plan.qualification == c.rule.qualification && plan.qualification != ExplicitConversion
    && plan.qualification != Unsupported
    && plan.loss == Loss(false, false, false, false)
    && plan.locator == Preserved
  }

  lemma {:induction false} KeyPlanIsSafe(r: Request, c: Capability)
    requires IsKeyLike(r.source) && Qualifies(r, c) && GoodRule(c.rule)
    ensures KeySafe(PlanOf(r, false, c), c)
  {
  }

  lemma {:induction false} GoodCapability(m: Manifest, c: Capability)
    requires ValidManifest(m) && c in m.capabilities
    ensures GoodRule(c.rule)
  {
  }

  /**
   Key safety: a plan for a primary-key, unique or row-locator field uses a rule of the manifest that allows
   keys, is no explicit conversion, loses nothing and preserves the row locator.
   */
  lemma {:induction false} KeySafetyForTransactions(r: Request)
    requires IsKeyLike(r.source) && ExplainTransaction(r).Ok? && ExplainTransaction(r).value.plan.Some?
    ensures exists c :: c in r.manifest.capabilities && KeySafe(ExplainTransaction(r).value.plan.value, c)
  {
    var answer := ExplainTransaction(r).value;
    PlanOrigin(r, false, answer);
    var c :| c in r.manifest.capabilities && Qualifies(r, c)
      && answer == Confirm(r, CandidateOf(r, false, c), PlanOf(r, false, c));
    GoodCapability(r.manifest, c);
    KeyPlanIsSafe(r, c);
    assert KeySafe(answer.plan.value, c);
  }

  lemma {:induction false} KeySafetyForFields(r: Request, validated: bool)
    requires validated ==> ValidManifest(r.manifest)
    requires IsKeyLike(r.source) && ExplainField(r, validated).Ok? && ExplainField(r, validated).value.plan.Some?
    ensures exists c :: c in r.manifest.capabilities && KeySafe(ExplainField(r, validated).value.plan.value, c)
    ensures !CollationMismatch(r) && r.source.primaryKey == r.target.primaryKey
  {
    var answer := ExplainField(r, validated).value;
    PlanOrigin(r, false, answer);
    var c :| c in r.manifest.capabilities && Qualifies(r, c)
      && answer == Confirm(r, CandidateOf(r, false, c), PlanOf(r, false, c));
    GoodCapability(r.manifest, c);
    KeyPlanIsSafe(r, c);
    assert KeySafe(answer.plan.value, c);
  }

  /** An explicit conversion, and a plan across different collations, is compatible only once confirmed. */
  lemma {:induction false} LossIsConfirmed(r: Request, mismatch: bool, answer: Answer)
    requires Answers(r, mismatch, answer) && answer.plan.Some? && answer.status == Compatible
    requires mismatch || answer.plan.value.qualification == ExplicitConversion
    ensures answer.plan.value.confirmation == Confirmed
  {
    PlanOrigin(r, mismatch, answer);
    var c :| c in r.manifest.capabilities && Qualifies(r, c)
      && answer == Confirm(r, CandidateOf(r, mismatch, c), PlanOf(r, mismatch, c));
    ConfirmedWhenRequired(r, CandidateOf(r, mismatch, c), PlanOf(r, mismatch, c));
  }

  /** A plan never understates its rule's risk, and across collations it declares high risk and what can differ. */
  lemma {:induction false} PlanDeclaresRisk(r: Request, mismatch: bool, answer: Answer)
    requires Answers(r, mismatch, answer) && answer.plan.Some?
    ensures exists c :: c in r.manifest.capabilities && c.code == answer.plan.value.code
              && answer.plan.value.risk >= c.rule.risk
    ensures
      var plan := answer.plan.value;
      mismatch ==> plan.risk >= HIGH_RISK && plan.loss.comparison && plan.loss.ordering && plan.loss.constraints
  {
    PlanOrigin(r, mismatch, answer);
    var c :| c in r.manifest.capabilities && Qualifies(r, c)
      && answer == Confirm(r, CandidateOf(r, mismatch, c), PlanOf(r, mismatch, c));
    ConfirmedRisk(r, mismatch, c, answer);
  }

  lemma {:induction false} ConfirmedRisk(r: Request, mismatch: bool, c: Capability, answer: Answer)
    requires answer == Confirm(r, CandidateOf(r, mismatch, c), PlanOf(r, mismatch, c))
    ensures answer.plan.value.code == c.code && answer.plan.value.risk >= c.rule.risk
    ensures
      var plan := answer.plan.value;
      mismatch ==> plan.risk >= HIGH_RISK && plan.loss.comparison && plan.loss.ordering && plan.loss.constraints
  {
  }

  /**
   A plan is never one of several competing representations: every other candidate is an explicit carrier,
   then the chosen one is exact and native, and a carrier is chosen only on selection.
   */
  lemma {:induction false} ChoiceIsUnambiguous(r: Request, cs: seq<Candidate>)
    requires cs != [] && Choose(r, cs).Some?
    ensures
      var i := Choose(r, cs).value;
      && (forall k :: 0 <= k < |cs| && k != i ==> IsCarrier(cs[k]))
      && (|cs| > 1 ==> cs[i].qualification == Exact && !IsCarrier(cs[i]))
      && (IsCarrier(cs[i]) ==> |cs| == 1 && r.selected.Some?)
  {
    if |cs| == 1 {
      assert IsCarrier(cs[0]) ==> forall k :: 0 <= k < |cs| ==> IsCarrier(cs[k]);
    }
  }

  /** Where every competing candidate is a carrier and one is exact and native, that one is chosen. */
  lemma {:induction false} ExactNativeIsChosen(r: Request, cs: seq<Candidate>, i: nat)
    requires i < |cs| && cs[i].qualification == Exact && !IsCarrier(cs[i])
    requires forall k :: 0 <= k < |cs| && k != i ==> IsCarrier(cs[k])
    ensures Choose(r, cs) == Some(i)
  {
    FirstExactAt(cs, i);
  }

  lemma {:induction false} FirstExactAt(cs: seq<Candidate>, i: nat)
    requires i < |cs| && cs[i].qualification == Exact && !IsCarrier(cs[i])
    requires forall k :: 0 <= k < i ==> IsCarrier(cs[k])
    ensures FirstExactNative(cs) == i
    decreases |cs|
  {
    if i > 0 {
      FirstExactAt(cs[1..], i - 1);
    }
  }

  lemma {:induction false} ConfirmedWhenRequired(r: Request, candidate: Candidate, plan: Plan)
    requires candidate.requiresConfirmation && Confirm(r, candidate, plan).status == Compatible
    ensures Confirm(r, candidate, plan).plan.value.confirmation == Confirmed
  {
  }

  // ---------------------------------------------------------------- the manifest's order does not matter

  lemma {:induction false} CandidateOrder()
    ensures TotalOrder(CandidateLeq)
  {
    TextOrder();
  }

  lemma {:induction false} FilterAppends<T>(p: T -> bool, a: seq<T>, b: seq<T>)
    ensures Filter(p, a + b) == Filter(p, a) + Filter(p, b)
    decreases |a|
  {
    if a == [] {
      assert a + b == b;
    } else {
      assert (a + b)[0] == a[0] && (a + b)[1..] == a[1..] + b;
      FilterAppends(p, a[1..], b);
      var head := if p(a[0]) then [a[0]] else [];
      assert head + (Filter(p, a[1..]) + Filter(p, b)) == (head + Filter(p, a[1..])) + Filter(p, b);
    }
  }

  lemma {:induction false} FilterWithout<T>(p: T -> bool, s: seq<T>, k: nat)
    requires k < |s|
    ensures multiset(Filter(p, s))
            == (if p(s[k]) then multiset{s[k]} else multiset{}) + multiset(Filter(p, s[..k] + s[k + 1..]))
  {
    assert s == s[..k] + ([s[k]] + s[k + 1..]);
    FilterAppends(p, s[..k], [s[k]] + s[k + 1..]);
    FilterCons(p, s[k], s[k + 1..]);
    FilterAppends(p, s[..k], s[k + 1..]);
  }

  lemma {:induction false} FilterOfMultiset<T>(p: T -> bool, a: seq<T>, b: seq<T>)
    requires multiset(a) == multiset(b)
    ensures multiset(Filter(p, a)) == multiset(Filter(p, b))
    decreases |a|
  {
    if a == [] {
      assert |b| == |multiset(b)| == 0;
    } else {
      assert a[0] in multiset(b);
      var k :| 0 <= k < |b| && b[k] == a[0];
      SameRest(a, b, k);
      FilterOfMultiset(p, a[1..], b[..k] + b[k + 1..]);
      FilterWithout(p, b, k);
      FilterWithout(p, a, 0);
      assert a[..0] + a[1..] == a[1..];
    }
  }

  lemma {:induction false} CodesTellApart(r: Request, mismatch: bool, cs: seq<Candidate>)
    requires DistinctCodes(r.manifest.capabilities)
    requires cs == MapSeq((c: Capability) => CandidateOf(r, mismatch, c),
                         Filter((c: Capability) => Qualifies(r, c), r.manifest.capabilities))
    ensures NoTies(CandidateLeq, cs)
  {
    var p := (c: Capability) => Qualifies(r, c);
    var f := (c: Capability) => CandidateOf(r, mismatch, c);
    var qualified := Filter(p, r.manifest.capabilities);
    FilterMembers(p, r.manifest.capabilities);
    forall x, y | x in cs && y in cs && CandidateLeq(x, y) && CandidateLeq(y, x)
      ensures x == y
    {
      TextIsTotal(x.code, y.code);
      var i :| 0 <= i < |cs| && cs[i] == x;
      var j :| 0 <= j < |cs| && cs[j] == y;
      assert qualified[i] in qualified && qualified[j] in qualified;
      var a :| 0 <= a < |r.manifest.capabilities| && r.manifest.capabilities[a] == qualified[i];
      var b :| 0 <= b < |r.manifest.capabilities| && r.manifest.capabilities[b] == qualified[j];
    }
  }

  /** Candidates do not depend on the order in which a valid manifest lists its capabilities. */
  lemma {:induction false} CandidatesForgetOrder(r: Request, other: Manifest, mismatch: bool)
    requires ValidManifest(r.manifest) && multiset(other.capabilities) == multiset(r.manifest.capabilities)
    ensures Candidates(r.(manifest := other), mismatch) == Candidates(r, mismatch)
  {
    var q := r.(manifest := other);
    var p := (c: Capability) => Qualifies(r, c);
    var f := (c: Capability) => CandidateOf(r, mismatch, c);
    var a, b := Filter(p, r.manifest.capabilities), Filter(p, other.capabilities);
    FilterOfMultiset(p, r.manifest.capabilities, other.capabilities);
    MapSeqOfMultiset(f, a, b);
    CandidateOrder();
    CodesTellApart(r, mismatch, MapSeq(f, a));
    SortForgetsOrder(CandidateLeq, MapSeq(f, a), MapSeq(f, b));
    SameFilter(p, (c: Capability) => Qualifies(q, c), other.capabilities);
    assert MapSeq(f, b) == MapSeq((c: Capability) => CandidateOf(q, mismatch, c), b);
  }

  lemma {:induction false} SameFilter<T(!new)>(p: T -> bool, q: T -> bool, s: seq<T>)
    requires forall x :: p(x) == q(x)
    ensures Filter(p, s) == Filter(q, s)
    decreases |s|
  {
    if s != [] {
      SameFilter(p, q, s[1..]);
    }
  }

  lemma {:induction false} SameCapability(r: Request, other: Manifest, mismatch: bool, candidate: Candidate)
    requires ValidManifest(r.manifest) && ValidManifest(other)
    requires multiset(other.capabilities) == multiset(r.manifest.capabilities)
    requires candidate in Candidates(r, mismatch)
    ensures FindCode(other.capabilities, candidate.code) == FindCode(r.manifest.capabilities, candidate.code)
  {
    CandidateOrigin(r, mismatch, candidate);
    var c :| c in r.manifest.capabilities && Qualifies(r, c) && candidate == CandidateOf(r, mismatch, c);
    assert c in multiset(other.capabilities);
    FoundByCode(r.manifest.capabilities, c);
    FoundByCode(other.capabilities, c);
  }

  /** Both entry points give the same answer for a valid manifest in any order. */
  lemma {:induction false} TransactionAnswersForgetOrder(r: Request, other: Manifest)
    requires ValidManifest(r.manifest) && ValidManifest(other)
    requires multiset(other.capabilities) == multiset(r.manifest.capabilities)
    requires other.requiresPrimaryKey == r.manifest.requiresPrimaryKey
    ensures ExplainTransaction(r.(manifest := other)) == ExplainTransaction(r)
  {
    DecisionForgetsOrder(r, other, false);
  }

  lemma {:induction false} FieldAnswersForgetOrder(r: Request, other: Manifest, validated: bool)
    requires ValidManifest(r.manifest) && ValidManifest(other)
    requires multiset(other.capabilities) == multiset(r.manifest.capabilities)
    requires other.requiresPrimaryKey == r.manifest.requiresPrimaryKey
    ensures ExplainField(r.(manifest := other), validated) == ExplainField(r, validated)
  {
    DecisionForgetsOrder(r, other, CollationMismatch(r));
  }

  lemma {:induction false} SameDecision(r: Request, other: Manifest, mismatch: bool, cs: seq<Candidate>)
    requires multiset(other.capabilities) == multiset(r.manifest.capabilities)
    requires cs != [] && Choose(r, cs).Some? ==>
               var code := cs[Choose(r, cs).value].code;
               FindCode(other.capabilities, code) == FindCode(r.manifest.capabilities, code)
    ensures Decide(r.(manifest := other), mismatch, cs) == Decide(r, mismatch, cs)
  {
    assert forall c :: c in other.capabilities <==> c in multiset(other.capabilities);
    assert forall c :: c in r.manifest.capabilities <==> c in multiset(r.manifest.capabilities);
  }

  lemma {:induction false} DecisionForgetsOrder(r: Request, other: Manifest, mismatch: bool)
    requires ValidManifest(r.manifest) && ValidManifest(other)
    requires multiset(other.capabilities) == multiset(r.manifest.capabilities)
    ensures
      var q := r.(manifest := other);
      Decide(q, mismatch, Candidates(q, mismatch)) == Decide(r, mismatch, Candidates(r, mismatch))
  {
    CandidatesForgetOrder(r, other, mismatch);
    ChosenCapability(r, other, mismatch, Candidates(r, mismatch));
    SameDecision(r, other, mismatch, Candidates(r, mismatch));
  }

  lemma {:induction false} ChosenCapability(r: Request, other: Manifest, mismatch: bool, cs: seq<Candidate>)
    requires ValidManifest(r.manifest) && ValidManifest(other)
    requires multiset(other.capabilities) == multiset(r.manifest.capabilities)
    requires forall candidate :: candidate in cs ==> candidate in Candidates(r, mismatch)
    ensures cs != [] && Choose(r, cs).Some? ==>
              var code := cs[Choose(r, cs).value].code;
              FindCode(other.capabilities, code) == FindCode(r.manifest.capabilities, code)
  {
    if cs != [] && Choose(r, cs).Some? {
      SameCapability(r, other, mismatch, cs[Choose(r, cs).value]);
    }
  }
}
