/**
 The planner's answers, said of the request's own fields: what every returned plan meets, when a capability
 is planned, and what is answered when none or several qualify.
 */
module PlannerAnswers {
  import opened Outcomes
  import opened Images
  import opened Sorting
  import opened Planner
  import Labels

  // ---------------------------------------------------------------- what a capability must meet

  /** Each required item is declared by the capability and by its rule, where they declare any. */
  ghost predicate Declares<T>(capability: set<T>, rule: set<T>, required: set<T>) {
    forall x :: x in required ==> (capability == {} || x in capability) && (rule == {} || x in rule)
  }

  ghost predicate Locates(f: FieldDefinition) {
    f.primaryKey.Some? || f.unique || f.rowLocator
  }

  /** The source may be converted into the target column at all: generated alike, and no NULL that it cannot take. */
  ghost predicate FieldsFit(r: Request) {
    r.source.generated == r.target.generated && (r.source.nullable ==> r.target.nullable)
  }

  /** Everything a capability must meet for the request. */
  ghost predicate Meets(r: Request, c: Capability) {
    && FieldsFit(r)
    && (r.selected.Some? ==> c.rule.reference == r.selected.value)
    && (r.probed.Some? ==> c.code in r.probed.value)
    && c.rule.qualification != Unsupported
    && Declares(c.operations, c.rule.operations, r.operations)
    && Declares(c.presences, c.rule.presences, r.presences)
    && r.matchesTypes(c) && r.matchesBinding(c)
    && (Locates(r.source) ==> c.rule.allowsKey)
    && (CONVERSION_KIND in c.target.parameters ==> !Locates(r.source) && !Locates(r.target))
    && (c.sourceType in {IntegerType(0), DecimalType(0), FloatType(0)} ==> r.source.logicalType != r.target.logicalType)
  }

  lemma {:induction false} MeetsMeansQualifies(r: Request, c: Capability)
    ensures Qualifies(r, c) <==> Meets(r, c)
  {
    DeclaresMeaning(c.operations, c.rule.operations, r.operations);
    DeclaresMeaning(c.presences, c.rule.presences, r.presences);
  }

  lemma {:induction false} DeclaresMeaning<T>(capability: set<T>, rule: set<T>, required: set<T>)
    ensures SupportsDeclared(capability, rule, required) <==> Declares(capability, rule, required)
  {
  }

  ghost predicate SaysSomething(text: string) {
    exists i :: 0 <= i < |text| && !Labels.IsWhitespace(text[i])
  }

  /** The manifest is intact, tells its entries apart by code, and each entry is usable. */
  ghost predicate UsableManifest(m: Manifest) {
    && m.intact
    && (forall i, j :: 0 <= i < j < |m.capabilities| ==> m.capabilities[i].code != m.capabilities[j].code)
    && forall c :: c in m.capabilities ==>
         && SaysSomething(c.code) && SaysSomething(c.target.nativeType) && SaysSomething(c.rule.reference.id)
         && SaysSomething(c.rule.reference.version) && SaysSomething(c.rule.evidence)
         && (c.rule.qualification == Unsupported
             || (c.rule.operations != {} && c.rule.presences != {}
                 && !(c.rule.qualification == ExplicitConversion && c.rule.allowsKey)))
  }

  lemma {:induction false} ValidMeansUsable(m: Manifest)
    ensures ValidManifest(m) <==> UsableManifest(m)
  {
    forall c: Capability
      ensures Complete(c) <==>
        && SaysSomething(c.code) && SaysSomething(c.target.nativeType) && SaysSomething(c.rule.reference.id)
        && SaysSomething(c.rule.reference.version) && SaysSomething(c.rule.evidence)
    {
    }
  }

  /** Candidates are listed exact first, explicit conversions last, then by risk, then by code. */
  lemma {:induction false} CandidatesAreRanked(r: Request, mismatch: bool, i: nat, j: nat)
    requires i < j < |Candidates(r, mismatch)|
    ensures
      var a, b := Candidates(r, mismatch)[i], Candidates(r, mismatch)[j];
      && (b.qualification == Exact ==> a.qualification == Exact)
      && (a.qualification == ExplicitConversion ==> b.qualification in {ExplicitConversion, Unsupported})
      && (a.qualification == b.qualification ==> a.risk <= b.risk)
      && (a.qualification == b.qualification && a.risk == b.risk ==> TextLeq(a.code, b.code))
  {
    CandidateOrder();
    var qualified := Filter((c: Capability) => Qualifies(r, c), r.manifest.capabilities);
    SortIsSorted(CandidateLeq, MapSeq((c: Capability) => CandidateOf(r, mismatch, c), qualified));
  }

  // ---------------------------------------------------------------- what every plan meets

  /** The kind of conversion between two equal families, which replaces a declared one. */
  ghost predicate FixesKind(source: LogicalType, target: LogicalType, kind: string) {
    || (source.BinaryType? && target.BinaryType? && kind == "binary")
    || (source.BitStringType? && target.BitStringType? && kind == "bit_string")
    || (source.SpatialType? && target.SpatialType? && kind == "spatial")
  }

  /** The capability's parameters with the request's details; details never bring a conversion kind. */
  ghost predicate PlannedWith(r: Request, p: Parameters, c: Capability) {
    && (forall key :: key in r.details(c) && key != CONVERSION_KIND ==> key in p && p[key] == r.details(c)[key])
    && (forall key :: key in c.target.parameters && key !in r.details(c) && key != CONVERSION_KIND ==>
          key in p && p[key] == c.target.parameters[key])
    && (forall key :: key in p ==> key in r.details(c) || key in c.target.parameters || key == CONVERSION_KIND)
    && (forall kind :: FixesKind(r.source.logicalType, r.target.logicalType, kind) ==>
          CONVERSION_KIND in p && p[CONVERSION_KIND] == kind)
    && ((forall kind :: !FixesKind(r.source.logicalType, r.target.logicalType, kind)) ==>
          && (CONVERSION_KIND in p <==> CONVERSION_KIND in c.target.parameters)
          && (CONVERSION_KIND in p ==> p[CONVERSION_KIND] == c.target.parameters[CONVERSION_KIND]))
  }

  lemma {:induction false} ParametersArePlanned(r: Request, c: Capability)
    ensures
      var given := c.target.parameters;
      PlannedWith(r, PlannedParameters(r.source.logicalType, r.target.logicalType, given, r.details(c)), c)
  {
    var kind := KindFor(r.source.logicalType, r.target.logicalType);
    assert kind.Some? ==> FixesKind(r.source.logicalType, r.target.logicalType, kind.value);
  }

  /** The plan is the capability's: rule, code, qualification, parameters, native type, and at least its risk. */
  ghost predicate IsPlanOf(r: Request, plan: Plan, c: Capability) {
    && plan.rule == c.rule.reference && plan.code == c.code && plan.qualification == c.rule.qualification
    && plan.risk >= c.rule.risk && plan.target.nativeType == r.nativeType(c)
    && PlannedWith(r, plan.target.parameters, c)
  }

  lemma {:induction false} PlanIsOf(r: Request, mismatch: bool, answer: Answer, c: Capability)
    requires answer == Confirm(r, CandidateOf(r, mismatch, c), PlanOf(r, mismatch, c))
    ensures answer.plan.Some? && IsPlanOf(r, answer.plan.value, c)
  {
    ParametersArePlanned(r, c);
  }

  lemma {:induction false} PlanHasCapability(r: Request, mismatch: bool, answer: Answer)
    requires Answers(r, mismatch, answer) && answer.plan.Some?
    ensures exists c :: c in r.manifest.capabilities && Meets(r, c) && IsPlanOf(r, answer.plan.value, c)
  {
    PlanOrigin(r, mismatch, answer);
    var c :| c in r.manifest.capabilities && Qualifies(r, c)
      && answer == Confirm(r, CandidateOf(r, mismatch, c), PlanOf(r, mismatch, c));
    PlanIsOf(r, mismatch, answer, c);
    MeetsMeansQualifies(r, c);
  }

  /** What a returned plan says about the request. */
  ghost predicate PlanFits(r: Request, plan: Plan) {
    && r.source.generated == r.target.generated && (r.source.nullable ==> r.target.nullable)
    && (r.selected.Some? ==> plan.rule == r.selected.value)
    && (r.probed.Some? ==> plan.code in r.probed.value)
    && plan.qualification != Unsupported
    && exists c :: c in r.manifest.capabilities && Meets(r, c) && IsPlanOf(r, plan, c)
  }

  lemma {:induction false} PlanFitsRequest(r: Request, mismatch: bool, answer: Answer)
    requires Answers(r, mismatch, answer) && answer.plan.Some?
    ensures PlanFits(r, answer.plan.value)
  {
    PlanHasCapability(r, mismatch, answer);
    var c :| c in r.manifest.capabilities && Meets(r, c) && IsPlanOf(r, answer.plan.value, c);
    assert FieldsFit(r);
  }

  /**
   A plan for a field of a transaction: the input and the manifest are valid, a required primary key is there,
   and the plan fits the request's own fields, selection, probe, operations and presences.
   */
  lemma {:induction false} TransactionPlanFits(r: Request)
    requires ExplainTransaction(r).Ok? && ExplainTransaction(r).value.plan.Some?
    ensures r.inputOk && UsableManifest(r.manifest) && (r.manifest.requiresPrimaryKey ==> r.hasPrimaryKey)
    ensures PlanFits(r, ExplainTransaction(r).value.plan.value)
  {
    ValidMeansUsable(r.manifest);
    PlanFitsRequest(r, false, ExplainTransaction(r).value);
  }

  /** Within one connector any difference counts; across connectors only one between two named collations. */
  ghost predicate CollationsDiffer(r: Request) {
    && r.source.collation != r.target.collation
    && (r.sameConnector || (r.source.collation.Some? && r.target.collation.Some?))
  }

  /**
   A plan from catalog definitions: moreover key positions agree, and so do the collations of a key; where
   other collations differ, the plan declares high risk and what can differ, and needs a confirmation.
   */
  lemma {:induction false} FieldPlanFits(r: Request, validated: bool)
    requires validated ==> ValidManifest(r.manifest)
    requires ExplainField(r, validated).Ok? && ExplainField(r, validated).value.plan.Some?
    ensures r.inputOk && UsableManifest(r.manifest) && (r.manifest.requiresPrimaryKey ==> r.hasPrimaryKey)
    ensures r.source.primaryKey == r.target.primaryKey && (Locates(r.source) ==> !CollationsDiffer(r))
    ensures PlanFits(r, ExplainField(r, validated).value.plan.value)
    ensures CollationsDiffer(r) ==>
              var answer := ExplainField(r, validated).value;
              && answer.plan.value.risk >= 3 && answer.plan.value.loss.comparison && answer.plan.value.loss.ordering
              && answer.plan.value.loss.constraints
              && (answer.status == Compatible ==> answer.plan.value.confirmation == Confirmed)
  {
    var answer := ExplainField(r, validated).value;
    ValidMeansUsable(r.manifest);
    PlanFitsRequest(r, CollationMismatch(r), answer);
    PlanDeclaresRisk(r, CollationMismatch(r), answer);
    if CollationsDiffer(r) && answer.status == Compatible {
      LossIsConfirmed(r, true, answer);
    }
  }

  // ---------------------------------------------------------------- the candidates

  lemma {:induction false} CandidateMembers(r: Request, mismatch: bool)
    ensures forall c :: c in r.manifest.capabilities && Meets(r, c) ==>
              CandidateOf(r, mismatch, c) in Candidates(r, mismatch)
    ensures forall x :: x in Candidates(r, mismatch) ==>
              exists c :: c in r.manifest.capabilities && Meets(r, c) && x == CandidateOf(r, mismatch, c)
  {
    var cs := Candidates(r, mismatch);
    forall x | x in cs
      ensures exists c :: c in r.manifest.capabilities && Meets(r, c) && x == CandidateOf(r, mismatch, c)
    {
      CandidateOrigin(r, mismatch, x);
      var c :| c in r.manifest.capabilities && Qualifies(r, c) && x == CandidateOf(r, mismatch, c);
      MeetsMeansQualifies(r, c);
    }
    forall c | c in r.manifest.capabilities && Meets(r, c)
      ensures CandidateOf(r, mismatch, c) in cs
    {
      MeetsMeansQualifies(r, c);
      CandidateIsListed(r, mismatch, c);
    }
  }

  lemma {:induction false} CandidateIsListed(r: Request, mismatch: bool, c: Capability)
    requires c in r.manifest.capabilities && Qualifies(r, c)
    ensures CandidateOf(r, mismatch, c) in Candidates(r, mismatch)
  {
    var p := (d: Capability) => Qualifies(r, d);
    var f := (d: Capability) => CandidateOf(r, mismatch, d);
    var qualified := Filter(p, r.manifest.capabilities);
    FilterMembers(p, r.manifest.capabilities);
    var i :| 0 <= i < |qualified| && qualified[i] == c;
    assert MapSeq(f, qualified)[i] == CandidateOf(r, mismatch, c);
    assert CandidateOf(r, mismatch, c) in multiset(MapSeq(f, qualified));
    assert CandidateOf(r, mismatch, c) in multiset(Candidates(r, mismatch));
  }

  ghost predicate OnceEach(cs: seq<Candidate>) {
    forall i, j :: 0 <= i < j < |cs| ==> cs[i].code != cs[j].code
  }

  lemma {:induction false} FilterKeepsCodes(p: Capability -> bool, caps: seq<Capability>)
    requires DistinctCodes(caps)
    ensures DistinctCodes(Filter(p, caps))
    decreases |caps|
  {
    if caps != [] {
      FilterKeepsCodes(p, caps[1..]);
      FilterMembers(p, caps[1..]);
      var rest := Filter(p, caps[1..]);
      forall j | 0 <= j < |rest|
        ensures rest[j].code != caps[0].code
      {
        assert rest[j] in rest && rest[j] in caps[1..];
        var k :| 0 <= k < |caps[1..]| && caps[1..][k] == rest[j];
        assert caps[k + 1] == rest[j];
      }
    }
  }

  lemma {:induction false} TwiceIsTwoPlaces<T>(s: seq<T>, i: nat, j: nat)
    requires i < j < |s| && s[i] == s[j]
    ensures multiset(s)[s[i]] >= 2
  {
    assert s == s[..j] + s[j..];
    assert s[i] in multiset(s[..j]) by { assert s[..j][i] == s[i]; }
    assert s[i] in multiset(s[j..]) by { assert s[j..][0] == s[i]; }
  }

  lemma {:induction false} OnceMeansOne(cs: seq<Candidate>, x: Candidate)
    requires OnceEach(cs)
    ensures multiset(cs)[x] <= 1
    decreases |cs|
  {
    if cs != [] {
      OnceMeansOne(cs[1..], x);
      assert cs == [cs[0]] + cs[1..];
      if cs[0] == x {
        forall k | 0 <= k < |cs[1..]|
          ensures cs[1..][k] != x
        {
          assert cs[k + 1].code != cs[0].code;
        }
      }
    }
  }

  lemma {:induction false} CodesApart(listed: seq<Candidate>, cs: seq<Candidate>, i: nat, j: nat)
    requires OnceEach(listed) && multiset(cs) == multiset(listed) && i < j < |cs|
    ensures cs[i].code != cs[j].code
  {
    assert cs[i] in multiset(listed) && cs[j] in multiset(listed);
    var a :| 0 <= a < |listed| && listed[a] == cs[i];
    var b :| 0 <= b < |listed| && listed[b] == cs[j];
    OnceMeansOne(listed, cs[i]);
    if a == b {
      TwiceIsTwoPlaces(cs, i, j);
    }
  }

  lemma {:induction false} MappedOnceEach(r: Request, mismatch: bool, caps: seq<Capability>, listed: seq<Candidate>)
    requires DistinctCodes(caps) && listed == MapSeq((d: Capability) => CandidateOf(r, mismatch, d), caps)
    ensures OnceEach(listed)
  {
    forall i, j | 0 <= i < j < |listed|
      ensures listed[i].code != listed[j].code
    {
      assert caps[i].code != caps[j].code;
    }
  }

  /** No two candidates of a valid manifest share a code. */
  lemma {:induction false} CandidatesOnceEach(r: Request, mismatch: bool)
    requires ValidManifest(r.manifest)
    ensures OnceEach(Candidates(r, mismatch))
  {
    var qualified := Filter((d: Capability) => Qualifies(r, d), r.manifest.capabilities);
    var listed := MapSeq((d: Capability) => CandidateOf(r, mismatch, d), qualified);
    var cs := Candidates(r, mismatch);
    FilterKeepsCodes((d: Capability) => Qualifies(r, d), r.manifest.capabilities);
    MappedOnceEach(r, mismatch, qualified, listed);
    forall i, j | 0 <= i < j < |cs|
      ensures cs[i].code != cs[j].code
    {
      CodesApart(listed, cs, i, j);
    }
  }

  // ---------------------------------------------------------------- which capability is planned

  ghost predicate IsNative(c: Capability) {
    c.rule.qualification == Exact
    && !(CONVERSION_KIND in c.target.parameters
         && c.target.parameters[CONVERSION_KIND] in {"logical_value_json", "source_representation"})
  }

  ghost predicate IsCarrierOf(c: Capability) {
    CONVERSION_KIND in c.target.parameters
    && c.target.parameters[CONVERSION_KIND] in {"logical_value_json", "source_representation"}
  }

  /** The capability meets the request, and any other that does is a carrier beside an exact native one. */
  ghost predicate Stands(r: Request, c: Capability) {
    && c in r.manifest.capabilities && Meets(r, c)
    && (forall d :: d in r.manifest.capabilities && Meets(r, d) && d != c ==> IsNative(c) && IsCarrierOf(d))
    && (IsCarrierOf(c) ==> r.selected.Some?)
  }

  lemma {:induction false} StandingIsChosen(r: Request, mismatch: bool, c: Capability)
    requires ValidManifest(r.manifest) && Stands(r, c)
    ensures
      var cs := Candidates(r, mismatch);
      cs != [] && Choose(r, cs).Some? && cs[Choose(r, cs).value] == CandidateOf(r, mismatch, c)
  {
    var cs := Candidates(r, mismatch);
    CandidateMembers(r, mismatch);
    CandidatesOnceEach(r, mismatch);
    var i :| 0 <= i < |cs| && cs[i] == CandidateOf(r, mismatch, c);
    forall k | 0 <= k < |cs| && k != i
      ensures IsCarrier(cs[k]) && IsNative(c)
    {
      OtherIsCarrier(r, mismatch, c, cs[k]);
    }
    assert |cs| > 1 ==> IsNative(c) by {
      if |cs| > 1 {
        var k := if i == 0 then 1 else 0;
        assert k != i && IsCarrier(cs[k]);
      }
    }
    if IsNative(c) {
      ExactNativeIsChosen(r, cs, i);
    }
  }

  lemma {:induction false} OtherIsCarrier(r: Request, mismatch: bool, c: Capability, x: Candidate)
    requires Stands(r, c) && x in Candidates(r, mismatch) && x.code != c.code
    ensures IsCarrier(x) && IsNative(c)
  {
    CandidateMembers(r, mismatch);
    var d :| d in r.manifest.capabilities && Meets(r, d) && x == CandidateOf(r, mismatch, d);
  }

  /** The capability's plan, confirmed where a confirmation is required and given. */
  ghost predicate IsPlanned(r: Request, mismatch: bool, c: Capability, answer: Answer) {
    && answer.plan.Some? && IsPlanOf(r, answer.plan.value, c)
    && var required := c.rule.requiresConfirmation || c.rule.qualification == ExplicitConversion || mismatch;
       && (!required ==> answer.status == Compatible)
       && (required ==>
             && (answer.status == Compatible || answer.status == NeedsConfirmation)
             && (answer.status == Compatible <==> answer.plan.value.confirmation == Confirmed)
             && (answer.status == Compatible <==> r.confirms(PlanOf(r, mismatch, c))))
  }

  lemma {:induction false} StandingIsPlanned(r: Request, mismatch: bool, c: Capability)
    requires ValidManifest(r.manifest) && Stands(r, c) && r.check(c) == ParametersOk
    ensures IsPlanned(r, mismatch, c, Decide(r, mismatch, Candidates(r, mismatch)))
  {
    StandingIsChosen(r, mismatch, c);
    FoundByCode(r.manifest.capabilities, c);
    ConfirmedPlan(r, mismatch, c);
  }

  lemma {:induction false} ConfirmedPlan(r: Request, mismatch: bool, c: Capability)
    ensures IsPlanned(r, mismatch, c, Confirm(r, CandidateOf(r, mismatch, c), PlanOf(r, mismatch, c)))
  {
    ParametersArePlanned(r, c);
  }

  /** A capability that stands for a valid request with good parameters is planned. */
  lemma {:induction false} TransactionIsPlanned(r: Request, c: Capability)
    requires r.inputOk && ValidManifest(r.manifest) && (r.manifest.requiresPrimaryKey ==> r.hasPrimaryKey)
    requires Stands(r, c) && r.check(c) == ParametersOk
    ensures ExplainTransaction(r).Ok? && IsPlanned(r, false, c, ExplainTransaction(r).value)
  {
    StandingIsPlanned(r, false, c);
  }

  lemma {:induction false} FieldIsPlanned(r: Request, validated: bool, c: Capability)
    requires r.inputOk && ValidManifest(r.manifest) && (r.manifest.requiresPrimaryKey ==> r.hasPrimaryKey)
    requires r.source.primaryKey == r.target.primaryKey && !(CollationsDiffer(r) && Locates(r.source))
    requires Stands(r, c) && r.check(c) == ParametersOk
    ensures ExplainField(r, validated).Ok? && IsPlanned(r, CollationsDiffer(r), c, ExplainField(r, validated).value)
  {
    StandingIsPlanned(r, CollationsDiffer(r), c);
  }

  /** Parameters that are invalid or missing keep a capability that stands from being planned. */
  lemma {:induction false} ParametersAreChecked(r: Request, mismatch: bool, c: Capability)
    requires ValidManifest(r.manifest) && Stands(r, c)
    ensures
      var answer := Decide(r, mismatch, Candidates(r, mismatch));
      && (r.check(c) == ParametersInvalid ==> answer == Answer(Blocked, None))
      && (r.check(c) == ParametersMissing ==> answer == Answer(NeedsConfiguration, None))
  {
    StandingIsChosen(r, mismatch, c);
    FoundByCode(r.manifest.capabilities, c);
  }

  /** What is answered before any capability is looked at. */
  lemma {:induction false} RefusedBeforePlanning(r: Request, validated: bool)
    ensures ExplainTransaction(r).Err? <==> !r.inputOk || !UsableManifest(r.manifest)
    ensures ExplainField(r, validated).Err? <==> !r.inputOk || (!validated && !UsableManifest(r.manifest))
    ensures
      r.inputOk && UsableManifest(r.manifest) ==>
        && (r.manifest.requiresPrimaryKey && !r.hasPrimaryKey ==>
              && ExplainTransaction(r) == Ok(Answer(Blocked, None))
              && ExplainField(r, validated) == Ok(Answer(Blocked, None)))
        && (r.source.primaryKey != r.target.primaryKey || (CollationsDiffer(r) && Locates(r.source)) ==>
              ExplainField(r, validated) == Ok(Answer(Blocked, None)))
  {
    ValidMeansUsable(r.manifest);
  }

  // ---------------------------------------------------------------- when nothing is planned

  lemma {:induction false} SomeMember<T>(s: seq<T>)
    ensures s == [] || exists x :: x in s
  {
    if s != [] {
      assert s[0] in s;
    }
  }

  /**
   Where no capability meets the request there is no plan: it is blocked when a key is kept from a capability
   that does not allow keys, or for spatial types, and otherwise not supported.
   */
  lemma {:induction false} NothingQualifies(r: Request, mismatch: bool)
    requires forall c :: c in r.manifest.capabilities ==> !Meets(r, c)
    ensures
      var answer := Decide(r, mismatch, Candidates(r, mismatch));
      && answer.plan.None? && (answer.status == Blocked || answer.status == NotSupported)
      && (answer.status == Blocked <==>
            || (Locates(r.source)
                && exists c :: c in r.manifest.capabilities && r.matchesTypes(c) && !c.rule.allowsKey)
            || r.spatialMismatch || r.source.logicalType.SpatialType?)
  {
    var cs := Candidates(r, mismatch);
    CandidateMembers(r, mismatch);
    SomeMember(cs);
  }

  /** Two that meet it and are no carriers compete: a selection is needed. */
  lemma {:induction false} CompetitorsNeedSelection(r: Request, mismatch: bool, c: Capability, d: Capability)
    requires c in r.manifest.capabilities && d in r.manifest.capabilities && c.code != d.code
    requires Meets(r, c) && Meets(r, d) && !IsCarrierOf(c) && !IsCarrierOf(d)
    ensures Decide(r, mismatch, Candidates(r, mismatch)) == Answer(NeedsConfiguration, None)
  {
    var cs := Candidates(r, mismatch);
    CandidateMembers(r, mismatch);
    var i :| 0 <= i < |cs| && cs[i] == CandidateOf(r, mismatch, c);
    var j :| 0 <= j < |cs| && cs[j] == CandidateOf(r, mismatch, d);
    assert i != j && !IsCarrier(cs[i]) && !IsCarrier(cs[j]);
  }

  /** Only carriers meet it and nothing is selected: a selection is needed. */
  lemma {:induction false} CarriersNeedSelection(r: Request, mismatch: bool, c: Capability)
    requires c in r.manifest.capabilities && Meets(r, c) && r.selected.None?
    requires forall d :: d in r.manifest.capabilities && Meets(r, d) ==> IsCarrierOf(d)
    ensures Decide(r, mismatch, Candidates(r, mismatch)) == Answer(NeedsConfiguration, None)
  {
    var cs := Candidates(r, mismatch);
    CandidateMembers(r, mismatch);
    forall k | 0 <= k < |cs|
      ensures IsCarrier(cs[k])
    {
      assert cs[k] in cs;
    }
  }

  // ---------------------------------------------------------------- what a plan declares

  ghost predicate TaggedJson(p: Parameters) {
    CONVERSION_KIND in p && p[CONVERSION_KIND] in {"logical_value_json", "recursive"}
  }

  ghost predicate SourceEnvelope(p: Parameters) {
    CONVERSION_KIND in p && p[CONVERSION_KIND] == "source_representation"
  }

  /** Nothing is lost silently. */
  ghost predicate LossIsDeclared(r: Request, mismatch: bool, plan: Plan) {
    var p := plan.target.parameters;
    && (!plan.loss.value <==>
          TaggedJson(p) || (!SourceEnvelope(p) && plan.qualification in {Exact, RangeChecked}))
    && (!plan.loss.constraints <==>
          !TaggedJson(p) && !SourceEnvelope(p) && plan.qualification in {Exact, RangeChecked} && !mismatch)
    && (plan.loss.comparison <==> plan.loss.ordering)
    && (!plan.loss.comparison <==>
          && !TaggedJson(p) && !SourceEnvelope(p) && !mismatch
          && (plan.qualification in {Exact, RangeChecked} || !Locates(r.source)))
    && (plan.locator == Preserved <==> Locates(r.source))
    && (plan.locator == ValueOnly <==> !Locates(r.source) && plan.qualification == ExplicitConversion)
  }

  /**
   A plan keeps the value only if it is exact, range-checked or a tagged JSON carrier, keeps constraints only if
   it is exact or range-checked with equal collations and no carrier, and says so; the locator is preserved
   exactly for keys.
   */
  lemma {:induction false} PlanDeclaresLoss(r: Request, mismatch: bool, answer: Answer)
    requires Answers(r, mismatch, answer) && answer.plan.Some?
    ensures LossIsDeclared(r, mismatch, answer.plan.value)
  {
    PlanOrigin(r, mismatch, answer);
    var c :| c in r.manifest.capabilities && Qualifies(r, c)
      && answer == Confirm(r, CandidateOf(r, mismatch, c), PlanOf(r, mismatch, c));
    QualifiedIsSupported(r, c);
    PlanLoss(r, mismatch, c, answer);
  }

  lemma {:induction false} QualifiedIsSupported(r: Request, c: Capability)
    requires Qualifies(r, c)
    ensures c.rule.qualification != Unsupported
  {
  }

  lemma {:induction false} PlanLoss(r: Request, mismatch: bool, c: Capability, answer: Answer)
    requires c.rule.qualification != Unsupported
    requires answer == Confirm(r, CandidateOf(r, mismatch, c), PlanOf(r, mismatch, c))
    ensures answer.plan.Some? && LossIsDeclared(r, mismatch, answer.plan.value)
  {
  }
}
