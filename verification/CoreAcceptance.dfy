/**
 The producer: validated run specification and hosted results in, one manifest out.
 */
module CoreAcceptance {
  import opened Option
  import opened Lists
  import opened AcceptanceTypes

  const MAX_ARTIFACT_BYTES := 8 * 1024 * 1024
  const MAX_CONTRACT_BYTES := 65_536
  const MAX_CASE_DURATION := 60 * 60 * 1_000
  const MAX_RUN_DURATION := 4 * 60 * 60 * 1_000
  const MAX_RUN_COST := 10_000_000

  const CASE_ORDER: seq<CaseKind> := [
    TargetReset, HealthyPromotion, UnhealthyStableRecovery, RevocationStaleDenial,
    IndependentVerifierProbe, AmbiguityCase, TimelineConsoleRead, BoundedAdvisor]

  const COMPONENT_ORDER: seq<Component> := [Controller, Advisor, Console, ReferenceStable, ReferenceCandidate]

  function ExpectedResult(kind: CaseKind): string {
    match kind
    case TargetReset => "RESET_VERIFIED"
    case HealthyPromotion => "PROMOTED"
    case UnhealthyStableRecovery => "RECOVERED"
    case RevocationStaleDenial => "DENIED"
    case IndependentVerifierProbe => "VERIFIED"
    case AmbiguityCase => "AMBIGUOUS"
    case TimelineConsoleRead => "READABLE"
    case BoundedAdvisor => "ADVISORY_ONLY"
  }

  function RequiredEvidence(kind: CaseKind): set<EvidenceKind> {
    match kind
    case TargetReset => {CloudRunConfiguration, DataPathProbe}
    case HealthyPromotion =>
      {CloudRunConfiguration, DataPathProbe, VerifiedCapabilityMetadata, ExecutorEpochCheck, ExecutionReceipt,
       HealthDecision, EvidenceKind.Timeline}
    case UnhealthyStableRecovery =>
      {CloudRunConfiguration, DataPathProbe, VerifiedCapabilityMetadata, ExecutorEpochCheck, ExecutionReceipt,
       HealthDecision, RecoveryServiceIdentityBinding, EvidenceKind.Timeline}
    case RevocationStaleDenial =>
      {AuthorityTransition, CloudRunConfiguration, DataPathProbe, VerifiedCapabilityMetadata, ExecutorEpochCheck,
       StaleDenial, ExecutionReceipt, Coordinator, ModelAudit, EvidenceKind.Timeline}
    case IndependentVerifierProbe =>
      {CloudRunConfiguration, DataPathProbe, IndependentVerification, EvidenceKind.Timeline}
    case AmbiguityCase =>
      {CloudRunConfiguration, ExecutionReceipt, AmbiguityClassification, EvidenceKind.Timeline}
    case TimelineConsoleRead => {CloudRunConfiguration, EvidenceKind.Timeline, ConsoleRead}
    case BoundedAdvisor => {CloudRunConfiguration, Coordinator, ModelAudit, PublicReplaySeed, EvidenceKind.Timeline}
  }

  function EntryPoints(kind: CaseKind): seq<string> {
    var second := match kind
      case TargetReset => "runner:verify-stable-data-path"
      case HealthyPromotion => "runner:observe-healthy-promotion"
      case UnhealthyStableRecovery => "runner:observe-unhealthy-stable-recovery"
      case RevocationStaleDenial => "runner:observe-revocation-stale-denial"
      case IndependentVerifierProbe => "runner:observe-independent-verification"
      case AmbiguityCase => "runner:observe-ambiguity-classification"
      case TimelineConsoleRead => "runner:observe-timeline-console"
      case BoundedAdvisor => "runner:observe-bounded-advisor";
    ["runner:reset-reference-target", second]
  }

  // ---- The specification's validators

  predicate BindingValid(b: Binding) {
    IsIdentifier(b.artifactId) && IsSha256(b.sha256)
  }

  predicate TargetValid(t: Target) {
    && IsCanaryProject(t.projectId) && t.region == "us-central1"
    && t.serviceName == "controlgraph-reference-target"
    && IsCloudRunName(t.stableRevision) && IsCloudRunName(t.candidateRevision)
    && t.stableRevision != t.candidateRevision
  }

  /** The producer's pattern allows any region and project; the target then fixes both. */
  predicate ImageValid(image: Image, target: Target) {
    var r := image.reference;
    && IsCloudRunName(r.name) && IsSha256(r.digest)
    && r.project == target.projectId && r.region == target.region && r.name == ComponentName(image.component)
  }

  predicate CaseBindingValid(b: CaseBinding, clock: set<string>) {
    && IsIdentifier(b.caseId) && 0 <= b.randomSeed <= MAX_SAFE_INTEGER
    && 1 <= |b.clockKeys| <= 32 && Distinct(b.clockKeys) && Elements(b.clockKeys) <= clock
    && 1 <= b.maximumDuration <= MAX_CASE_DURATION && 0 <= b.maximumCost <= MAX_RUN_COST
    && BindingValid(b.result) && b.result.media == JsonMedia
  }

  function CaseDurations(cases: seq<CaseBinding>): seq<int> {
    seq(|cases|, i requires 0 <= i < |cases| => cases[i].maximumDuration)
  }

  function CaseCosts(cases: seq<CaseBinding>): seq<int> {
    seq(|cases|, i requires 0 <= i < |cases| => cases[i].maximumCost)
  }

  function PolicyIds(policies: seq<Policy>): seq<string> {
    seq(|policies|, i requires 0 <= i < |policies| => policies[i].artifact.artifactId)
  }

  function ResultIds(cases: seq<CaseBinding>): seq<string> {
    seq(|cases|, i requires 0 <= i < |cases| => cases[i].result.artifactId)
  }

  /** The artifacts a specification names: plan, policies and case results. */
  function TopLevelIds(spec: Spec): seq<string> {
    [spec.plan.artifactId] + PolicyIds(spec.policies) + ResultIds(spec.cases)
  }

  function TickNames(clock: seq<Tick>): seq<string> {
    seq(|clock|, i requires 0 <= i < |clock| => clock[i].name)
  }

  predicate ImagesValid(spec: Spec) {
    && |spec.images| == |COMPONENT_ORDER|
    && (forall i :: 0 <= i < |spec.images| ==>
          spec.images[i].component == COMPONENT_ORDER[i] && ImageValid(spec.images[i], spec.target))
    && forall i, j :: 0 <= i < j < |spec.images| ==>
         spec.images[i].reference.digest != spec.images[j].reference.digest
  }

  predicate PoliciesValid(spec: Spec) {
    && 1 <= |spec.policies| <= 8
    && forall i :: 0 <= i < |spec.policies| ==>
         && IsSchemaVersion(spec.policies[i].schemaVersion) && BindingValid(spec.policies[i].artifact)
         && spec.policies[i].artifact.media == JsonMedia
  }

  predicate ClockValid(clock: seq<Tick>) {
    && 1 <= |clock| <= 64 && Distinct(TickNames(clock))
    && forall i, j :: 0 <= i < j < |clock| ==> clock[i].at <= clock[j].at
  }

  predicate CasesValid(spec: Spec) {
    && |spec.cases| == |CASE_ORDER|
    && (forall i :: 0 <= i < |spec.cases| ==>
          && spec.cases[i].sequence == i + 1 && spec.cases[i].kind == CASE_ORDER[i]
          && CaseBindingValid(spec.cases[i], Elements(TickNames(spec.clock))))
    && (forall i, j :: 0 <= i < j < |spec.cases| ==> spec.cases[i].caseId != spec.cases[j].caseId)
    && Sum(CaseDurations(spec.cases)) <= spec.maximumDuration
    && Sum(CaseCosts(spec.cases)) <= spec.maximumCost
  }

  predicate SpecValid(spec: Spec) {
    && TargetValid(spec.target) && ImagesValid(spec) && BindingValid(spec.plan) && PoliciesValid(spec)
    && 0 <= spec.randomSeed <= MAX_SAFE_INTEGER && ClockValid(spec.clock)
    && 1 <= spec.maximumDuration <= MAX_RUN_DURATION && 0 <= spec.maximumCost <= MAX_RUN_COST
    && CasesValid(spec)
    && Distinct(TopLevelIds(spec))
  }

  // ---- A result's validators

  predicate StepValid(step: Step, index: nat) {
    && step.sequence == index + 1
    && IsIdentifier(step.operation) && 0 <= step.duration <= MAX_CASE_DURATION
    && 1 <= |step.evidenceIds| <= 32 && Distinct(step.evidenceIds)
  }

  function StepDurations(steps: seq<Step>): seq<int> {
    seq(|steps|, i requires 0 <= i < |steps| => steps[i].duration)
  }

  function Referenced(steps: seq<Step>): set<string> {
    set i, id | 0 <= i < |steps| && id in steps[i].evidenceIds :: id
  }

  function EvidenceIds(evidence: seq<Evidence>): seq<string> {
    seq(|evidence|, i requires 0 <= i < |evidence| => evidence[i].evidenceId)
  }

  function Max(a: int, b: int): int {
    if a >= b then a else b
  }

  predicate ResultValid(r: CaseResult) {
    && IsIdentifier(r.observed)
    && r.startedAt <= r.completedAt
    && 0 <= r.duration <= MAX_CASE_DURATION && 0 <= r.cost <= MAX_RUN_COST
    && (var elapsed := (r.completedAt - r.startedAt) * 1_000;
        Max(0, elapsed - 999) <= r.duration <= elapsed + 999)
    && 1 <= |r.steps| <= 32 && 1 <= |r.evidence| <= 32
    && (forall i :: 0 <= i < |r.steps| ==> StepValid(r.steps[i], i))
    && Sum(StepDurations(r.steps)) <= r.duration
    && (forall i :: 0 <= i < |r.evidence| ==>
          && IsIdentifier(r.evidence[i].evidenceId) && BindingValid(r.evidence[i].artifact)
          && r.startedAt <= r.evidence[i].observedAt <= r.completedAt)
    && Distinct(EvidenceIds(r.evidence))
    && Referenced(r.steps) == Elements(EvidenceIds(r.evidence))
    && (r.status == Passed ==> forall i :: 0 <= i < |r.steps| ==> r.steps[i].status == Passed)
  }

  // ---- Files

  /**
   What reading a bound file gives: its size if the file is there with the bound
   digest (zero otherwise), the case result it decodes to, and whether an
   observation file says what its evidence binding says.
   */
  datatype Files = Files(
    size: Binding -> nat,
    result: Binding -> Option<CaseResult>,
    observes: (CaseBinding, Evidence, string) -> bool)

  predicate Readable(b: Binding, maximum: int, f: Files) {
    0 < f.size(b) <= maximum
  }

  function ArtifactOf(b: Binding, f: Files): Artifact {
    Artifact(b.artifactId, f.size(b), b.media, b.sha256)
  }

  // ---- One case

  function EvidenceKinds(evidence: seq<Evidence>): set<EvidenceKind> {
    set i | 0 <= i < |evidence| :: evidence[i].kind
  }

  predicate EvidenceBound(e: Evidence, b: CaseBinding, runInputs: string, f: Files) {
    e.runInputs == runInputs && Readable(e.artifact, MAX_ARTIFACT_BYTES, f) && f.observes(b, e, runInputs)
  }

  /** The result answers its binding, and a passed one is within its bounds with all required evidence. */
  predicate CaseBound(b: CaseBinding, r: CaseResult, spec: Spec, runInputs: string, f: Files) {
    && r.caseId == b.caseId && r.kind == b.kind && r.sourceCommit == spec.sourceCommit
    && r.runInputs == runInputs && r.target == spec.target
    && r.randomSeed == b.randomSeed && r.clockKeys == b.clockKeys
    && |r.steps| == |EntryPoints(b.kind)|
    && (forall i :: 0 <= i < |r.steps| ==> r.steps[i].operation == EntryPoints(b.kind)[i])
    && (r.status == Passed ==>
          && r.observed == ExpectedResult(b.kind)
          && r.duration <= b.maximumDuration && r.cost <= b.maximumCost
          && RequiredEvidence(b.kind) <= EvidenceKinds(r.evidence))
    && forall i :: 0 <= i < |r.evidence| ==> EvidenceBound(r.evidence[i], b, runInputs, f)
  }

  function EvidenceOf(e: Evidence, f: Files): ManifestEvidence {
    ManifestEvidence(ArtifactOf(e.artifact, f), e.evidenceId, e.kind, e.observedAt, e.projection)
  }

  function CaseOf(b: CaseBinding, r: CaseResult, f: Files): ManifestCase {
    ManifestCase(
      b.sequence, b.caseId, b.kind, r.status, ExpectedResult(b.kind), r.observed,
      r.duration, b.maximumDuration, Cost(r.costBasis, r.cost, b.maximumCost), EntryPoints(b.kind),
      seq(|r.evidence|, i requires 0 <= i < |r.evidence| => EvidenceOf(r.evidence[i], f)),
      r.steps, ArtifactOf(b.result, f), b.randomSeed, b.clockKeys, r.startedAt, r.completedAt)
  }

  // ---- The whole manifest

  /** The result of a case, once its file is readable, small enough and valid. */
  function ReadResult(b: CaseBinding, f: Files): Option<CaseResult> {
    if Readable(b.result, MAX_CONTRACT_BYTES, f) && f.result(b.result).Some? && ResultValid(f.result(b.result).value)
    then f.result(b.result)
    else None
  }

  predicate ResultsReadable(cases: seq<CaseBinding>, f: Files) {
    forall i :: 0 <= i < |cases| ==> ReadResult(cases[i], f).Some?
  }

  function Results(cases: seq<CaseBinding>, f: Files): seq<CaseResult>
    requires ResultsReadable(cases, f)
  {
    seq(|cases|, i requires 0 <= i < |cases| => ReadResult(cases[i], f).value)
  }

  /** All evidence identities of a run, case by case. */
  function AllEvidenceIds(results: seq<CaseResult>): seq<string> {
    if results == [] then []
    else AllEvidenceIds(results[..|results| - 1]) + EvidenceIds(results[|results| - 1].evidence)
  }

  /** No case starts before the one listed before it completed. */
  predicate Sequential(results: seq<CaseResult>) {
    forall i :: 0 < i < |results| ==> results[i - 1].completedAt <= results[i].startedAt
  }

  /** Every case's result is readable and answers its binding, and no evidence identity is reused. */
  predicate CasesReady(spec: Spec, runInputs: string, f: Files) {
    && ResultsReadable(spec.cases, f)
    && (forall i :: 0 <= i < |spec.cases| ==>
          CaseBound(spec.cases[i], Results(spec.cases, f)[i], spec, runInputs, f))
    && Distinct(AllEvidenceIds(Results(spec.cases, f)))
  }

  predicate PoliciesReadable(policies: seq<Policy>, f: Files) {
    forall i :: 0 <= i < |policies| ==> Readable(policies[i].artifact, MAX_ARTIFACT_BYTES, f)
  }

  predicate Buildable(spec: Spec, runInputs: string, f: Files) {
    && SpecValid(spec)
    && Readable(spec.plan, MAX_ARTIFACT_BYTES, f)
    && PoliciesReadable(spec.policies, f)
    && CasesReady(spec, runInputs, f)
    && Sequential(Results(spec.cases, f))
  }

  function Durations(results: seq<CaseResult>): seq<int> {
    seq(|results|, i requires 0 <= i < |results| => results[i].duration)
  }

  function Costs(results: seq<CaseResult>): seq<int> {
    seq(|results|, i requires 0 <= i < |results| => results[i].cost)
  }

  predicate AllPassed(results: seq<CaseResult>) {
    forall i :: 0 <= i < |results| ==> results[i].status == Passed
  }

  predicate RunPassed(spec: Spec, results: seq<CaseResult>) {
    && AllPassed(results)
    && Sum(Durations(results)) <= spec.maximumDuration
    && Sum(Costs(results)) <= spec.maximumCost
  }

  const RUN_ID_PREFIX := "cgacceptance:"

  function PolicyOf(p: Policy, f: Files): ManifestPolicy {
    ManifestPolicy(p.schemaVersion, ArtifactOf(p.artifact, f))
  }

  function PoliciesOf(policies: seq<Policy>, f: Files): seq<ManifestPolicy> {
    seq(|policies|, i requires 0 <= i < |policies| => PolicyOf(policies[i], f))
  }

  function CasesOf(cases: seq<CaseBinding>, results: seq<CaseResult>, f: Files): seq<ManifestCase>
    requires |cases| == |results|
  {
    seq(|cases|, i requires 0 <= i < |cases| => CaseOf(cases[i], results[i], f))
  }

  function RunBasis(results: seq<CaseResult>): CostBasis {
    if forall i :: 0 <= i < |results| ==> results[i].costBasis == Measured then Measured else UpperBound
  }

  function Starts(results: seq<CaseResult>): seq<nat> {
    seq(|results|, i requires 0 <= i < |results| => results[i].startedAt)
  }

  function Completions(results: seq<CaseResult>): seq<nat> {
    seq(|results|, i requires 0 <= i < |results| => results[i].completedAt)
  }

  function ManifestOf(spec: Spec, specSha: string, runInputs: string, f: Files): Manifest
    requires ResultsReadable(spec.cases, f)
  {
    var results := Results(spec.cases, f);
    var status := if RunPassed(spec, results) then Passed else Failed;
    Manifest(
      status, status == Passed, specSha, RUN_ID_PREFIX + specSha, runInputs, spec.sourceCommit, spec.randomSeed,
      spec.target, spec.images, ArtifactOf(spec.plan, f), PoliciesOf(spec.policies, f),
      CasesOf(spec.cases, results, f), Sum(Durations(results)), spec.maximumDuration,
      Cost(RunBasis(results), Sum(Costs(results)), spec.maximumCost),
      Least(Starts(results)), Greatest(Completions(results)))
  }

  // ---- Building it

  /** One case's manifest entry, or nothing if the result does not answer its binding. */
  method BuildCase(b: CaseBinding, r: CaseResult, spec: Spec, runInputs: string, f: Files)
    returns (c: Option<ManifestCase>)
    ensures c.Some? <==> CaseBound(b, r, spec, runInputs, f)
    ensures c.Some? ==> c.value == CaseOf(b, r, f)
  {
    if || r.caseId != b.caseId || r.kind != b.kind || r.sourceCommit != spec.sourceCommit
       || r.runInputs != runInputs || r.target != spec.target
       || r.randomSeed != b.randomSeed || r.clockKeys != b.clockKeys
    {
      return None;
    }
    if |r.steps| != |EntryPoints(b.kind)|
      || exists i :: 0 <= i < |r.steps| && r.steps[i].operation != EntryPoints(b.kind)[i]
    {
      return None;
    }
    if r.status == Passed
      && (|| r.observed != ExpectedResult(b.kind)
          || r.duration > b.maximumDuration || r.cost > b.maximumCost
          || !(RequiredEvidence(b.kind) <= EvidenceKinds(r.evidence)))
    {
      return None;
    }
    var evidence: seq<ManifestEvidence> := [];
    for i := 0 to |r.evidence|
      invariant |evidence| == i
      invariant forall j :: 0 <= j < i ==>
                  EvidenceBound(r.evidence[j], b, runInputs, f) && evidence[j] == EvidenceOf(r.evidence[j], f)
    {
      var item := r.evidence[i];
      if || item.runInputs != runInputs
         || !Readable(item.artifact, MAX_ARTIFACT_BYTES, f)
         || !f.observes(b, item, runInputs)
      {
        assert !EvidenceBound(r.evidence[i], b, runInputs, f);
        return None;
      }
      evidence := evidence + [EvidenceOf(item, f)];
    }
    c := Some(ManifestCase(
      b.sequence, b.caseId, b.kind, r.status, ExpectedResult(b.kind), r.observed,
      r.duration, b.maximumDuration, Cost(r.costBasis, r.cost, b.maximumCost), EntryPoints(b.kind), evidence,
      r.steps, ArtifactOf(b.result, f), b.randomSeed, b.clockKeys, r.startedAt, r.completedAt));
    assert evidence == CaseOf(b, r, f).evidence;
  }

  lemma AllEvidenceIdsSnoc(results: seq<CaseResult>, r: CaseResult)
    ensures AllEvidenceIds(results + [r]) == AllEvidenceIds(results) + EvidenceIds(r.evidence)
  {
    assert (results + [r])[..|results|] == results;
  }

  lemma {:induction false} AllEvidenceIdsPrefix(results: seq<CaseResult>, n: nat)
    requires n <= |results|
    ensures Distinct(AllEvidenceIds(results)) ==> Distinct(AllEvidenceIds(results[..n]))
    decreases |results|
  {
    if n < |results| {
      var m := |results| - 1;
      if Distinct(AllEvidenceIds(results)) {
        DistinctPrefix(AllEvidenceIds(results[..m]), EvidenceIds(results[m].evidence));
      }
      AllEvidenceIdsPrefix(results[..m], n);
      assert results[..m][..n] == results[..n];
    } else {
      assert results[..n] == results;
    }
  }

  /** What the case loop has established after `n` cases. */
  ghost predicate CasesBuilt(
    spec: Spec, runInputs: string, f: Files, n: nat, cases: seq<ManifestCase>, results: seq<CaseResult>)
    requires n <= |spec.cases|
  {
    && |cases| == n == |results|
    && (forall i :: 0 <= i < n ==> CaseBuilt(spec.cases[i], spec, runInputs, f, cases[i], results[i]))
    && Distinct(AllEvidenceIds(results))
  }

  ghost predicate CaseBuilt(
    b: CaseBinding, spec: Spec, runInputs: string, f: Files, c: ManifestCase, r: CaseResult)
  {
    && ReadResult(b, f) == Some(r)
    && CaseBound(b, r, spec, runInputs, f)
    && c == CaseOf(b, r, f)
  }

  /** The case loop: read each result, refuse a reused evidence identity, bind and record it. */
  method BuildCases(spec: Spec, runInputs: string, f: Files)
    returns (ok: bool, cases: seq<ManifestCase>, results: seq<CaseResult>)
    ensures ok <==> CasesReady(spec, runInputs, f)
    ensures ok ==> results == Results(spec.cases, f) && cases == CasesOf(spec.cases, results, f)
  {
    ok, cases, results := true, [], [];
    var seen: set<string> := {};
    for n := 0 to |spec.cases|
      invariant ok && CasesBuilt(spec, runInputs, f, n, cases, results)
      invariant seen == Elements(AllEvidenceIds(results))
    {
      var read := ReadResult(spec.cases[n], f);
      if read == None {
        ok := false;
        return;
      }
      var ids := EvidenceIds(read.value.evidence);
      FreshIds(spec.cases[n], results, read.value, seen, f);
      if seen * Elements(ids) != {} {
        ReusedNotReady(spec, runInputs, f, n, cases, results, read.value);
        ok := false;
        return;
      }
      seen := seen + Elements(ids);
      var built := BuildCase(spec.cases[n], read.value, spec, runInputs, f);
      if built == None {
        UnboundNotReady(spec, runInputs, f, n, read.value);
        ok := false;
        return;
      }
      OneMoreBuilt(spec, runInputs, f, n, cases, results, built.value, read.value);
      cases, results := cases + [built.value], results + [read.value];
    }
    AllBuilt(spec, runInputs, f, cases, results);
  }

  lemma OneMoreBuilt(
    spec: Spec, runInputs: string, f: Files, n: nat, cases: seq<ManifestCase>, results: seq<CaseResult>,
    c: ManifestCase, r: CaseResult)
    requires n < |spec.cases| && CasesBuilt(spec, runInputs, f, n, cases, results)
    requires CaseBuilt(spec.cases[n], spec, runInputs, f, c, r)
    requires Distinct(AllEvidenceIds(results + [r]))
    ensures CasesBuilt(spec, runInputs, f, n + 1, cases + [c], results + [r])
  {
    hide CaseBuilt, AllEvidenceIds;
  }

  lemma ReusedNotReady(
    spec: Spec, runInputs: string, f: Files, n: nat, cases: seq<ManifestCase>, results: seq<CaseResult>,
    r: CaseResult)
    requires n < |spec.cases| && CasesBuilt(spec, runInputs, f, n, cases, results)
    requires ReadResult(spec.cases[n], f) == Some(r)
    requires !Distinct(AllEvidenceIds(results + [r]))
    ensures !CasesReady(spec, runInputs, f)
  {
    hide CaseBound, ResultValid, AllEvidenceIds;
    if ResultsReadable(spec.cases, f) {
      var all := Results(spec.cases, f);
      AllEvidenceIdsPrefix(all, n + 1);
      forall i | 0 <= i < n
        ensures all[i] == results[i]
      {
        assert CaseBuilt(spec.cases[i], spec, runInputs, f, cases[i], results[i]);
      }
      assert all[..n + 1] == results + [r];
    }
  }

  lemma UnboundNotReady(spec: Spec, runInputs: string, f: Files, n: nat, r: CaseResult)
    requires n < |spec.cases| && ReadResult(spec.cases[n], f) == Some(r)
    requires !CaseBound(spec.cases[n], r, spec, runInputs, f)
    ensures !CasesReady(spec, runInputs, f)
  {
    if ResultsReadable(spec.cases, f) {
      assert Results(spec.cases, f)[n] == r;
    }
  }

  lemma AllBuilt(
    spec: Spec, runInputs: string, f: Files, cases: seq<ManifestCase>, results: seq<CaseResult>)
    requires CasesBuilt(spec, runInputs, f, |spec.cases|, cases, results)
    ensures CasesReady(spec, runInputs, f)
    ensures results == Results(spec.cases, f) && cases == CasesOf(spec.cases, results, f)
  {
    forall i | 0 <= i < |spec.cases|
      ensures ReadResult(spec.cases[i], f) == Some(results[i])
      ensures CaseBound(spec.cases[i], results[i], spec, runInputs, f)
      ensures cases[i] == CaseOf(spec.cases[i], results[i], f)
    {
      assert CaseBuilt(spec.cases[i], spec, runInputs, f, cases[i], results[i]);
    }
    assert ResultsReadable(spec.cases, f);
    assert results == Results(spec.cases, f);
  }

  /** The set test on identities already seen is a test that the whole list repeats nothing. */
  lemma FreshIds(b: CaseBinding, results: seq<CaseResult>, r: CaseResult, seen: set<string>, f: Files)
    requires ReadResult(b, f) == Some(r) && Distinct(AllEvidenceIds(results))
    requires seen == Elements(AllEvidenceIds(results))
    ensures var ids := Elements(EvidenceIds(r.evidence));
            && (seen * ids == {} <==> Distinct(AllEvidenceIds(results + [r])))
            && seen + ids == Elements(AllEvidenceIds(results + [r]))
  {
    AllEvidenceIdsSnoc(results, r);
    ReadResultDistinct(b, f);
    AppendDistinct(AllEvidenceIds(results), EvidenceIds(r.evidence));
  }

  lemma ReadResultDistinct(b: CaseBinding, f: Files)
    requires ReadResult(b, f).Some?
    ensures Distinct(EvidenceIds(ReadResult(b, f).value.evidence))
  {
  }

  lemma AppendDistinct<T>(s: seq<T>, t: seq<T>)
    requires Distinct(s) && Distinct(t)
    ensures Distinct(s + t) <==> Elements(s) * Elements(t) == {}
    ensures Elements(s + t) == Elements(s) + Elements(t)
  {
    DistinctUnion(s + t, s, t);
    if forall x :: x in s ==> x !in t {
      assert Elements(s) * Elements(t) == {};
    } else {
      var x :| x in s && x in t;
      assert x in Elements(s) * Elements(t);
    }
  }

  method BindPolicies(policies: seq<Policy>, f: Files) returns (bound: Option<seq<ManifestPolicy>>)
    ensures bound.Some? <==> PoliciesReadable(policies, f)
    ensures bound.Some? ==> bound.value == PoliciesOf(policies, f)
  {
    var entries: seq<ManifestPolicy> := [];
    for i := 0 to |policies|
      invariant |entries| == i
      invariant forall j :: 0 <= j < i ==>
                  Readable(policies[j].artifact, MAX_ARTIFACT_BYTES, f) && entries[j] == PolicyOf(policies[j], f)
    {
      if !Readable(policies[i].artifact, MAX_ARTIFACT_BYTES, f) {
        return None;
      }
      entries := entries + [PolicyOf(policies[i], f)];
    }
    assert entries == PoliciesOf(policies, f);
    return Some(entries);
  }

  method CheckSequence(results: seq<CaseResult>) returns (ok: bool)
    ensures ok <==> Sequential(results)
  {
    for i := 0 to |results|
      invariant forall j :: 0 < j < i ==> results[j - 1].completedAt <= results[j].startedAt
    {
      if i > 0 && results[i].startedAt < results[i - 1].completedAt {
        return false;
      }
    }
    return true;
  }

  /** `encodes` says whether the canonical encoder takes a manifest, which it does only up to its size limit. */
  method BuildManifest(
    spec: Spec, specSha: string, runInputs: string, f: Files, encodes: Manifest -> bool)
    returns (m: Option<Manifest>)
    ensures m.Some? <==> Buildable(spec, runInputs, f) && encodes(ManifestOf(spec, specSha, runInputs, f))
    ensures m.Some? ==> m.value == ManifestOf(spec, specSha, runInputs, f)
  {
    hide SpecValid, ResultValid, CaseBound, Sequential, Sum, Least, Greatest;
    if !SpecValid(spec) || !Readable(spec.plan, MAX_ARTIFACT_BYTES, f) {
      return None;
    }
    var policies := BindPolicies(spec.policies, f);
    if policies == None {
      return None;
    }
    var ok, cases, results := BuildCases(spec, runInputs, f);
    if !ok {
      return None;
    }
    var sequential := CheckSequence(results);
    if !sequential {
      return None;
    }
    var totalDuration, totalCost := Sum(Durations(results)), Sum(Costs(results));
    var passed :=
      && AllPassed(results)
      && totalDuration <= spec.maximumDuration
      && totalCost <= spec.maximumCost;
    var manifest := Manifest(
      if passed then Passed else Failed, passed, specSha, RUN_ID_PREFIX + specSha, runInputs, spec.sourceCommit,
      spec.randomSeed, spec.target, spec.images, ArtifactOf(spec.plan, f), policies.value, cases,
      totalDuration, spec.maximumDuration, Cost(RunBasis(results), totalCost, spec.maximumCost),
      Least(Starts(results)), Greatest(Completions(results)));
    return if encodes(manifest) then Some(manifest) else None;
  }

  /** Cases come one after another: what starts earlier completes before what starts later. */
  lemma {:induction false} CasesInOrder(results: seq<CaseResult>, i: nat, j: nat)
    requires Sequential(results) && i <= j < |results|
    requires forall k :: 0 <= k < |results| ==> results[k].startedAt <= results[k].completedAt
    ensures results[i].startedAt <= results[j].startedAt && results[i].completedAt <= results[j].completedAt
    decreases j
  {
    if i < j {
      CasesInOrder(results, i, j - 1);
      assert results[j - 1].completedAt <= results[j].startedAt;
    }
  }

  lemma SpanOf(results: seq<CaseResult>)
    requires Sequential(results) && results != []
    requires forall k :: 0 <= k < |results| ==> results[k].startedAt <= results[k].completedAt
    ensures Least(Starts(results)) == results[0].startedAt
    ensures Greatest(Completions(results)) == results[|results| - 1].completedAt
    ensures results[0].startedAt <= results[|results| - 1].completedAt
  {
    hide Least, Greatest, Sequential;
    var starts, completions := Starts(results), Completions(results);
    var first :| 0 <= first < |results| && starts[first] == Least(starts);
    var last :| 0 <= last < |results| && completions[last] == Greatest(completions);
    assert starts[0] == results[0].startedAt;
    assert completions[|results| - 1] == results[|results| - 1].completedAt;
    CasesInOrder(results, 0, first);
    CasesInOrder(results, last, |results| - 1);
    CasesInOrder(results, 0, |results| - 1);
  }

  /** A manifest's span is from its first case's start to its last case's completion. */
  lemma RunSpan(spec: Spec, specSha: string, runInputs: string, f: Files)
    requires Buildable(spec, runInputs, f)
    ensures var m, results := ManifestOf(spec, specSha, runInputs, f), Results(spec.cases, f);
            && m.startedAt == results[0].startedAt && m.completedAt == results[|results| - 1].completedAt
            && m.startedAt <= m.completedAt
  {
    var results := Results(spec.cases, f);
    forall k | 0 <= k < |results|
      ensures results[k].startedAt <= results[k].completedAt
    {
      assert ReadResult(spec.cases[k], f) == Some(results[k]);
    }
    SpanOf(results);
  }

  lemma WithinCaseBounds(spec: Spec, runInputs: string, f: Files, i: nat)
    requires CasesReady(spec, runInputs, f) && i < |spec.cases| && Results(spec.cases, f)[i].status == Passed
    ensures 0 <= Results(spec.cases, f)[i].duration <= spec.cases[i].maximumDuration
    ensures 0 <= Results(spec.cases, f)[i].cost <= spec.cases[i].maximumCost
  {
    assert ReadResult(spec.cases[i], f) == Some(Results(spec.cases, f)[i]);
    assert CaseBound(spec.cases[i], Results(spec.cases, f)[i], spec, runInputs, f);
  }

  /** When every case passes, the run's total bounds already follow from the case bounds. */
  lemma PassedCasesPass(spec: Spec, runInputs: string, f: Files)
    requires Buildable(spec, runInputs, f)
    ensures RunPassed(spec, Results(spec.cases, f)) <==> AllPassed(Results(spec.cases, f))
  {
    hide ResultValid, CaseBound, Sequential, AllEvidenceIds, Sum;
    var results := Results(spec.cases, f);
    if AllPassed(results) {
      forall i | 0 <= i < |results|
        ensures 0 <= results[i].duration <= spec.cases[i].maximumDuration
        ensures 0 <= results[i].cost <= spec.cases[i].maximumCost
      {
        WithinCaseBounds(spec, runInputs, f, i);
      }
      SumMonotone(Durations(results), CaseDurations(spec.cases));
      SumMonotone(Costs(results), CaseCosts(spec.cases));
    }
  }
}
