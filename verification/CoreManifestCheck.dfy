/**
 The bundle verifier's own check of a core acceptance manifest, written
 independently of the producer: its own tables, its own patterns, and sets that
 grow as it walks the lists.
 */
module CoreManifestCheck {
  import opened Option
  import opened Lists
  import opened AcceptanceTypes

  const MAX_CORE_ARTIFACT_BYTES := 8 * 1024 * 1024
  const MAX_CORE_CASE_DURATION := 60 * 60 * 1_000
  const MAX_CORE_DURATION := 4 * 60 * 60 * 1_000
  const MAX_CORE_COST := 10_000_000

  const CORE_CASE_ORDER: seq<CaseKind> := [
    TargetReset, HealthyPromotion, UnhealthyStableRecovery, RevocationStaleDenial,
    IndependentVerifierProbe, AmbiguityCase, TimelineConsoleRead, BoundedAdvisor]

  const IMAGE_COMPONENTS: set<Component> := {Controller, Console, Advisor, ReferenceStable, ReferenceCandidate}

  function CoreExpectedResult(kind: CaseKind): string {
    match kind
    case TargetReset => "RESET_VERIFIED"
    case HealthyPromotion => "PROMOTED"
    case UnhealthyStableRecovery => "RECOVERED"
    case RevocationStaleDenial => "DENIED"
    case IndependentVerifierProbe => "VERIFIED"
    case AmbiguityCase => "AMBIGUOUS"
    case TimelineConsoleRead => "READABLE"
    case BoundedAdvisor => "ADVISORY_ONLY"
  }

  function CoreRequiredEvidence(kind: CaseKind): set<EvidenceKind> {
    match kind
    case TargetReset => {CloudRunConfiguration, DataPathProbe}
    case HealthyPromotion =>
      {CloudRunConfiguration, DataPathProbe, VerifiedCapabilityMetadata, ExecutorEpochCheck, ExecutionReceipt,
       HealthDecision, EvidenceKind.Timeline}
    case UnhealthyStableRecovery =>
      {CloudRunConfiguration, DataPathProbe, VerifiedCapabilityMetadata, ExecutorEpochCheck, ExecutionReceipt,
       HealthDecision, RecoveryServiceIdentityBinding, EvidenceKind.Timeline}
    case RevocationStaleDenial =>
      {AuthorityTransition, CloudRunConfiguration, DataPathProbe, VerifiedCapabilityMetadata, ExecutorEpochCheck,
       StaleDenial, ExecutionReceipt, Coordinator, ModelAudit, EvidenceKind.Timeline}
    case IndependentVerifierProbe =>
      {CloudRunConfiguration, DataPathProbe, IndependentVerification, EvidenceKind.Timeline}
    case AmbiguityCase =>
      {CloudRunConfiguration, ExecutionReceipt, AmbiguityClassification, EvidenceKind.Timeline}
    case TimelineConsoleRead => {CloudRunConfiguration, EvidenceKind.Timeline, ConsoleRead}
    case BoundedAdvisor => {CloudRunConfiguration, Coordinator, ModelAudit, PublicReplaySeed, EvidenceKind.Timeline}
  }

  /** What the bundle says of the Terraform plan, and of the images of the release. */
  datatype PlanEntry = PlanEntry(id: string, sha256: string, bytes: int)

  type ReleaseImages = map<Component, ImageReference>

  // ---- What is accepted

  predicate HeaderAccepted(m: Manifest, revision: string) {
    && m.status == Passed && m.bindingComplete
    && m.sourceCommit == revision
    && IsSha256(m.specSha256) && m.runId == "cgacceptance:" + m.specSha256
    && IsSha256(m.runInputs)
    && 0 <= m.randomSeed <= 9_007_199_254_740_991
  }

  predicate TargetAccepted(t: Target) {
    && t.region == "us-central1" && t.serviceName == "controlgraph-reference-target"
    && IsCanaryProject(t.projectId)
    && IsCloudRunName(t.stableRevision) && IsCloudRunName(t.candidateRevision)
    && t.stableRevision != t.candidateRevision
  }

  predicate ImageNameChar(c: char) {
    LowerLetter(c) || c == '-'
  }

  /** The verifier's pattern fixes the region and the project's prefix. */
  predicate ImageMatches(r: ImageReference) {
    && r.region == "us-central1" && IsCanaryProject(r.project)
    && r.name != "" && All(ImageNameChar, r.name) && IsSha256(r.digest)
  }

  predicate ImageAccepted(image: Image, target: Target) {
    && ImageMatches(image.reference)
    && image.reference.name == ComponentName(image.component)
    && image.reference.project == target.projectId && image.reference.region == target.region
  }

  function Components(images: seq<Image>): seq<Component> {
    seq(|images|, i requires 0 <= i < |images| => images[i].component)
  }

  function Digests(images: seq<Image>): seq<string> {
    seq(|images|, i requires 0 <= i < |images| => images[i].reference.digest)
  }

  /** Five images, one for each component, no digest twice. */
  predicate ImagesAccepted(images: seq<Image>, target: Target) {
    && |images| == |IMAGE_COMPONENTS|
    && (forall i :: 0 <= i < |images| ==> ImageAccepted(images[i], target))
    && Distinct(Components(images)) && Distinct(Digests(images))
    && Elements(Components(images)) == IMAGE_COMPONENTS
  }

  /** The release names exactly these images. */
  predicate ReleaseMatches(images: seq<Image>, release: ReleaseImages) {
    && release.Keys == Elements(Components(images))
    && forall i :: 0 <= i < |images| ==>
         images[i].component in release && release[images[i].component] == images[i].reference
  }

  predicate ArtifactAccepted(a: Artifact) {
    IsIdentifier(a.artifactId) && 0 < a.byteCount <= MAX_CORE_ARTIFACT_BYTES && IsSha256(a.sha256)
  }

  predicate PlanAccepted(plan: Artifact, entry: PlanEntry) {
    && ArtifactAccepted(plan) && plan.media == JsonMedia
    && plan.artifactId == entry.id && plan.sha256 == entry.sha256 && plan.byteCount == entry.bytes
  }

  predicate PolicyAccepted(p: ManifestPolicy) {
    IsSchemaVersion(p.schemaVersion) && ArtifactAccepted(p.artifact) && p.artifact.media == JsonMedia
  }

  function ManifestEvidenceIds(evidence: seq<ManifestEvidence>): seq<string> {
    seq(|evidence|, i requires 0 <= i < |evidence| => evidence[i].evidenceId)
  }

  function EvidenceArtifactIds(evidence: seq<ManifestEvidence>): seq<string> {
    seq(|evidence|, i requires 0 <= i < |evidence| => evidence[i].artifact.artifactId)
  }

  function ManifestKinds(evidence: seq<ManifestEvidence>): set<EvidenceKind> {
    set i | 0 <= i < |evidence| :: evidence[i].kind
  }

  function StepMilliseconds(steps: seq<Step>): seq<int> {
    seq(|steps|, i requires 0 <= i < |steps| => steps[i].duration)
  }

  function StepReferences(steps: seq<Step>): set<string> {
    set i, id | 0 <= i < |steps| && id in steps[i].evidenceIds :: id
  }

  predicate StepAccepted(step: Step, index: nat, operation: string) {
    && step.sequence == index + 1 && step.status == Passed && step.operation == operation
    && 0 <= step.duration <= MAX_CORE_CASE_DURATION
    && step.evidenceIds != [] && Distinct(step.evidenceIds)
  }

  predicate StepsAccepted(c: ManifestCase) {
    && |c.steps| == |c.entryPoints|
    && (forall i :: 0 <= i < |c.steps| ==> StepAccepted(c.steps[i], i, c.entryPoints[i]))
    && StepReferences(c.steps) == Elements(ManifestEvidenceIds(c.evidence))
    && Sum(StepMilliseconds(c.steps)) <= c.duration
  }

  predicate EvidenceAccepted(e: ManifestEvidence) {
    IsIdentifier(e.evidenceId) && ArtifactAccepted(e.artifact)
  }

  predicate EvidenceListAccepted(c: ManifestCase) {
    && (forall i :: 0 <= i < |c.evidence| ==> EvidenceAccepted(c.evidence[i]))
    && CoreRequiredEvidence(c.kind) <= ManifestKinds(c.evidence)
  }

  predicate CaseHeaderAccepted(c: ManifestCase, index: nat) {
    && c.sequence == index + 1
    && IsIdentifier(c.caseId) && c.status == Passed
    && c.expected == CoreExpectedResult(c.kind) && c.observed == CoreExpectedResult(c.kind)
    && 0 <= c.duration <= c.maximumDuration <= MAX_CORE_CASE_DURATION
    && 0 <= c.cost.reported <= c.cost.maximum <= MAX_CORE_COST
    && c.entryPoints != [] && (forall i :: 0 <= i < |c.entryPoints| ==> c.entryPoints[i] != "")
    && c.evidence != [] && c.steps != [] && |c.steps| == |c.entryPoints|
    && ArtifactAccepted(c.resultArtifact) && c.resultArtifact.media == JsonMedia
  }

  /** One case on its own; that nothing in it repeats an earlier case is stated for the whole list. */
  predicate CaseAccepted(c: ManifestCase, index: nat) {
    CaseHeaderAccepted(c, index) && EvidenceListAccepted(c) && StepsAccepted(c)
  }

  function CaseIds(cases: seq<ManifestCase>): seq<string> {
    seq(|cases|, i requires 0 <= i < |cases| => cases[i].caseId)
  }

  /** Evidence identities of all cases, in order. */
  function AllIds(cases: seq<ManifestCase>): seq<string> {
    if cases == [] then []
    else AllIds(cases[..|cases| - 1]) + ManifestEvidenceIds(cases[|cases| - 1].evidence)
  }

  /** Artifact identities of one case: its result, then its evidence. */
  function CaseArtifactIds(c: ManifestCase): seq<string> {
    [c.resultArtifact.artifactId] + EvidenceArtifactIds(c.evidence)
  }

  function AllArtifactIds(cases: seq<ManifestCase>): seq<string> {
    if cases == [] then []
    else AllArtifactIds(cases[..|cases| - 1]) + CaseArtifactIds(cases[|cases| - 1])
  }

  function PolicyArtifactIds(policies: seq<ManifestPolicy>): seq<string> {
    seq(|policies|, i requires 0 <= i < |policies| => policies[i].artifact.artifactId)
  }

  /** The plan's and the policies' artifact identities. */
  function InputIds(m: Manifest): seq<string> {
    [m.plan.artifactId] + PolicyArtifactIds(m.policies)
  }

  function Durations(cases: seq<ManifestCase>): seq<int> {
    seq(|cases|, i requires 0 <= i < |cases| => cases[i].duration)
  }

  function MaximumDurations(cases: seq<ManifestCase>): seq<int> {
    seq(|cases|, i requires 0 <= i < |cases| => cases[i].maximumDuration)
  }

  function ReportedCosts(cases: seq<ManifestCase>): seq<int> {
    seq(|cases|, i requires 0 <= i < |cases| => cases[i].cost.reported)
  }

  function MaximumCosts(cases: seq<ManifestCase>): seq<int> {
    seq(|cases|, i requires 0 <= i < |cases| => cases[i].cost.maximum)
  }

  /** Every case accepted, and no case, evidence or artifact identity used twice in the whole manifest. */
  predicate CasesAccepted(cases: seq<ManifestCase>, inputIds: seq<string>) {
    && (forall i :: 0 <= i < |cases| ==> CaseAccepted(cases[i], i))
    && Distinct(CaseIds(cases))
    && Distinct(AllIds(cases))
    && Distinct(inputIds + AllArtifactIds(cases))
  }

  predicate BoundsAccepted(m: Manifest) {
    && m.duration == Sum(Durations(m.cases))
    && 0 <= m.duration <= m.maximumDuration <= MAX_CORE_DURATION
    && Sum(MaximumDurations(m.cases)) <= m.maximumDuration
    && m.cost.reported == Sum(ReportedCosts(m.cases))
    && Sum(MaximumCosts(m.cases)) <= m.cost.maximum <= MAX_CORE_COST
  }

  predicate PoliciesAccepted(m: Manifest) {
    && 1 <= |m.policies| <= 8
    && (forall i :: 0 <= i < |m.policies| ==> PolicyAccepted(m.policies[i]))
    && Distinct(InputIds(m))
  }

  predicate KindsInOrder(cases: seq<ManifestCase>) {
    |cases| == |CORE_CASE_ORDER| && forall i :: 0 <= i < |cases| ==> cases[i].kind == CORE_CASE_ORDER[i]
  }

  predicate Accepted(m: Manifest, revision: string, release: Option<ReleaseImages>, entry: PlanEntry) {
    && HeaderAccepted(m, revision) && TargetAccepted(m.target)
    && ImagesAccepted(m.images, m.target) && (release.Some? ==> ReleaseMatches(m.images, release.value))
    && PlanAccepted(m.plan, entry) && PoliciesAccepted(m)
    && KindsInOrder(m.cases) && CasesAccepted(m.cases, InputIds(m))
    && BoundsAccepted(m)
  }

  // ---- The checker: images

  lemma ComponentsSnoc(images: seq<Image>, n: nat)
    requires n < |images|
    ensures Components(images[..n + 1]) == Components(images[..n]) + [images[n].component]
    ensures Digests(images[..n + 1]) == Digests(images[..n]) + [images[n].reference.digest]
  {
  }

  ghost predicate ImagesSoFar(images: seq<Image>, target: Target, n: nat)
    requires n <= |images|
  {
    && (forall i :: 0 <= i < n ==> ImageAccepted(images[i], target))
    && Distinct(Components(images[..n])) && Distinct(Digests(images[..n]))
  }

  ghost predicate MapOf(known: ReleaseImages, images: seq<Image>) {
    && known.Keys == Elements(Components(images))
    && forall i :: 0 <= i < |images| ==>
         images[i].component in known && known[images[i].component] == images[i].reference
  }

  /** What the image loop has established after `n` images. */
  ghost predicate ImagesTracked(
    images: seq<Image>, target: Target, n: nat, known: ReleaseImages, digests: set<string>)
    requires n <= |images|
  {
    && ImagesSoFar(images, target, n)
    && MapOf(known, images[..n])
    && digests == Elements(Digests(images[..n]))
  }

  lemma ImageRefused(images: seq<Image>, target: Target, n: nat, known: ReleaseImages, digests: set<string>)
    requires n < |images| && ImagesTracked(images, target, n, known, digests)
    requires || !ImageAccepted(images[n], target) || images[n].component in known
             || images[n].reference.digest in digests
    ensures !ImagesAccepted(images, target)
  {
    if images[n].component in known {
      assert images[n].component in Components(images[..n]);
      Repeats(Components(images), Components(images[..n]), n);
    } else if images[n].reference.digest in digests {
      assert images[n].reference.digest in Digests(images[..n]);
      Repeats(Digests(images), Digests(images[..n]), n);
    }
  }

  lemma Repeats<T>(all: seq<T>, before: seq<T>, n: nat)
    requires n < |all| && before == all[..n] && all[n] in before
    ensures !Distinct(all)
  {
    var i :| 0 <= i < n && before[i] == all[n];
    assert all[i] == all[n];
  }

  lemma ImagePassed(images: seq<Image>, target: Target, n: nat, known: ReleaseImages, digests: set<string>)
    requires n < |images| && ImagesTracked(images, target, n, known, digests)
    requires ImageAccepted(images[n], target) && images[n].component !in known
    requires images[n].reference.digest !in digests
    ensures ImagesTracked(
              images, target, n + 1,
              known[images[n].component := images[n].reference], digests + {images[n].reference.digest})
  {
    ComponentsSnoc(images, n);
    DistinctSnoc(Components(images[..n]), images[n].component);
    DistinctSnoc(Digests(images[..n]), images[n].reference.digest);
    MapSnoc(known, images, n);
  }

  method CheckImages(images: seq<Image>, target: Target, release: Option<ReleaseImages>) returns (ok: bool)
    ensures ok <==>
            ImagesAccepted(images, target) && (release.Some? ==> ReleaseMatches(images, release.value))
  {
    if |images| != |IMAGE_COMPONENTS| {
      return false;
    }
    var known: ReleaseImages := map[];
    var digests: set<string> := {};
    for n := 0 to |images|
      invariant ImagesTracked(images, target, n, known, digests)
    {
      var image := images[n];
      if || !ImageAccepted(image, target)
         || image.component in known
         || image.reference.digest in digests
      {
        ImageRefused(images, target, n, known, digests);
        return false;
      }
      ImagePassed(images, target, n, known, digests);
      known := known[image.component := image.reference];
      digests := digests + {image.reference.digest};
    }
    assert images[..|images|] == images;
    if release.Some? {
      MapIsRelease(known, images, release.value);
    }
    return known.Keys == IMAGE_COMPONENTS && (release == None || known == release.value);
  }

  lemma MapSnoc(known: ReleaseImages, images: seq<Image>, n: nat)
    requires n < |images| && MapOf(known, images[..n]) && images[n].component !in known
    ensures MapOf(known[images[n].component := images[n].reference], images[..n + 1])
  {
    var more := known[images[n].component := images[n].reference];
    ComponentsSnoc(images, n);
    DistinctSnoc(Components(images[..n]), images[n].component);
    forall i | 0 <= i < n + 1
      ensures images[i].component in more && more[images[i].component] == images[i].reference
    {
      if i < n {
        assert images[..n][i] == images[i];
      }
    }
    assert more.Keys == known.Keys + {images[n].component};
  }

  lemma MapIsRelease(known: ReleaseImages, images: seq<Image>, release: ReleaseImages)
    requires MapOf(known, images)
    ensures known == release <==> ReleaseMatches(images, release)
  {
    if ReleaseMatches(images, release) {
      forall c | c in known
        ensures known[c] == release[c]
      {
        assert c in Components(images);
        var i :| 0 <= i < |images| && Components(images)[i] == c;
      }
      assert known.Keys == release.Keys;
    }
  }

  // ---- The checker: policies

  lemma PolicyIdsSnoc(m: Manifest, n: nat)
    requires n < |m.policies|
    ensures [m.plan.artifactId] + PolicyArtifactIds(m.policies[..n + 1])
         == [m.plan.artifactId] + PolicyArtifactIds(m.policies[..n]) + [m.policies[n].artifact.artifactId]
  {
    assert PolicyArtifactIds(m.policies[..n + 1])
        == PolicyArtifactIds(m.policies[..n]) + [m.policies[n].artifact.artifactId];
  }

  lemma PoliciesBroken(m: Manifest, n: nat)
    requires n <= |m.policies|
    requires !Distinct([m.plan.artifactId] + PolicyArtifactIds(m.policies[..n]))
    ensures !Distinct(InputIds(m))
  {
    var before, after := [m.plan.artifactId] + PolicyArtifactIds(m.policies[..n]), PolicyArtifactIds(m.policies[n..]);
    assert InputIds(m) == before + after;
    if Distinct(InputIds(m)) {
      DistinctPrefix(before, after);
    }
  }

  /** Returns the set of artifact identities the plan and the policies use. */
  method CheckPolicies(m: Manifest) returns (ids: Option<set<string>>)
    ensures ids.Some? <==> PoliciesAccepted(m)
    ensures ids.Some? ==> ids.value == Elements(InputIds(m))
  {
    if !(1 <= |m.policies| <= 8) {
      return None;
    }
    var seen := {m.plan.artifactId};
    assert [m.plan.artifactId] + PolicyArtifactIds(m.policies[..0]) == [m.plan.artifactId];
    for n := 0 to |m.policies|
      invariant forall i :: 0 <= i < n ==> PolicyAccepted(m.policies[i])
      invariant Distinct([m.plan.artifactId] + PolicyArtifactIds(m.policies[..n]))
      invariant seen == Elements([m.plan.artifactId] + PolicyArtifactIds(m.policies[..n]))
    {
      var policy := m.policies[n];
      PolicyIdsSnoc(m, n);
      DistinctSnoc([m.plan.artifactId] + PolicyArtifactIds(m.policies[..n]), policy.artifact.artifactId);
      if policy.artifact.artifactId in seen {
        PoliciesBroken(m, n + 1);
        return None;
      }
      if !PolicyAccepted(policy) {
        return None;
      }
      seen := seen + {policy.artifact.artifactId};
    }
    assert m.policies[..|m.policies|] == m.policies;
    return Some(seen);
  }

  // ---- The checker: one case's evidence

  /** What the running sets hold: identities seen so far, none of them twice. */
  ghost predicate Tracks(seen: set<string>, ids: seq<string>) {
    Distinct(ids) && seen == Elements(ids)
  }

  lemma TracksSnoc(seen: set<string>, ids: seq<string>, id: string)
    requires Tracks(seen, ids)
    ensures id !in seen <==> Distinct(ids + [id])
    ensures id !in seen ==> Tracks(seen + {id}, ids + [id])
  {
    DistinctSnoc(ids, id);
  }

  lemma EvidenceIdsSnoc(e: seq<ManifestEvidence>, n: nat)
    requires n < |e|
    ensures ManifestEvidenceIds(e[..n + 1]) == ManifestEvidenceIds(e[..n]) + [e[n].evidenceId]
    ensures EvidenceArtifactIds(e[..n + 1]) == EvidenceArtifactIds(e[..n]) + [e[n].artifact.artifactId]
    ensures ManifestKinds(e[..n + 1]) == ManifestKinds(e[..n]) + {e[n].kind}
  {
    assert ManifestKinds(e[..n + 1]) == ManifestKinds(e[..n]) + {e[n].kind} by {
      forall k | k in ManifestKinds(e[..n]) + {e[n].kind}
        ensures k in ManifestKinds(e[..n + 1])
      {
        if k == e[n].kind {
          assert e[..n + 1][n].kind == k;
        } else {
          var i :| 0 <= i < n && e[..n][i].kind == k;
          assert e[..n + 1][i].kind == k;
        }
      }
    }
  }

  lemma EvidenceSplit(e: seq<ManifestEvidence>, n: nat)
    requires n <= |e|
    ensures ManifestEvidenceIds(e) == ManifestEvidenceIds(e[..n]) + ManifestEvidenceIds(e[n..])
    ensures EvidenceArtifactIds(e) == EvidenceArtifactIds(e[..n]) + EvidenceArtifactIds(e[n..])
  {
  }

  /** A repetition among the first `n` is a repetition of the whole. */
  lemma EvidenceBroken(ids: seq<string>, artifacts: seq<string>, e: seq<ManifestEvidence>, n: nat)
    requires n <= |e|
    requires !Distinct(ids + ManifestEvidenceIds(e[..n])) || !Distinct(artifacts + EvidenceArtifactIds(e[..n]))
    ensures !Distinct(ids + ManifestEvidenceIds(e)) || !Distinct(artifacts + EvidenceArtifactIds(e))
  {
    EvidenceSplit(e, n);
    assert ids + ManifestEvidenceIds(e) == (ids + ManifestEvidenceIds(e[..n])) + ManifestEvidenceIds(e[n..]);
    assert artifacts + EvidenceArtifactIds(e)
        == (artifacts + EvidenceArtifactIds(e[..n])) + EvidenceArtifactIds(e[n..]);
    if Distinct(ids + ManifestEvidenceIds(e)) {
      DistinctPrefix(ids + ManifestEvidenceIds(e[..n]), ManifestEvidenceIds(e[n..]));
    }
    if Distinct(artifacts + EvidenceArtifactIds(e)) {
      DistinctPrefix(artifacts + EvidenceArtifactIds(e[..n]), EvidenceArtifactIds(e[n..]));
    }
  }

  datatype Seen = Seen(evidence: set<string>, artifacts: set<string>)

  ghost predicate EvidenceSoFar(
    e: seq<ManifestEvidence>, n: nat, ids: seq<string>, artifacts: seq<string>,
    seen: Seen, own: set<string>, kinds: set<EvidenceKind>)
    requires n <= |e|
  {
    && (forall i :: 0 <= i < n ==> EvidenceAccepted(e[i]))
    && Tracks(seen.evidence, ids + ManifestEvidenceIds(e[..n]))
    && Tracks(seen.artifacts, artifacts + EvidenceArtifactIds(e[..n]))
    && own == Elements(ManifestEvidenceIds(e[..n]))
    && kinds == ManifestKinds(e[..n])
  }

  predicate Unused(e: ManifestEvidence, seen: Seen) {
    e.evidenceId !in seen.evidence && e.artifact.artifactId !in seen.artifacts
  }

  function Use(e: ManifestEvidence, seen: Seen): Seen {
    Seen(seen.evidence + {e.evidenceId}, seen.artifacts + {e.artifact.artifactId})
  }

  /** One more evidence entry: unused ones extend the lists, a used one repeats an identity. */
  lemma EvidenceStep(
    e: seq<ManifestEvidence>, n: nat, ids: seq<string>, artifacts: seq<string>,
    seen: Seen, own: set<string>, kinds: set<EvidenceKind>)
    requires n < |e| && EvidenceSoFar(e, n, ids, artifacts, seen, own, kinds)
    ensures !Unused(e[n], seen) ==>
              !Distinct(ids + ManifestEvidenceIds(e)) || !Distinct(artifacts + EvidenceArtifactIds(e))
    ensures Unused(e[n], seen) && EvidenceAccepted(e[n]) ==>
              EvidenceSoFar(e, n + 1, ids, artifacts, Use(e[n], seen), own + {e[n].evidenceId}, kinds + {e[n].kind})
  {
    hide ManifestKinds, EvidenceAccepted, ManifestEvidenceIds, EvidenceArtifactIds, Distinct;
    var item := e[n];
    EvidenceIdsSnoc(e, n);
    TracksSnoc(seen.evidence, ids + ManifestEvidenceIds(e[..n]), item.evidenceId);
    TracksSnoc(seen.artifacts, artifacts + EvidenceArtifactIds(e[..n]), item.artifact.artifactId);
    DistinctSnoc(ManifestEvidenceIds(e[..n]), item.evidenceId);
    assert ids + ManifestEvidenceIds(e[..n + 1]) == ids + ManifestEvidenceIds(e[..n]) + [item.evidenceId];
    assert artifacts + EvidenceArtifactIds(e[..n + 1])
        == artifacts + EvidenceArtifactIds(e[..n]) + [item.artifact.artifactId];
    if !Unused(item, seen) {
      EvidenceBroken(ids, artifacts, e, n + 1);
    }
  }

  /** Walk a case's evidence with the sets of what earlier cases used. */
  method CheckEvidence(c: ManifestCase, seen: Seen, ghost ids: seq<string>, ghost artifacts: seq<string>)
    returns (r: Option<Seen>, own: set<string>)
    requires Tracks(seen.evidence, ids) && Tracks(seen.artifacts, artifacts)
    ensures r.Some? <==>
            && EvidenceListAccepted(c)
            && Distinct(ids + ManifestEvidenceIds(c.evidence))
            && Distinct(artifacts + EvidenceArtifactIds(c.evidence))
    ensures r.Some? ==>
              && Tracks(r.value.evidence, ids + ManifestEvidenceIds(c.evidence))
              && Tracks(r.value.artifacts, artifacts + EvidenceArtifactIds(c.evidence))
              && own == Elements(ManifestEvidenceIds(c.evidence))
  {
    var e, used := c.evidence, seen;
    var kinds: set<EvidenceKind> := {};
    own := {};
    assert ids + ManifestEvidenceIds(e[..0]) == ids && artifacts + EvidenceArtifactIds(e[..0]) == artifacts;
    for n := 0 to |e|
      invariant EvidenceSoFar(e, n, ids, artifacts, used, own, kinds)
    {
      EvidenceStep(e, n, ids, artifacts, used, own, kinds);
      if !EvidenceAccepted(e[n]) || !Unused(e[n], used) {
        return None, own;
      }
      used := Use(e[n], used);
      own := own + {e[n].evidenceId};
      kinds := kinds + {e[n].kind};
    }
    assert e[..|e|] == e;
    if !(CoreRequiredEvidence(c.kind) <= kinds) {
      return None, own;
    }
    return Some(used), own;
  }

  // ---- The checker: one case's steps

  lemma StepsSnoc(steps: seq<Step>, n: nat)
    requires n < |steps|
    ensures StepReferences(steps[..n + 1]) == StepReferences(steps[..n]) + Elements(steps[n].evidenceIds)
    ensures Sum(StepMilliseconds(steps[..n + 1])) == Sum(StepMilliseconds(steps[..n])) + steps[n].duration
  {
    var before, after := steps[..n], steps[..n + 1];
    forall id
      ensures id in StepReferences(after) <==> id in StepReferences(before) || id in steps[n].evidenceIds
    {
      if id in StepReferences(before) {
        var i :| 0 <= i < n && id in before[i].evidenceIds;
        assert id in after[i].evidenceIds;
      }
      if id in steps[n].evidenceIds {
        assert id in after[n].evidenceIds;
      }
      if id in StepReferences(after) {
        var i :| 0 <= i < n + 1 && id in after[i].evidenceIds;
        assert i < n ==> id in before[i].evidenceIds;
      }
    }
    assert StepMilliseconds(after) == StepMilliseconds(before) + [steps[n].duration];
    SumSnoc(StepMilliseconds(before), steps[n].duration);
  }

  method CheckSteps(c: ManifestCase, own: set<string>) returns (ok: bool)
    requires own == Elements(ManifestEvidenceIds(c.evidence)) && |c.steps| == |c.entryPoints|
    ensures ok <==> StepsAccepted(c)
  {
    var referenced: set<string> := {};
    var total := 0;
    for n := 0 to |c.steps|
      invariant forall i :: 0 <= i < n ==> StepAccepted(c.steps[i], i, c.entryPoints[i])
      invariant referenced == StepReferences(c.steps[..n]) && total == Sum(StepMilliseconds(c.steps[..n]))
    {
      if !StepAccepted(c.steps[n], n, c.entryPoints[n]) {
        return false;
      }
      StepsSnoc(c.steps, n);
      referenced := referenced + Elements(c.steps[n].evidenceIds);
      total := total + c.steps[n].duration;
    }
    assert c.steps[..|c.steps|] == c.steps;
    return referenced == own && total <= c.duration;
  }

  // ---- The checker: all cases

  lemma CasesSnoc(cases: seq<ManifestCase>, n: nat)
    requires n < |cases|
    ensures CaseIds(cases[..n + 1]) == CaseIds(cases[..n]) + [cases[n].caseId]
    ensures AllIds(cases[..n + 1]) == AllIds(cases[..n]) + ManifestEvidenceIds(cases[n].evidence)
    ensures AllArtifactIds(cases[..n + 1]) == AllArtifactIds(cases[..n]) + CaseArtifactIds(cases[n])
  {
    assert cases[..n + 1][..n] == cases[..n];
  }

  lemma SumsSnoc(cases: seq<ManifestCase>, n: nat)
    requires n < |cases|
    ensures Sum(Durations(cases[..n + 1])) == Sum(Durations(cases[..n])) + cases[n].duration
    ensures Sum(MaximumDurations(cases[..n + 1])) == Sum(MaximumDurations(cases[..n])) + cases[n].maximumDuration
    ensures Sum(ReportedCosts(cases[..n + 1])) == Sum(ReportedCosts(cases[..n])) + cases[n].cost.reported
    ensures Sum(MaximumCosts(cases[..n + 1])) == Sum(MaximumCosts(cases[..n])) + cases[n].cost.maximum
  {
    var before, after := cases[..n], cases[..n + 1];
    assert Durations(after) == Durations(before) + [cases[n].duration];
    assert MaximumDurations(after) == MaximumDurations(before) + [cases[n].maximumDuration];
    assert ReportedCosts(after) == ReportedCosts(before) + [cases[n].cost.reported];
    assert MaximumCosts(after) == MaximumCosts(before) + [cases[n].cost.maximum];
    SumSnoc(Durations(before), cases[n].duration);
    SumSnoc(MaximumDurations(before), cases[n].maximumDuration);
    SumSnoc(ReportedCosts(before), cases[n].cost.reported);
    SumSnoc(MaximumCosts(before), cases[n].cost.maximum);
  }

  lemma {:induction false} IdsSplit(cases: seq<ManifestCase>, n: nat)
    requires n <= |cases|
    ensures CaseIds(cases) == CaseIds(cases[..n]) + CaseIds(cases[n..])
    ensures AllIds(cases[..n]) <= AllIds(cases)
    ensures AllArtifactIds(cases[..n]) <= AllArtifactIds(cases)
    decreases |cases|
  {
    if n < |cases| {
      var m := |cases| - 1;
      IdsSplit(cases[..m], n);
      assert cases[..m][..n] == cases[..n];
    } else {
      assert cases[..n] == cases;
    }
  }

  /** What holds of the first `n` cases and of the sets the checker keeps. */
  ghost predicate CasesSoFar(cases: seq<ManifestCase>, inputIds: seq<string>, n: nat, caseIds: set<string>, seen: Seen)
    requires n <= |cases|
  {
    && (forall i :: 0 <= i < n ==> CaseAccepted(cases[i], i))
    && Tracks(caseIds, CaseIds(cases[..n]))
    && Tracks(seen.evidence, AllIds(cases[..n]))
    && Tracks(seen.artifacts, inputIds + AllArtifactIds(cases[..n]))
  }

  /** A repetition in the first `n` cases is a repetition in all of them. */
  lemma CasesBroken(cases: seq<ManifestCase>, inputIds: seq<string>, n: nat)
    requires n <= |cases|
    requires || !Distinct(CaseIds(cases[..n]))
             || !Distinct(AllIds(cases[..n]))
             || !Distinct(inputIds + AllArtifactIds(cases[..n]))
    ensures !CasesAccepted(cases, inputIds)
  {
    IdsSplit(cases, n);
    if CasesAccepted(cases, inputIds) {
      DistinctPrefix(CaseIds(cases[..n]), CaseIds(cases[n..]));
      PrefixDistinct(AllIds(cases[..n]), AllIds(cases));
      PrefixDistinct(inputIds + AllArtifactIds(cases[..n]), inputIds + AllArtifactIds(cases));
    }
  }

  lemma PrefixDistinct(s: seq<string>, t: seq<string>)
    requires s <= t && Distinct(t)
    ensures Distinct(s)
  {
    assert t == s + t[|s|..];
    DistinctPrefix(s, t[|s|..]);
  }

  /** A case passes exactly when it is accepted and reuses nothing; the sets then cover it too. */
  ghost predicate CaseChecked(
    r: Option<Seen>, c: ManifestCase, index: nat, caseIds: set<string>, ids: seq<string>, artifacts: seq<string>)
  {
    && (r.Some? <==>
          && CaseAccepted(c, index) && c.caseId !in caseIds
          && Distinct(ids + ManifestEvidenceIds(c.evidence))
          && Distinct(artifacts + CaseArtifactIds(c)))
    && (r.Some? ==>
          && Tracks(r.value.evidence, ids + ManifestEvidenceIds(c.evidence))
          && Tracks(r.value.artifacts, artifacts + CaseArtifactIds(c)))
  }

  /** One case against the sets of the earlier ones. */
  method CheckCase(
    c: ManifestCase, index: nat, caseIds: set<string>, seen: Seen,
    ghost ids: seq<string>, ghost artifacts: seq<string>)
    returns (r: Option<Seen>)
    requires Tracks(seen.evidence, ids) && Tracks(seen.artifacts, artifacts)
    ensures CaseChecked(r, c, index, caseIds, ids, artifacts)
  {
    if c.caseId in caseIds || !CaseHeaderAccepted(c, index) {
      return None;
    }
    var result := c.resultArtifact.artifactId;
    TracksSnoc(seen.artifacts, artifacts, result);
    assert artifacts + CaseArtifactIds(c) == artifacts + [result] + EvidenceArtifactIds(c.evidence);
    if result in seen.artifacts {
      if Distinct(artifacts + CaseArtifactIds(c)) {
        DistinctPrefix(artifacts + [result], EvidenceArtifactIds(c.evidence));
      }
      return None;
    }
    var more, own := CheckEvidence(
      c, Seen(seen.evidence, seen.artifacts + {result}), ids, artifacts + [result]);
    if more == None {
      return None;
    }
    var steps := CheckSteps(c, own);
    return if steps then more else None;
  }

  datatype Totals = Totals(duration: int, maximumDuration: int, cost: int, maximumCost: int)

  ghost predicate TotalsOf(t: Totals, cases: seq<ManifestCase>) {
    t == Totals(
      Sum(Durations(cases)), Sum(MaximumDurations(cases)), Sum(ReportedCosts(cases)), Sum(MaximumCosts(cases)))
  }

  function AddTotals(t: Totals, c: ManifestCase): Totals {
    Totals(
      t.duration + c.duration, t.maximumDuration + c.maximumDuration,
      t.cost + c.cost.reported, t.maximumCost + c.cost.maximum)
  }

  lemma TotalsSnoc(t: Totals, cases: seq<ManifestCase>, n: nat)
    requires n < |cases| && TotalsOf(t, cases[..n])
    ensures TotalsOf(AddTotals(t, cases[n]), cases[..n + 1])
  {
    SumsSnoc(cases, n);
  }

  /** A refused case refuses the whole list. */
  lemma CaseRefused(cases: seq<ManifestCase>, inputIds: seq<string>, n: nat, caseIds: set<string>)
    requires n < |cases| && Tracks(caseIds, CaseIds(cases[..n]))
    requires var ids, artifacts := AllIds(cases[..n]), inputIds + AllArtifactIds(cases[..n]);
             CaseChecked(None, cases[n], n, caseIds, ids, artifacts)
    ensures !CasesAccepted(cases, inputIds)
  {
    CasesSnoc(cases, n);
    TracksSnoc(caseIds, CaseIds(cases[..n]), cases[n].caseId);
    assert inputIds + AllArtifactIds(cases[..n + 1])
        == inputIds + AllArtifactIds(cases[..n]) + CaseArtifactIds(cases[n]);
    if CaseAccepted(cases[n], n) {
      CasesBroken(cases, inputIds, n + 1);
    }
  }

  /** An accepted case with fresh identities extends what the sets track. */
  lemma CasePassed(
    cases: seq<ManifestCase>, inputIds: seq<string>, n: nat, caseIds: set<string>, seen: Seen, more: Seen)
    requires n < |cases| && CasesSoFar(cases, inputIds, n, caseIds, seen)
    requires CaseAccepted(cases[n], n) && cases[n].caseId !in caseIds
    requires Tracks(more.evidence, AllIds(cases[..n]) + ManifestEvidenceIds(cases[n].evidence))
    requires Tracks(more.artifacts, inputIds + AllArtifactIds(cases[..n]) + CaseArtifactIds(cases[n]))
    ensures CasesSoFar(cases, inputIds, n + 1, caseIds + {cases[n].caseId}, more)
  {
    hide CaseAccepted, Tracks, CaseIds, AllIds, AllArtifactIds, CaseArtifactIds, ManifestEvidenceIds;
    CasesSnoc(cases, n);
    TracksSnoc(caseIds, CaseIds(cases[..n]), cases[n].caseId);
    assert inputIds + AllArtifactIds(cases[..n + 1])
        == inputIds + AllArtifactIds(cases[..n]) + CaseArtifactIds(cases[n]);
  }

  method CheckCases(cases: seq<ManifestCase>, inputs: set<string>, ghost inputIds: seq<string>)
    returns (r: Option<Totals>)
    requires Tracks(inputs, inputIds)
    ensures r.Some? <==> CasesAccepted(cases, inputIds)
    ensures r.Some? ==> TotalsOf(r.value, cases)
  {
    var caseIds: set<string> := {};
    var seen := Seen({}, inputs);
    var totals := Totals(0, 0, 0, 0);
    assert inputIds + AllArtifactIds(cases[..0]) == inputIds;
    for n := 0 to |cases|
      invariant CasesSoFar(cases, inputIds, n, caseIds, seen)
      invariant TotalsOf(totals, cases[..n])
    {
      var checked := CheckCase(
        cases[n], n, caseIds, seen, AllIds(cases[..n]), inputIds + AllArtifactIds(cases[..n]));
      if checked == None {
        CaseRefused(cases, inputIds, n, caseIds);
        return None;
      }
      CasePassed(cases, inputIds, n, caseIds, seen, checked.value);
      TotalsSnoc(totals, cases, n);
      seen := checked.value;
      caseIds := caseIds + {cases[n].caseId};
      totals := AddTotals(totals, cases[n]);
    }
    assert cases[..|cases|] == cases;
    return Some(totals);
  }

  /** The verifier's check of a core acceptance manifest against the release it belongs to. */
  method ValidateCoreAcceptance(m: Manifest, revision: string, release: Option<ReleaseImages>, entry: PlanEntry)
    returns (ok: bool)
    ensures ok <==> Accepted(m, revision, release, entry)
  {
    hide HeaderAccepted, TargetAccepted, ImagesAccepted, ReleaseMatches, PlanAccepted, KindsInOrder, CasesAccepted;
    hide InputIds, Sum;
    if !HeaderAccepted(m, revision) || !TargetAccepted(m.target) {
      return false;
    }
    var images := CheckImages(m.images, m.target, release);
    if !images || !PlanAccepted(m.plan, entry) {
      return false;
    }
    var inputs := CheckPolicies(m);
    if inputs == None || !KindsInOrder(m.cases) {
      return false;
    }
    var totals := CheckCases(m.cases, inputs.value, InputIds(m));
    if totals == None {
      return false;
    }
    return
      && m.duration == totals.value.duration
      && 0 <= m.duration <= m.maximumDuration <= MAX_CORE_DURATION
      && totals.value.maximumDuration <= m.maximumDuration
      && m.cost.reported == totals.value.cost
      && totals.value.maximumCost <= m.cost.maximum <= MAX_CORE_COST;
  }
}
