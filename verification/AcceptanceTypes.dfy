/**
 What the core acceptance runner and the bundle verifier both handle: the run
 specification, the hosted case results, and the manifest built from them.
 */
module AcceptanceTypes {
  datatype Component = Controller | Advisor | Console | ReferenceStable | ReferenceCandidate

  datatype CaseKind =
    | TargetReset
    | HealthyPromotion
    | UnhealthyStableRecovery
    | RevocationStaleDenial
    | IndependentVerifierProbe
    | AmbiguityCase
    | TimelineConsoleRead
    | BoundedAdvisor

  datatype EvidenceKind =
    | CloudRunConfiguration
    | DataPathProbe
    | VerifiedCapabilityMetadata
    | ExecutorEpochCheck
    | ExecutionReceipt
    | HealthDecision
    | RecoveryServiceIdentityBinding
    | AuthorityTransition
    | StaleDenial
    | IndependentVerification
    | AmbiguityClassification
    | Timeline
    | ConsoleRead
    | Coordinator
    | ModelAudit
    | PublicReplaySeed
    | RunnerFailure

  datatype Status = Passed | Failed
  datatype CostBasis = Measured | UpperBound
  datatype Projection = PublicRedacted | PrivateDigestOnly
  datatype MediaType = JsonMedia | PlainText | OctetStream

  /** A reference that names one immutable image, split at its fixed separators. */
  datatype ImageReference = ImageReference(region: string, project: string, name: string, digest: string)

  datatype Image = Image(component: Component, reference: ImageReference)

  datatype Target = Target(
    projectId: string, region: string, serviceName: string, stableRevision: string, candidateRevision: string)

  /** A file as a specification or a result names it. */
  datatype Binding = Binding(artifactId: string, path: string, sha256: string, media: MediaType)

  /** A file as a manifest records it, once read and measured. */
  datatype Artifact = Artifact(artifactId: string, byteCount: int, media: MediaType, sha256: string)

  datatype Step = Step(sequence: int, operation: string, status: Status, duration: int, evidenceIds: seq<string>)

  // ---- The run specification

  datatype CaseBinding = CaseBinding(
    sequence: int, caseId: string, kind: CaseKind, randomSeed: int, clockKeys: seq<string>,
    maximumDuration: int, maximumCost: int, result: Binding)

  datatype Policy = Policy(schemaVersion: string, artifact: Binding)

  datatype Tick = Tick(name: string, at: nat)

  datatype Spec = Spec(
    sourceCommit: string, target: Target, images: seq<Image>, plan: Binding, policies: seq<Policy>,
    randomSeed: int, clock: seq<Tick>, maximumDuration: int, maximumCost: int, cases: seq<CaseBinding>)

  // ---- A hosted case result; instants are whole seconds, durations milliseconds

  datatype Evidence = Evidence(
    evidenceId: string, kind: EvidenceKind, observedAt: nat, projection: Projection,
    runInputs: string, artifact: Binding)

  datatype CaseResult = CaseResult(
    caseId: string, kind: CaseKind, sourceCommit: string, runInputs: string, target: Target,
    randomSeed: int, clockKeys: seq<string>, status: Status, observed: string, startedAt: nat, completedAt: nat,
    duration: int, cost: int, costBasis: CostBasis, steps: seq<Step>, evidence: seq<Evidence>)

  // ---- The manifest

  datatype Cost = Cost(basis: CostBasis, reported: int, maximum: int)

  datatype ManifestEvidence = ManifestEvidence(
    artifact: Artifact, evidenceId: string, kind: EvidenceKind, observedAt: nat, projection: Projection)

  datatype ManifestCase = ManifestCase(
    sequence: int, caseId: string, kind: CaseKind, status: Status, expected: string, observed: string,
    duration: int, maximumDuration: int, cost: Cost, entryPoints: seq<string>, evidence: seq<ManifestEvidence>,
    steps: seq<Step>, resultArtifact: Artifact, randomSeed: int, clockKeys: seq<string>,
    startedAt: nat, completedAt: nat)

  datatype ManifestPolicy = ManifestPolicy(schemaVersion: string, artifact: Artifact)

  datatype Manifest = Manifest(
    status: Status, bindingComplete: bool, specSha256: string, runId: string, runInputs: string,
    sourceCommit: string, randomSeed: int, target: Target, images: seq<Image>, plan: Artifact,
    policies: seq<ManifestPolicy>, cases: seq<ManifestCase>, duration: int, maximumDuration: int, cost: Cost,
    startedAt: nat, completedAt: nat)

  // ---- Text forms

  predicate LowerLetter(c: char) {
    'a' <= c <= 'z'
  }

  predicate Digit(c: char) {
    '0' <= c <= '9'
  }

  predicate LowerAlnum(c: char) {
    LowerLetter(c) || Digit(c)
  }

  predicate Alnum(c: char) {
    LowerAlnum(c) || 'A' <= c <= 'Z'
  }

  predicate HexDigit(c: char) {
    Digit(c) || 'a' <= c <= 'f'
  }

  predicate All(p: char -> bool, s: string) {
    forall i :: 0 <= i < |s| ==> p(s[i])
  }

  /** Sixty-four lower-case hexadecimal digits. */
  predicate IsSha256(s: string) {
    |s| == 64 && All(HexDigit, s)
  }

  predicate IdentifierChar(c: char) {
    Alnum(c) || c == '.' || c == '_' || c == ':' || c == '-'
  }

  predicate IsIdentifier(s: string) {
    1 <= |s| <= 128 && Alnum(s[0]) && All(IdentifierChar, s)
  }

  predicate NameChar(c: char) {
    LowerAlnum(c) || c == '-'
  }

  predicate IsCloudRunName(s: string) {
    1 <= |s| <= 63 && LowerLetter(s[0]) && LowerAlnum(s[|s| - 1]) && All(NameChar, s)
  }

  const PROJECT_PREFIX := "controlgraph-canary-"

  predicate IsCanaryProject(s: string) {
    && |PROJECT_PREFIX| + 6 <= |s| <= |PROJECT_PREFIX| + 10
    && PROJECT_PREFIX <= s
    && All(LowerAlnum, s[|PROJECT_PREFIX|..])
  }

  predicate SchemaChar(c: char) {
    LowerAlnum(c) || c == '.' || c == '-'
  }

  /** A schema name, a slash, a `v` and a positive number. */
  predicate IsSchemaVersion(s: string) {
    exists n :: 1 <= n < |s| - 2 && SchemaVersionAt(s, n)
  }

  predicate SchemaVersionAt(s: string, slash: nat)
    requires 1 <= slash < |s| - 2
  {
    && LowerLetter(s[0]) && All(SchemaChar, s[..slash])
    && s[slash] == '/' && s[slash + 1] == 'v' && Digit(s[slash + 2]) && s[slash + 2] != '0'
    && All(Digit, s[slash + 2..])
  }

  const MAX_SAFE_INTEGER := 9_007_199_254_740_991

  function ComponentName(c: Component): string {
    match c
    case Controller => "controller"
    case Advisor => "advisor"
    case Console => "console"
    case ReferenceStable => "reference-stable"
    case ReferenceCandidate => "reference-candidate"
  }
}
