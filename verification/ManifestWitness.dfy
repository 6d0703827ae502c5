/**
 A concrete run, complete in every detail the two programs look at. It shows that
 the producer emits passed manifests at all, that the verifier accepts one of
 them, and that it refuses another whose plan shares an identity with evidence.
 */
module ManifestWitness {
  import opened Option
  import opened Lists
  import opened AcceptanceTypes
  import opened CoreAcceptance
  import opened ManifestRefinement
  import C = CoreManifestCheck

  const KINDS: seq<EvidenceKind> := [
    CloudRunConfiguration, DataPathProbe, VerifiedCapabilityMetadata, ExecutorEpochCheck, ExecutionReceipt,
    HealthDecision, RecoveryServiceIdentityBinding, AuthorityTransition, StaleDenial, IndependentVerification,
    AmbiguityClassification, EvidenceKind.Timeline, ConsoleRead, Coordinator, ModelAudit, PublicReplaySeed]

  function Letter(i: nat): (c: char)
    requires i < 26
    ensures LowerLetter(c)
  {
    'a' + i as char
  }

  function Sha(i: nat): (s: string)
    requires i < 6
    ensures IsSha256(s)
  {
    [Letter(i)] + seq(63, k => '0')
  }

  function ABinding(id: string): Binding {
    Binding(id, id, Sha(0), JsonMedia)
  }

  function AnImage(t: Target, i: nat): Image
    requires i < 5
  {
    var c := COMPONENT_ORDER[i];
    Image(c, ImageReference(t.region, t.projectId, ComponentName(c), Sha(i)))
  }

  function ACase(i: nat): CaseBinding
    requires i < 8
  {
    CaseBinding(i + 1, [Letter(i)], CASE_ORDER[i], 0, ["t"], 1, 0, ABinding(['r', Letter(i)]))
  }

  /** Everything but the plan's identity is fixed. */
  function ASpec(t: Target, planId: string): Spec {
    Spec(
      "commit", t, seq(5, i requires 0 <= i < 5 => AnImage(t, i)), ABinding(planId),
      [Policy("a/v1", ABinding("q"))], 0, [Tick("t", 0)], MAX_RUN_DURATION, MAX_RUN_COST,
      seq(8, i requires 0 <= i < 8 => ACase(i)))
  }

  function EvidenceId(i: nat, j: nat): string
    requires i < 8 && j < |KINDS|
  {
    [Letter(i), Letter(j)]
  }

  /** Evidence whose artifact carries the evidence's own identity. */
  function AnEvidence(i: nat, j: nat): Evidence
    requires i < 8 && j < |KINDS|
  {
    Evidence(EvidenceId(i, j), KINDS[j], 0, PublicRedacted, Sha(1), ABinding(EvidenceId(i, j)))
  }

  function EvidenceList(i: nat): seq<Evidence>
    requires i < 8
  {
    seq(|KINDS|, j requires 0 <= j < |KINDS| => AnEvidence(i, j))
  }

  function AStep(i: nat, k: nat): Step
    requires i < 8 && k < 2
  {
    Step(k + 1, EntryPoints(CASE_ORDER[i])[k], Passed, 0, EvidenceIds(EvidenceList(i)))
  }

  function AResult(t: Target, i: nat): CaseResult
    requires i < 8
  {
    CaseResult(
      [Letter(i)], CASE_ORDER[i], "commit", Sha(1), t, 0, ["t"], Passed, ExpectedResult(CASE_ORDER[i]),
      0, 0, 0, 0, Measured, [AStep(i, 0), AStep(i, 1)], EvidenceList(i))
  }

  /** Every file has one byte; a result file's name tells which case it answers. */
  function SomeFiles(t: Target): Files {
    Files(
      b => 1,
      (b: Binding) =>
        if |b.artifactId| == 2 && 'a' <= b.artifactId[1] < 'i'
        then Some(AResult(t, b.artifactId[1] as int - 'a' as int)) else None,
      (b, e, inputs) => true)
  }

  // ---- The specification and the results are valid

  lemma TextIsIdentifier(kind: CaseKind)
    ensures IsIdentifier(ExpectedResult(kind))
  {
  }

  lemma NamesOfChanges()
    ensures IsIdentifier("runner:observe-healthy-promotion")
    ensures IsIdentifier("runner:observe-unhealthy-stable-recovery")
  {
  }

  lemma NamesOfDenials()
    ensures IsIdentifier("runner:observe-revocation-stale-denial")
    ensures IsIdentifier("runner:observe-independent-verification")
  {
  }

  lemma NamesOfReads()
    ensures IsIdentifier("runner:observe-ambiguity-classification")
    ensures IsIdentifier("runner:observe-timeline-console")
  {
  }

  lemma NamesOfResets()
    ensures IsIdentifier("runner:reset-reference-target")
    ensures IsIdentifier("runner:verify-stable-data-path")
    ensures IsIdentifier("runner:observe-bounded-advisor")
  {
  }

  lemma EntryPointsAreIdentifiers(kind: CaseKind)
    ensures IsIdentifier(EntryPoints(kind)[0]) && IsIdentifier(EntryPoints(kind)[1])
  {
    NamesOfChanges();
    NamesOfDenials();
    NamesOfReads();
    NamesOfResets();
  }

  lemma {:induction false} SumConstant(s: seq<int>, c: int)
    requires c == 0 || c == 1
    requires forall i :: 0 <= i < |s| ==> s[i] == c
    ensures Sum(s) == if c == 0 then 0 else |s|
  {
    if s != [] {
      SumConstant(s[..|s| - 1], c);
    }
  }

  lemma NamesAreValid(c: Component)
    ensures IsCloudRunName(ComponentName(c))
  {
  }

  lemma ImagesAreValid(t: Target, planId: string)
    ensures ImagesValid(ASpec(t, planId))
  {
    var images := ASpec(t, planId).images;
    forall i | 0 <= i < 5
      ensures images[i].component == COMPONENT_ORDER[i] && ImageValid(images[i], t)
    {
      NamesAreValid(COMPONENT_ORDER[i]);
    }
    forall i, j | 0 <= i < j < 5
      ensures images[i].reference.digest != images[j].reference.digest
    {
      assert images[i].reference.digest[0] == Letter(i) && images[j].reference.digest[0] == Letter(j);
    }
  }

  lemma CaseIsValid(i: nat)
    requires i < 8
    ensures CaseBindingValid(ACase(i), {"t"})
  {
    assert Elements(ACase(i).clockKeys) == {"t"};
  }

  lemma CasesAreValid(t: Target, planId: string)
    ensures CasesValid(ASpec(t, planId))
  {
    var spec := ASpec(t, planId);
    assert TickNames(spec.clock) == ["t"];
    assert Elements(["t"]) == {"t"};
    forall i | 0 <= i < 8
      ensures CaseBindingValid(spec.cases[i], Elements(TickNames(spec.clock)))
    {
      CaseIsValid(i);
    }
    SumConstant(CaseDurations(spec.cases), 1);
    SumConstant(CaseCosts(spec.cases), 0);
  }

  lemma PoliciesAreValid(t: Target, planId: string)
    ensures PoliciesValid(ASpec(t, planId))
  {
    assert SchemaVersionAt("a/v1", 1);
  }

  /** An identity that clashes with no policy and no result. */
  predicate PlanIdentity(id: string) {
    IsIdentifier(id) && id != "q" && (|id| == 2 ==> id[0] != 'r')
  }

  lemma TopLevelShape(t: Target, planId: string)
    ensures var ids := TopLevelIds(ASpec(t, planId));
            && |ids| == 10 && ids[0] == planId && ids[1] == "q"
            && forall i :: 2 <= i < 10 ==> ids[i] == ['r', Letter(i - 2)]
  {
    var spec := ASpec(t, planId);
    var ids := TopLevelIds(spec);
    assert PolicyIds(spec.policies) == ["q"];
    forall i | 2 <= i < 10
      ensures ids[i] == ['r', Letter(i - 2)]
    {
      assert ids[i] == ResultIds(spec.cases)[i - 2];
    }
  }

  lemma TopLevelDistinct(t: Target, planId: string)
    requires PlanIdentity(planId)
    ensures Distinct(TopLevelIds(ASpec(t, planId)))
  {
    TopLevelShape(t, planId);
    var ids := TopLevelIds(ASpec(t, planId));
    forall i, j | 0 <= i < j < 10
      ensures ids[i] != ids[j]
    {
      assert j >= 2 ==> ids[j][1] == Letter(j - 2);
    }
  }

  lemma SpecIsValid(t: Target, planId: string)
    requires TargetValid(t) && PlanIdentity(planId)
    ensures SpecValid(ASpec(t, planId))
  {
    ImagesAreValid(t, planId);
    CasesAreValid(t, planId);
    PoliciesAreValid(t, planId);
    TopLevelDistinct(t, planId);
  }

  lemma IdsDistinct(i: nat)
    requires i < 8
    ensures Distinct(EvidenceIds(EvidenceList(i)))
  {
    var ids := EvidenceIds(EvidenceList(i));
    forall j, k | 0 <= j < k < |ids|
      ensures ids[j] != ids[k]
    {
      assert ids[j][1] == Letter(j) && ids[k][1] == Letter(k);
    }
  }

  lemma EvidenceIsValid(i: nat)
    requires i < 8
    ensures forall j :: 0 <= j < |KINDS| ==>
              IsIdentifier(EvidenceList(i)[j].evidenceId) && BindingValid(EvidenceList(i)[j].artifact)
  {
  }

  lemma StepsAreValid(i: nat)
    requires i < 8
    ensures StepValid(AStep(i, 0), 0) && StepValid(AStep(i, 1), 1)
    ensures Referenced([AStep(i, 0), AStep(i, 1)]) == Elements(EvidenceIds(EvidenceList(i)))
    ensures Sum(StepDurations([AStep(i, 0), AStep(i, 1)])) == 0
  {
    var steps, ids := [AStep(i, 0), AStep(i, 1)], EvidenceIds(EvidenceList(i));
    EntryPointsAreIdentifiers(CASE_ORDER[i]);
    IdsDistinct(i);
    assert steps[0].evidenceIds == ids && steps[1].evidenceIds == ids;
    forall id
      ensures id in Referenced(steps) <==> id in ids
    {
      if id in ids {
        assert id in steps[0].evidenceIds;
      }
    }
    SumConstant(StepDurations(steps), 0);
  }

  lemma ResultIsValid(t: Target, i: nat)
    requires i < 8
    ensures ResultValid(AResult(t, i))
  {
    TextIsIdentifier(CASE_ORDER[i]);
    StepsAreValid(i);
    IdsDistinct(i);
    EvidenceIsValid(i);
  }

  lemma KindListed(k: EvidenceKind)
    requires k != RunnerFailure
    ensures k in KINDS
  {
    assert KINDS[0] == CloudRunConfiguration && KINDS[1] == DataPathProbe && KINDS[2] == VerifiedCapabilityMetadata;
    assert KINDS[3] == ExecutorEpochCheck && KINDS[4] == ExecutionReceipt && KINDS[5] == HealthDecision;
    assert KINDS[6] == RecoveryServiceIdentityBinding && KINDS[7] == AuthorityTransition && KINDS[8] == StaleDenial;
    assert KINDS[9] == IndependentVerification && KINDS[10] == AmbiguityClassification;
    assert KINDS[11] == EvidenceKind.Timeline && KINDS[12] == ConsoleRead && KINDS[13] == Coordinator;
    assert KINDS[14] == ModelAudit && KINDS[15] == PublicReplaySeed;
  }

  lemma EveryKindPresent(i: nat)
    requires i < 8
    ensures RequiredEvidence(CASE_ORDER[i]) <= EvidenceKinds(EvidenceList(i))
  {
    forall k | k in RequiredEvidence(CASE_ORDER[i])
      ensures k in EvidenceKinds(EvidenceList(i))
    {
      KindListed(k);
      var j :| 0 <= j < |KINDS| && KINDS[j] == k;
      assert EvidenceList(i)[j].kind == k;
    }
  }

  lemma ResultIsRead(t: Target, i: nat)
    requires i < 8
    ensures ReadResult(ACase(i), SomeFiles(t)) == Some(AResult(t, i))
  {
    ResultIsValid(t, i);
    assert ACase(i).result.artifactId[1] as int - 'a' as int == i;
  }

  lemma ResultIsBound(t: Target, i: nat, planId: string)
    requires i < 8
    ensures CaseBound(ACase(i), AResult(t, i), ASpec(t, planId), Sha(1), SomeFiles(t))
  {
    EveryKindPresent(i);
    var evidence := EvidenceList(i);
    forall j | 0 <= j < |evidence|
      ensures EvidenceBound(evidence[j], ACase(i), Sha(1), SomeFiles(t))
    {
      assert evidence[j] == AnEvidence(i, j);
    }
    assert |EntryPoints(CASE_ORDER[i])| == 2;
  }

  // ---- Identities over the run

  function FirstResults(t: Target, n: nat): seq<CaseResult>
    requires n <= 8
  {
    seq(n, i requires 0 <= i < n => AResult(t, i))
  }

  /** The identities of the first `n` cases: two letters, the first telling the case. */
  ghost predicate RunIds(ids: seq<string>, n: nat)
    requires n <= 8
  {
    && Distinct(ids)
    && forall id :: id in ids ==> |id| == 2 && 'a' <= id[0] < Letter(n)
  }

  lemma MoreRunIds(before: seq<string>, n: nat)
    requires n < 8 && RunIds(before, n)
    ensures RunIds(before + EvidenceIds(EvidenceList(n)), n + 1)
  {
    var own := EvidenceIds(EvidenceList(n));
    IdsDistinct(n);
    forall id | id in own
      ensures |id| == 2 && id[0] == Letter(n)
    {
      var j :| 0 <= j < |own| && own[j] == id;
    }
    DistinctUnion(before + own, before, own);
  }

  lemma ResultsSnoc(t: Target, n: nat)
    requires 0 < n <= 8
    ensures FirstResults(t, n)[..n - 1] == FirstResults(t, n - 1)
    ensures FirstResults(t, n)[n - 1].evidence == EvidenceList(n - 1)
  {
  }

  lemma {:induction false} RunIdsDistinct(t: Target, n: nat)
    requires n <= 8
    ensures RunIds(AllEvidenceIds(FirstResults(t, n)), n)
  {
    if n > 0 {
      RunIdsDistinct(t, n - 1);
      ResultsSnoc(t, n);
      MoreRunIds(AllEvidenceIds(FirstResults(t, n - 1)), n - 1);
    }
  }

  /** Artifacts are named after their evidence. */
  lemma {:induction false} ArtifactsAreIds(t: Target, n: nat)
    requires n <= 8
    ensures EvidenceArtifacts(FirstResults(t, n)) == AllEvidenceIds(FirstResults(t, n))
  {
    if n > 0 {
      ArtifactsAreIds(t, n - 1);
      ResultsSnoc(t, n);
      assert ArtifactIds(EvidenceList(n - 1)) == EvidenceIds(EvidenceList(n - 1));
    }
  }

  lemma {:induction false} FirstIdUsed(t: Target, n: nat)
    requires 0 < n <= 8
    ensures EvidenceId(0, 0) in AllEvidenceIds(FirstResults(t, n))
  {
    ResultsSnoc(t, n);
    if n == 1 {
      assert EvidenceIds(EvidenceList(0))[0] == EvidenceId(0, 0);
    } else {
      FirstIdUsed(t, n - 1);
    }
  }

  lemma ResultsAreRead(t: Target, planId: string)
    ensures ResultsReadable(ASpec(t, planId).cases, SomeFiles(t))
    ensures Results(ASpec(t, planId).cases, SomeFiles(t)) == FirstResults(t, 8)
  {
    forall i | 0 <= i < 8
      ensures ReadResult(ACase(i), SomeFiles(t)) == Some(AResult(t, i))
    {
      ResultIsRead(t, i);
    }
  }

  lemma CasesAreReady(t: Target, planId: string)
    ensures CasesReady(ASpec(t, planId), Sha(1), SomeFiles(t))
  {
    var spec := ASpec(t, planId);
    ResultsAreRead(t, planId);
    forall i | 0 <= i < 8
      ensures CaseBound(spec.cases[i], FirstResults(t, 8)[i], spec, Sha(1), SomeFiles(t))
    {
      ResultIsBound(t, i, planId);
    }
    RunIdsDistinct(t, 8);
  }

  /** The producer emits `m`, as passed, if the encoder takes it. */
  ghost predicate Emits(spec: Spec, specSha: string, f: Files, m: Manifest) {
    && Buildable(spec, Sha(1), f)
    && m == ManifestOf(spec, specSha, Sha(1), f)
    && m.status == Passed
  }

  /** Whatever the target and the plan are called, the producer emits this run as passed. */
  lemma WitnessBuilds(t: Target, planId: string, specSha: string) returns (m: Manifest)
    requires TargetValid(t) && PlanIdentity(planId)
    ensures Emits(ASpec(t, planId), specSha, SomeFiles(t), m)
  {
    var spec, f := ASpec(t, planId), SomeFiles(t);
    WitnessIsBuildable(t, planId);
    WitnessPasses(t, planId);
    PassedCasesPass(spec, Sha(1), f);
    m := ManifestOf(spec, specSha, Sha(1), f);
  }

  lemma WitnessIsBuildable(t: Target, planId: string)
    requires TargetValid(t) && PlanIdentity(planId)
    ensures Buildable(ASpec(t, planId), Sha(1), SomeFiles(t))
  {
    SpecIsValid(t, planId);
    CasesAreReady(t, planId);
    ResultsAreRead(t, planId);
  }

  lemma WitnessPasses(t: Target, planId: string)
    requires ResultsReadable(ASpec(t, planId).cases, SomeFiles(t))
    ensures AllPassed(Results(ASpec(t, planId).cases, SomeFiles(t)))
  {
    ResultsAreRead(t, planId);
  }

  function AnEntry(planId: string): C.PlanEntry {
    C.PlanEntry(planId, Sha(0), 1)
  }

  lemma WitnessFresh(t: Target, planId: string)
    requires ResultsReadable(ASpec(t, planId).cases, SomeFiles(t))
    ensures var results := Results(ASpec(t, planId).cases, SomeFiles(t));
            && Distinct(EvidenceArtifacts(results))
            && (EvidenceArtifactsFresh(ASpec(t, planId), results) <==> planId !in AllEvidenceIds(FirstResults(t, 8)))
  {
    ResultsAreRead(t, planId);
    RunIdsDistinct(t, 8);
    ArtifactsAreIds(t, 8);
    TopLevelShape(t, planId);
    OnlyThePlan(TopLevelIds(ASpec(t, planId)), AllEvidenceIds(FirstResults(t, 8)));
  }

  lemma OnlyThePlan(ids: seq<string>, evidence: seq<string>)
    requires |ids| == 10 && ids[1] == "q" && (forall i :: 2 <= i < 10 ==> ids[i] == ['r', Letter(i - 2)])
    requires RunIds(evidence, 8)
    ensures (forall id :: id in ids ==> id !in evidence) <==> ids[0] !in evidence
  {
    forall i | 1 <= i < 10
      ensures ids[i] !in evidence
    {
    }
  }

  /** This run is accepted exactly when the plan shares no identity with an evidence artifact. */
  lemma WitnessDecided(t: Target, planId: string, specSha: string) returns (m: Manifest)
    requires TargetValid(t) && PlanIdentity(planId) && IsSha256(specSha)
    ensures Emits(ASpec(t, planId), specSha, SomeFiles(t), m)
    ensures Distinct(EvidenceArtifacts(Results(ASpec(t, planId).cases, SomeFiles(t))))
    ensures C.Accepted(m, "commit", None, AnEntry(planId)) <==> planId !in AllEvidenceIds(FirstResults(t, 8))
  {
    m := WitnessBuilds(t, planId, specSha);
    WitnessFresh(t, planId);
    PassedManifestAccepted(
      ASpec(t, planId), specSha, Sha(1), SomeFiles(t), "commit", None, AnEntry(planId));
    SameRelease(t, planId);
  }

  lemma SameRelease(t: Target, planId: string)
    ensures ReleaseAgrees(ASpec(t, planId), SomeFiles(t), "commit", None, AnEntry(planId))
  {
  }

  /** There is a run that is emitted as passed and accepted. */
  lemma AcceptedWitness(t: Target, planId: string, specSha: string) returns (m: Manifest)
    requires TargetValid(t) && IsSha256(specSha) && planId == "plan"
    ensures Emits(ASpec(t, planId), specSha, SomeFiles(t), m)
    ensures C.Accepted(m, "commit", None, AnEntry(planId))
  {
    m := WitnessDecided(t, planId, specSha);
    RunIdsDistinct(t, 8);
  }

  /** There is one, with all evidence artifacts named apart, that is emitted as passed and refused. */
  lemma RefusedWitness(t: Target, planId: string, specSha: string) returns (m: Manifest)
    requires TargetValid(t) && IsSha256(specSha) && planId == EvidenceId(0, 0)
    ensures Emits(ASpec(t, planId), specSha, SomeFiles(t), m)
    ensures Distinct(EvidenceArtifacts(Results(ASpec(t, planId).cases, SomeFiles(t))))
    ensures !C.Accepted(m, "commit", None, AnEntry(planId))
  {
    m := WitnessDecided(t, planId, specSha);
    FirstIdUsed(t, 8);
  }

  /** So there is a run for some target that is emitted as passed and accepted, and one that is refused. */
  lemma BothHappen(specSha: string) returns (t: Target, accepted: Manifest, refused: Manifest)
    requires IsSha256(specSha)
    ensures Emits(ASpec(t, "plan"), specSha, SomeFiles(t), accepted)
    ensures C.Accepted(accepted, "commit", None, AnEntry("plan"))
    ensures Emits(ASpec(t, EvidenceId(0, 0)), specSha, SomeFiles(t), refused)
    ensures !C.Accepted(refused, "commit", None, AnEntry(EvidenceId(0, 0)))
  {
    t := ATarget();
    accepted := AcceptedWitness(t, "plan", specSha);
    refused := RefusedWitness(t, EvidenceId(0, 0), specSha);
  }

  lemma ATarget() returns (t: Target)
    ensures TargetValid(t)
  {
    var project := "controlgraph-canary-aaaaaa";
    assert project == PROJECT_PREFIX + "aaaaaa" && project[|PROJECT_PREFIX|..] == "aaaaaa";
    t := Target(project, "us-central1", "controlgraph-reference-target", "stable", "candidate");
  }
}
