/**
 The two independently written programs agree: which of the producer's passed
 manifests the verifier accepts, exactly.
 */
module ManifestRefinement {
  import opened Option
  import opened Lists
  import opened AcceptanceTypes
  import opened P = CoreAcceptance
  import C = CoreManifestCheck

  // ---- The two programs' tables

  /** The verifier expects no other result and no more evidence than the producer requires. */
  lemma TablesAgree(kind: CaseKind)
    ensures C.CoreExpectedResult(kind) == ExpectedResult(kind)
    ensures C.CoreRequiredEvidence(kind) == RequiredEvidence(kind)
    ensures C.CORE_CASE_ORDER == CASE_ORDER
  {
  }

  lemma EntryPointsNonEmpty(kind: CaseKind)
    ensures |EntryPoints(kind)| == 2
    ensures forall i :: 0 <= i < 2 ==> EntryPoints(kind)[i] != ""
  {
  }

  lemma ComponentNamesMatch(c: Component)
    ensures ComponentName(c) != "" && All(C.ImageNameChar, ComponentName(c))
  {
  }

  // ---- Images

  lemma ProducedImageAccepted(image: Image, target: Target)
    requires TargetValid(target) && ImageValid(image, target)
    ensures C.ImageAccepted(image, target)
  {
    ComponentNamesMatch(image.component);
  }

  lemma ProducedImagesAccepted(spec: Spec)
    requires TargetValid(spec.target) && ImagesValid(spec)
    ensures C.ImagesAccepted(spec.images, spec.target)
  {
    var images := spec.images;
    forall i | 0 <= i < |images|
      ensures C.ImageAccepted(images[i], spec.target)
    {
      ProducedImageAccepted(images[i], spec.target);
    }
    ProducedComponents(spec);
    FiveComponents();
  }

  lemma ProducedComponents(spec: Spec)
    requires ImagesValid(spec)
    ensures C.Components(spec.images) == COMPONENT_ORDER && Distinct(C.Digests(spec.images))
  {
  }

  lemma FiveComponents()
    ensures Distinct(COMPONENT_ORDER) && Elements(COMPONENT_ORDER) == C.IMAGE_COMPONENTS
    ensures |COMPONENT_ORDER| == |C.IMAGE_COMPONENTS|
  {
    var order := COMPONENT_ORDER;
    assert order[0] == Controller && order[1] == Advisor && order[2] == Console;
    assert order[3] == ReferenceStable && order[4] == ReferenceCandidate;
    assert |C.IMAGE_COMPONENTS| == 5;
  }

  // ---- One case

  lemma SameEvidence(b: CaseBinding, r: CaseResult, f: Files)
    ensures var c := CaseOf(b, r, f);
            && C.ManifestEvidenceIds(c.evidence) == EvidenceIds(r.evidence)
            && C.ManifestKinds(c.evidence) == EvidenceKinds(r.evidence)
            && C.StepReferences(c.steps) == Referenced(r.steps)
            && C.StepMilliseconds(c.steps) == StepDurations(r.steps)
  {
    var c := CaseOf(b, r, f);
    forall k
      ensures k in C.ManifestKinds(c.evidence) <==> k in EvidenceKinds(r.evidence)
    {
      if k in EvidenceKinds(r.evidence) {
        var i :| 0 <= i < |r.evidence| && r.evidence[i].kind == k;
        assert c.evidence[i].kind == k;
      }
      if k in C.ManifestKinds(c.evidence) {
        var i :| 0 <= i < |c.evidence| && c.evidence[i].kind == k;
        assert r.evidence[i].kind == k;
      }
    }
  }

  lemma ArtifactAccepted(b: Binding, maximum: int, f: Files)
    requires BindingValid(b) && Readable(b, maximum, f) && maximum <= MAX_ARTIFACT_BYTES
    ensures C.ArtifactAccepted(ArtifactOf(b, f))
  {
  }

  lemma EvidenceAccepted(b: CaseBinding, r: CaseResult, spec: Spec, runInputs: string, f: Files)
    requires ResultValid(r) && CaseBound(b, r, spec, runInputs, f) && r.status == Passed
    ensures C.EvidenceListAccepted(CaseOf(b, r, f))
  {
    var c := CaseOf(b, r, f);
    SameEvidence(b, r, f);
    TablesAgree(b.kind);
    forall i | 0 <= i < |c.evidence|
      ensures C.EvidenceAccepted(c.evidence[i])
    {
      assert EvidenceBound(r.evidence[i], b, runInputs, f);
      ArtifactAccepted(r.evidence[i].artifact, MAX_ARTIFACT_BYTES, f);
    }
  }

  lemma StepsAccepted(b: CaseBinding, r: CaseResult, spec: Spec, runInputs: string, f: Files)
    requires ResultValid(r) && CaseBound(b, r, spec, runInputs, f) && r.status == Passed
    ensures C.StepsAccepted(CaseOf(b, r, f))
  {
    var c := CaseOf(b, r, f);
    SameEvidence(b, r, f);
    forall i | 0 <= i < |c.steps|
      ensures C.StepAccepted(c.steps[i], i, c.entryPoints[i])
    {
      assert StepValid(r.steps[i], i);
    }
  }

  lemma HeaderAccepted(
    b: CaseBinding, r: CaseResult, spec: Spec, runInputs: string, f: Files, clock: set<string>, index: nat)
    requires CaseBindingValid(b, clock) && b.sequence == index + 1
    requires Readable(b.result, MAX_CONTRACT_BYTES, f)
    requires ResultValid(r) && CaseBound(b, r, spec, runInputs, f) && r.status == Passed
    ensures C.CaseHeaderAccepted(CaseOf(b, r, f), index)
  {
    TablesAgree(b.kind);
    EntryPointsNonEmpty(b.kind);
    ArtifactAccepted(b.result, MAX_CONTRACT_BYTES, f);
  }

  /** A passed result that answers its binding makes a case the verifier accepts. */
  lemma PassedCaseAccepted(spec: Spec, runInputs: string, f: Files, i: nat)
    requires SpecValid(spec) && CasesReady(spec, runInputs, f) && i < |spec.cases|
    requires Results(spec.cases, f)[i].status == Passed
    ensures C.CaseAccepted(CaseOf(spec.cases[i], Results(spec.cases, f)[i], f), i)
  {
    var b, r := spec.cases[i], Results(spec.cases, f)[i];
    assert ReadResult(b, f) == Some(r);
    HeaderAccepted(b, r, spec, runInputs, f, Elements(TickNames(spec.clock)), i);
    EvidenceAccepted(b, r, spec, runInputs, f);
    StepsAccepted(b, r, spec, runInputs, f);
  }

  // ---- Identities over the whole manifest

  lemma CasesPrefix(cases: seq<CaseBinding>, results: seq<CaseResult>, f: Files)
    requires |cases| == |results| && cases != []
    ensures var all, n := CasesOf(cases, results, f), |cases| - 1;
            all[..n] == CasesOf(cases[..n], results[..n], f) && all[n] == CaseOf(cases[n], results[n], f)
  {
  }

  lemma {:induction false} SameEvidenceIds(cases: seq<CaseBinding>, results: seq<CaseResult>, f: Files)
    requires |cases| == |results|
    ensures C.AllIds(CasesOf(cases, results, f)) == AllEvidenceIds(results)
  {
    if cases != [] {
      var n := |cases| - 1;
      SameEvidenceIds(cases[..n], results[..n], f);
      CasesPrefix(cases, results, f);
      SameEvidence(cases[n], results[n], f);
    }
  }

  function ArtifactIds(evidence: seq<Evidence>): seq<string> {
    seq(|evidence|, i requires 0 <= i < |evidence| => evidence[i].artifact.artifactId)
  }

  /** The artifact identities of all evidence, case by case. */
  function EvidenceArtifacts(results: seq<CaseResult>): seq<string> {
    if results == [] then []
    else EvidenceArtifacts(results[..|results| - 1]) + ArtifactIds(results[|results| - 1].evidence)
  }

  /** The manifest lists results and evidence interleaved; together they are the same identities. */
  lemma {:induction false} SameArtifactIds(cases: seq<CaseBinding>, results: seq<CaseResult>, f: Files)
    requires |cases| == |results|
    ensures multiset(C.AllArtifactIds(CasesOf(cases, results, f)))
         == multiset(ResultIds(cases)) + multiset(EvidenceArtifacts(results))
  {
    if cases != [] {
      var n := |cases| - 1;
      var all := CasesOf(cases, results, f);
      SameArtifactIds(cases[..n], results[..n], f);
      CasesPrefix(cases, results, f);
      assert ResultIds(cases) == ResultIds(cases[..n]) + [cases[n].result.artifactId];
      CaseArtifacts(cases[n], results[n], f);
      AddCounts(
        C.AllArtifactIds(all[..n]), ResultIds(cases[..n]), EvidenceArtifacts(results[..n]),
        cases[n].result.artifactId, ArtifactIds(results[n].evidence));
    }
  }

  lemma CaseArtifacts(b: CaseBinding, r: CaseResult, f: Files)
    ensures C.CaseArtifactIds(CaseOf(b, r, f)) == [b.result.artifactId] + ArtifactIds(r.evidence)
  {
    assert C.EvidenceArtifactIds(CaseOf(b, r, f).evidence) == ArtifactIds(r.evidence);
  }

  lemma AddCounts(all: seq<string>, results: seq<string>, evidence: seq<string>, id: string, more: seq<string>)
    requires multiset(all) == multiset(results) + multiset(evidence)
    ensures multiset(all + ([id] + more)) == multiset(results + [id]) + multiset(evidence + more)
  {
  }

  /**
   What the producer leaves unchecked: evidence artifact identities repeat
   nothing among themselves and nothing the specification names.
   */
  predicate EvidenceArtifactsFresh(spec: Spec, results: seq<CaseResult>) {
    && Distinct(EvidenceArtifacts(results))
    && forall id :: id in TopLevelIds(spec) ==> id !in EvidenceArtifacts(results)
  }

  lemma SameInputIds(spec: Spec, specSha: string, runInputs: string, f: Files)
    requires ResultsReadable(spec.cases, f)
    ensures TopLevelIds(spec) == C.InputIds(ManifestOf(spec, specSha, runInputs, f)) + ResultIds(spec.cases)
  {
    assert C.PolicyArtifactIds(PoliciesOf(spec.policies, f)) == PolicyIds(spec.policies);
  }

  lemma JoinCounts(inputs: seq<string>, all: seq<string>, results: seq<string>, evidence: seq<string>)
    requires multiset(all) == multiset(results) + multiset(evidence)
    ensures multiset(inputs + all) == multiset(inputs + results) + multiset(evidence)
  {
  }

  lemma IdentitiesFresh(spec: Spec, specSha: string, runInputs: string, f: Files)
    requires Distinct(TopLevelIds(spec)) && ResultsReadable(spec.cases, f)
    ensures var m := ManifestOf(spec, specSha, runInputs, f);
            Distinct(C.InputIds(m) + C.AllArtifactIds(m.cases))
            <==> EvidenceArtifactsFresh(spec, Results(spec.cases, f))
  {
    var m, results := ManifestOf(spec, specSha, runInputs, f), Results(spec.cases, f);
    var inputs, all := C.InputIds(m), C.AllArtifactIds(m.cases);
    SameArtifactIds(spec.cases, results, f);
    SameInputIds(spec, specSha, runInputs, f);
    JoinCounts(inputs, all, ResultIds(spec.cases), EvidenceArtifacts(results));
    DistinctUnion(inputs + all, TopLevelIds(spec), EvidenceArtifacts(results));
  }

  // ---- The refinement

  /** What a caller knows of the release before asking: plan, revision and images. */
  predicate ReleaseAgrees(
    spec: Spec, f: Files, revision: string, release: Option<C.ReleaseImages>, entry: C.PlanEntry)
  {
    && spec.sourceCommit == revision
    && (release.Some? ==> C.ReleaseMatches(spec.images, release.value))
    && entry == C.PlanEntry(spec.plan.artifactId, spec.plan.sha256, f.size(spec.plan))
  }

  lemma EachCaseAccepted(spec: Spec, runInputs: string, f: Files)
    requires SpecValid(spec) && CasesReady(spec, runInputs, f) && AllPassed(Results(spec.cases, f))
    ensures var cases := CasesOf(spec.cases, Results(spec.cases, f), f);
            forall i :: 0 <= i < |cases| ==> C.CaseAccepted(cases[i], i)
  {
    var cases := CasesOf(spec.cases, Results(spec.cases, f), f);
    forall i | 0 <= i < |cases|
      ensures C.CaseAccepted(cases[i], i)
    {
      PassedCaseAccepted(spec, runInputs, f, i);
    }
  }

  lemma AllCasesAccepted(spec: Spec, specSha: string, runInputs: string, f: Files)
    requires SpecValid(spec) && CasesReady(spec, runInputs, f) && AllPassed(Results(spec.cases, f))
    ensures var m := ManifestOf(spec, specSha, runInputs, f);
            C.CasesAccepted(m.cases, C.InputIds(m)) <==> EvidenceArtifactsFresh(spec, Results(spec.cases, f))
  {
    var m, results := ManifestOf(spec, specSha, runInputs, f), Results(spec.cases, f);
    assert Distinct(C.AllIds(m.cases)) by {
      SameEvidenceIds(spec.cases, results, f);
    }
    assert Distinct(C.CaseIds(m.cases)) by {
      CaseIdsDistinct(spec, results, f);
    }
    assert forall i :: 0 <= i < |m.cases| ==> C.CaseAccepted(m.cases[i], i) by {
      EachCaseAccepted(spec, runInputs, f);
    }
    IdentitiesFresh(spec, specSha, runInputs, f);
  }

  lemma KindsKept(spec: Spec, results: seq<CaseResult>, f: Files)
    requires CasesValid(spec) && |spec.cases| == |results|
    ensures C.KindsInOrder(CasesOf(spec.cases, results, f))
  {
    TablesAgree(TargetReset);
  }

  lemma CaseIdsDistinct(spec: Spec, results: seq<CaseResult>, f: Files)
    requires CasesValid(spec) && |spec.cases| == |results|
    ensures Distinct(C.CaseIds(CasesOf(spec.cases, results, f)))
  {
  }

  lemma BoundsFollow(spec: Spec, specSha: string, runInputs: string, f: Files)
    requires Buildable(spec, runInputs, f) && AllPassed(Results(spec.cases, f))
    ensures C.BoundsAccepted(ManifestOf(spec, specSha, runInputs, f))
  {
    hide Least, Greatest, RunBasis, CaseBound, Sum;
    var m, results := ManifestOf(spec, specSha, runInputs, f), Results(spec.cases, f);
    assert C.Durations(m.cases) == Durations(results);
    assert C.MaximumDurations(m.cases) == CaseDurations(spec.cases);
    assert C.ReportedCosts(m.cases) == Costs(results);
    assert C.MaximumCosts(m.cases) == CaseCosts(spec.cases);
    PassedCasesPass(spec, runInputs, f);
    forall i | 0 <= i < |results|
      ensures results[i].duration >= 0
    {
      assert ReadResult(spec.cases[i], f) == Some(results[i]);
    }
    SumMonotone(Durations(results), Durations(results));
  }

  lemma PoliciesAccepted(spec: Spec, specSha: string, runInputs: string, f: Files)
    requires SpecValid(spec) && PoliciesReadable(spec.policies, f) && ResultsReadable(spec.cases, f)
    ensures C.PoliciesAccepted(ManifestOf(spec, specSha, runInputs, f))
  {
    var m := ManifestOf(spec, specSha, runInputs, f);
    forall i | 0 <= i < |m.policies|
      ensures C.PolicyAccepted(m.policies[i])
    {
      ArtifactAccepted(spec.policies[i].artifact, MAX_ARTIFACT_BYTES, f);
    }
    SameInputIds(spec, specSha, runInputs, f);
    DistinctPrefix(C.InputIds(m), ResultIds(spec.cases));
  }

  lemma ProducedHeader(spec: Spec, specSha: string, runInputs: string, f: Files, revision: string)
    requires SpecValid(spec) && ResultsReadable(spec.cases, f)
    requires IsSha256(specSha) && IsSha256(runInputs)
    requires ManifestOf(spec, specSha, runInputs, f).status == Passed
    ensures C.HeaderAccepted(ManifestOf(spec, specSha, runInputs, f), revision) <==> spec.sourceCommit == revision
    ensures C.TargetAccepted(spec.target)
  {
  }

  lemma ProducedPlan(spec: Spec, f: Files, entry: C.PlanEntry)
    requires BindingValid(spec.plan) && Readable(spec.plan, MAX_ARTIFACT_BYTES, f)
    ensures C.PlanAccepted(ArtifactOf(spec.plan, f), entry)
       <==> && spec.plan.media == JsonMedia
            && entry == C.PlanEntry(spec.plan.artifactId, spec.plan.sha256, f.size(spec.plan))
  {
    ArtifactAccepted(spec.plan, MAX_ARTIFACT_BYTES, f);
  }

  lemma ProducedParts(spec: Spec, specSha: string, runInputs: string, f: Files)
    requires ResultsReadable(spec.cases, f)
    ensures var m := ManifestOf(spec, specSha, runInputs, f);
            m.target == spec.target && m.images == spec.images && m.plan == ArtifactOf(spec.plan, f)
  {
  }

  /** Everything but the release, the plan's media type and the evidence artifacts is accepted anyway. */
  ghost predicate AcceptedSave(m: Manifest, revision: string, ownIds: bool)
  {
    && C.TargetAccepted(m.target) && C.ImagesAccepted(m.images, m.target)
    && C.PoliciesAccepted(m) && C.KindsInOrder(m.cases)
    && (C.CasesAccepted(m.cases, C.InputIds(m)) <==> ownIds)
    && C.BoundsAccepted(m)
    && (C.HeaderAccepted(m, revision) <==> m.sourceCommit == revision)
  }

  lemma PassedSave(spec: Spec, specSha: string, runInputs: string, f: Files, revision: string)
    requires Buildable(spec, runInputs, f) && ManifestOf(spec, specSha, runInputs, f).status == Passed
    requires IsSha256(specSha) && IsSha256(runInputs)
    ensures AcceptedSave(
              ManifestOf(spec, specSha, runInputs, f), revision,
              EvidenceArtifactsFresh(spec, Results(spec.cases, f)))
  {
    ProducedParts(spec, specSha, runInputs, f);
    ProducedHeader(spec, specSha, runInputs, f, revision);
    ProducedImagesAccepted(spec);
    PoliciesAccepted(spec, specSha, runInputs, f);
    AllCasesAccepted(spec, specSha, runInputs, f);
    KindsKept(spec, Results(spec.cases, f), f);
    BoundsFollow(spec, specSha, runInputs, f);
  }

  lemma AcceptedGiven(
    m: Manifest, revision: string, release: Option<C.ReleaseImages>, entry: C.PlanEntry, ownIds: bool)
    requires AcceptedSave(m, revision, ownIds)
    ensures C.Accepted(m, revision, release, entry)
       <==> && m.sourceCommit == revision
            && (release.Some? ==> C.ReleaseMatches(m.images, release.value))
            && C.PlanAccepted(m.plan, entry)
            && ownIds
  {
  }

  /**
   The refinement: of the manifests the producer emits as passed, the verifier
   accepts exactly those of the same release whose plan is a JSON artifact and
   whose evidence artifacts have identities of their own.
   */
  lemma PassedManifestAccepted(
    spec: Spec, specSha: string, runInputs: string, f: Files,
    revision: string, release: Option<C.ReleaseImages>, entry: C.PlanEntry)
    requires Buildable(spec, runInputs, f) && ManifestOf(spec, specSha, runInputs, f).status == Passed
    requires IsSha256(specSha) && IsSha256(runInputs)
    ensures C.Accepted(ManifestOf(spec, specSha, runInputs, f), revision, release, entry)
       <==> && ReleaseAgrees(spec, f, revision, release, entry)
            && spec.plan.media == JsonMedia
            && EvidenceArtifactsFresh(spec, Results(spec.cases, f))
  {
    var m := ManifestOf(spec, specSha, runInputs, f);
    PassedSave(spec, specSha, runInputs, f, revision);
    AcceptedGiven(m, revision, release, entry, EvidenceArtifactsFresh(spec, Results(spec.cases, f)));
    ProducedPlan(spec, f, entry);
    ProducedParts(spec, specSha, runInputs, f);
  }
}
