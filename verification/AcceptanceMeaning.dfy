/**
 What the acceptance checks come to, condition by condition: the verifier's check
 of a manifest and the producer's checks of a specification and a result, with the
 bounds, the patterns and the identities written out.
 */
module AcceptanceMeaning {
  import opened Option
  import opened Lists
  import opened AcceptanceTypes
  import P = CoreAcceptance
  import C = CoreManifestCheck

  // ---- Patterns

  lemma Sha256Means(s: string)
    ensures IsSha256(s)
       <==> |s| == 64 && forall i :: 0 <= i < 64 ==> '0' <= s[i] <= '9' || 'a' <= s[i] <= 'f'
  {
  }

  lemma IdentifierMeans(s: string)
    ensures IsIdentifier(s)
       <==> && 1 <= |s| <= 128
            && ('a' <= s[0] <= 'z' || 'A' <= s[0] <= 'Z' || '0' <= s[0] <= '9')
            && forall i :: 0 <= i < |s| ==>
                 || 'a' <= s[i] <= 'z' || 'A' <= s[i] <= 'Z' || '0' <= s[i] <= '9'
                 || s[i] == '.' || s[i] == '_' || s[i] == ':' || s[i] == '-'
  {
  }

  lemma CloudRunNameMeans(s: string)
    ensures IsCloudRunName(s)
       <==> && 1 <= |s| <= 63 && 'a' <= s[0] <= 'z' && s[|s| - 1] != '-'
            && forall i :: 0 <= i < |s| ==> 'a' <= s[i] <= 'z' || '0' <= s[i] <= '9' || s[i] == '-'
  {
  }

  lemma CanaryProjectMeans(s: string)
    ensures IsCanaryProject(s)
       <==> && 26 <= |s| <= 30 && s[..20] == "controlgraph-canary-"
            && forall i :: 20 <= i < |s| ==> 'a' <= s[i] <= 'z' || '0' <= s[i] <= '9'
  {
    if |s| >= 20 {
      assert forall i :: 0 <= i < |s| - 20 ==> s[20..][i] == s[20 + i];
      assert forall i :: 20 <= i < |s| ==> s[i] == s[20..][i - 20];
    }
  }

  /** A schema name, then `/v`, then a number without a leading zero. */
  lemma SchemaVersionMeans(name: string, number: string)
    requires name != "" && number != "" && '/' !in name
    ensures IsSchemaVersion(name + "/v" + number)
       <==> && 'a' <= name[0] <= 'z' && number[0] != '0'
            && (forall i :: 0 <= i < |name| ==>
                  'a' <= name[i] <= 'z' || '0' <= name[i] <= '9' || name[i] == '.' || name[i] == '-')
            && forall i :: 0 <= i < |number| ==> '0' <= number[i] <= '9'
  {
    var s, n := name + "/v" + number, |name|;
    assert s[..n] == name && s[n] == '/' && s[n + 1] == 'v' && s[n + 2..] == number;
    assert forall k :: 0 <= k < n ==> s[k] == name[k] != '/';
    assert forall k :: n < k <= |s| ==> s[..k][n] == '/';
    assert forall k :: 1 <= k < |s| - 2 && SchemaVersionAt(s, k) ==> k == n;
    assert IsSchemaVersion(s) <==> SchemaVersionAt(s, n);
    assert number[0] == s[n + 2];
  }

  // ---- Identities in lists of lists

  function Concat(lists: seq<seq<string>>): seq<string> {
    if lists == [] then [] else Concat(lists[..|lists| - 1]) + lists[|lists| - 1]
  }

  /** Where the `k`-th of the `i`-th list stands in all of them together. */
  lemma {:induction false} Placed(lists: seq<seq<string>>, i: nat, k: nat)
    requires i < |lists| && k < |lists[i]|
    ensures |Concat(lists[..i])| + k < |Concat(lists[..i + 1])| <= |Concat(lists)|
    ensures Concat(lists)[|Concat(lists[..i])| + k] == lists[i][k]
  {
    var n := |lists| - 1;
    if i < n {
      Placed(lists[..n], i, k);
      assert lists[..n][..i] == lists[..i] && lists[..n][..i + 1] == lists[..i + 1];
    } else {
      assert lists[..i + 1] == lists;
    }
  }

  lemma {:induction false} Later(lists: seq<seq<string>>, i: nat, j: nat)
    requires i <= j <= |lists|
    ensures |Concat(lists[..i])| <= |Concat(lists[..j])|
    decreases j
  {
    if i < j {
      Later(lists, i, j - 1);
      assert lists[..j][..j - 1] == lists[..j - 1];
    }
  }

  /** If nothing repeats in all the lists together, no two places hold the same. */
  lemma Apart(lists: seq<seq<string>>, i: nat, k: nat, j: nat, l: nat)
    requires Distinct(Concat(lists))
    requires i < |lists| && k < |lists[i]| && j < |lists| && l < |lists[j]| && (i < j || (i == j && k < l))
    ensures lists[i][k] != lists[j][l]
  {
    Placed(lists, i, k);
    Placed(lists, j, l);
    if i < j {
      Later(lists, i + 1, j);
    }
  }

  function EvidenceLists(cases: seq<ManifestCase>): seq<seq<string>> {
    seq(|cases|, i requires 0 <= i < |cases| => C.ManifestEvidenceIds(cases[i].evidence))
  }

  function ArtifactLists(cases: seq<ManifestCase>): seq<seq<string>> {
    seq(|cases|, i requires 0 <= i < |cases| => C.CaseArtifactIds(cases[i]))
  }

  lemma {:induction false} ListsOfCases(cases: seq<ManifestCase>)
    ensures C.AllIds(cases) == Concat(EvidenceLists(cases))
    ensures C.AllArtifactIds(cases) == Concat(ArtifactLists(cases))
  {
    if cases != [] {
      var n := |cases| - 1;
      ListsOfCases(cases[..n]);
      assert EvidenceLists(cases)[..n] == EvidenceLists(cases[..n]);
      assert ArtifactLists(cases)[..n] == ArtifactLists(cases[..n]);
    }
  }

  // ---- An accepted manifest

  lemma AcceptedHeader(m: Manifest, revision: string, release: Option<C.ReleaseImages>, entry: C.PlanEntry)
    requires C.Accepted(m, revision, release, entry)
    ensures m.status == Passed && m.bindingComplete && m.sourceCommit == revision
    ensures IsSha256(m.specSha256) && m.runId == "cgacceptance:" + m.specSha256 && IsSha256(m.runInputs)
    ensures 0 <= m.randomSeed <= 9_007_199_254_740_991
    ensures m.target.region == "us-central1" && m.target.serviceName == "controlgraph-reference-target"
    ensures IsCanaryProject(m.target.projectId)
    ensures IsCloudRunName(m.target.stableRevision) && IsCloudRunName(m.target.candidateRevision)
    ensures m.target.stableRevision != m.target.candidateRevision
  {
    hide C.ImagesAccepted, C.CasesAccepted, C.PoliciesAccepted, C.BoundsAccepted, C.KindsInOrder, C.PlanAccepted;
  }

  /** Every component has exactly one image, of this project and region, with a digest of its own. */
  lemma AcceptedImages(m: Manifest, revision: string, release: Option<C.ReleaseImages>, entry: C.PlanEntry)
    requires C.Accepted(m, revision, release, entry)
    ensures |m.images| == 5
    ensures forall i :: 0 <= i < 5 ==>
              && m.images[i].reference.region == "us-central1" && m.images[i].reference.project == m.target.projectId
              && m.images[i].reference.name == ComponentName(m.images[i].component)
              && IsSha256(m.images[i].reference.digest)
    ensures forall i, j :: 0 <= i < j < 5 ==>
              && m.images[i].component != m.images[j].component
              && m.images[i].reference.digest != m.images[j].reference.digest
    ensures release.Some? ==> forall i :: 0 <= i < 5 ==>
              && m.images[i].component in release.value
              && release.value[m.images[i].component] == m.images[i].reference
    ensures release.Some? ==> |release.value.Keys| == 5
  {
    hide C.HeaderAccepted, C.CasesAccepted, C.PoliciesAccepted, C.BoundsAccepted, C.KindsInOrder, C.PlanAccepted;
    hide IsCanaryProject, IsSha256, ComponentName, IsCloudRunName;
    FiveComponents();
    forall i, j | 0 <= i < j < |m.images|
      ensures m.images[i].component != m.images[j].component
      ensures m.images[i].reference.digest != m.images[j].reference.digest
    {
      assert C.Components(m.images)[i] != C.Components(m.images)[j];
      assert C.Digests(m.images)[i] != C.Digests(m.images)[j];
    }
    forall i | 0 <= i < |m.images|
      ensures C.ImageAccepted(m.images[i], m.target)
    {
    }
  }

  lemma FiveComponents()
    ensures |C.IMAGE_COMPONENTS| == 5
    ensures C.IMAGE_COMPONENTS == {Controller, Advisor, Console, ReferenceStable, ReferenceCandidate}
  {
    assert C.IMAGE_COMPONENTS == {Controller, Advisor, Console, ReferenceStable, ReferenceCandidate};
    assert |{Controller}| == 1 && |{Controller, Advisor}| == 2 && |{Controller, Advisor, Console}| == 3;
    assert |{Controller, Advisor, Console, ReferenceStable}| == 4;
  }

  ghost predicate SoundArtifact(a: Artifact) {
    IsIdentifier(a.artifactId) && 1 <= a.byteCount <= 8_388_608 && IsSha256(a.sha256)
  }

  /** The plan is the one of the release bundle, and one to eight policies stand beside it. */
  lemma AcceptedInputs(m: Manifest, revision: string, release: Option<C.ReleaseImages>, entry: C.PlanEntry)
    requires C.Accepted(m, revision, release, entry)
    ensures SoundArtifact(m.plan) && m.plan.media == JsonMedia
    ensures m.plan.artifactId == entry.id && m.plan.sha256 == entry.sha256 && m.plan.byteCount == entry.bytes
    ensures 1 <= |m.policies| <= 8
    ensures forall i :: 0 <= i < |m.policies| ==>
              && IsSchemaVersion(m.policies[i].schemaVersion)
              && SoundArtifact(m.policies[i].artifact) && m.policies[i].artifact.media == JsonMedia
  {
    hide C.HeaderAccepted, C.CasesAccepted, C.ImagesAccepted, C.BoundsAccepted, C.KindsInOrder;
    hide IsIdentifier, IsSha256, IsSchemaVersion, Distinct;
  }

  /** Eight cases of eight kinds in order, each passed with the expected result and within its bounds. */
  lemma AcceptedCase(m: Manifest, revision: string, release: Option<C.ReleaseImages>, entry: C.PlanEntry, i: nat)
    requires C.Accepted(m, revision, release, entry) && i < |m.cases|
    ensures |m.cases| == 8
    ensures var c := m.cases[i];
            && c.sequence == i + 1 && c.kind == P.CASE_ORDER[i] && IsIdentifier(c.caseId) && c.status == Passed
            && c.expected == P.ExpectedResult(c.kind) && c.observed == P.ExpectedResult(c.kind)
            && 0 <= c.duration <= c.maximumDuration <= 3_600_000
            && 0 <= c.cost.reported <= c.cost.maximum <= 10_000_000
            && SoundArtifact(c.resultArtifact) && c.resultArtifact.media == JsonMedia
            && |c.entryPoints| >= 1 && forall k :: 0 <= k < |c.entryPoints| ==> |c.entryPoints[k]| >= 1
  {
    hide C.HeaderAccepted, C.ImagesAccepted, C.BoundsAccepted, C.PoliciesAccepted, C.PlanAccepted;
    hide C.EvidenceListAccepted, C.StepsAccepted, IsIdentifier, IsSha256, Distinct;
    TablesOf(m.cases[i].kind);
    assert C.CaseAccepted(m.cases[i], i);
  }

  lemma TablesOf(kind: CaseKind)
    ensures C.CoreExpectedResult(kind) == P.ExpectedResult(kind)
    ensures C.CoreRequiredEvidence(kind) == P.RequiredEvidence(kind)
    ensures C.CORE_CASE_ORDER == P.CASE_ORDER && |P.CASE_ORDER| == 8
  {
  }

  /** A case's evidence holds every required kind; its steps use all of it, and nothing else. */
  lemma AcceptedEvidence(m: Manifest, revision: string, release: Option<C.ReleaseImages>, entry: C.PlanEntry, i: nat)
    requires C.Accepted(m, revision, release, entry) && i < |m.cases|
    ensures var c := m.cases[i];
            && (forall k :: 0 <= k < |c.evidence| ==>
                  IsIdentifier(c.evidence[k].evidenceId) && SoundArtifact(c.evidence[k].artifact))
            && (forall kind :: kind in P.RequiredEvidence(c.kind) ==> exists e :: e in c.evidence && e.kind == kind)
            && (forall e :: e in c.evidence ==> exists s :: s in c.steps && e.evidenceId in s.evidenceIds)
            && (forall s, id :: s in c.steps && id in s.evidenceIds ==>
                  exists e :: e in c.evidence && e.evidenceId == id)
  {
    hide C.HeaderAccepted, C.ImagesAccepted, C.BoundsAccepted, C.PoliciesAccepted, C.PlanAccepted, C.KindsInOrder;
    hide C.CaseHeaderAccepted, C.StepAccepted, IsIdentifier, IsSha256, Distinct, Sum;
    var c := m.cases[i];
    TablesOf(c.kind);
    assert C.CaseAccepted(c, i);
    RequiredPresent(c);
    hide C.ManifestKinds, C.StepReferences, C.CoreRequiredEvidence;
    forall e | e in c.evidence
      ensures exists s :: s in c.steps && e.evidenceId in s.evidenceIds
    {
      EvidenceUsed(c, e);
    }
    forall s, id | s in c.steps && id in s.evidenceIds
      ensures exists e :: e in c.evidence && e.evidenceId == id
    {
      UsedIsEvidence(c, s, id);
    }
  }

  lemma RequiredPresent(c: ManifestCase)
    requires C.EvidenceListAccepted(c)
    ensures forall kind :: kind in C.CoreRequiredEvidence(c.kind) ==> exists e :: e in c.evidence && e.kind == kind
  {
    hide C.CoreRequiredEvidence, C.EvidenceAccepted;
    forall kind | kind in C.CoreRequiredEvidence(c.kind)
      ensures exists e :: e in c.evidence && e.kind == kind
    {
      assert kind in C.ManifestKinds(c.evidence);
    }
  }

  lemma EvidenceUsed(c: ManifestCase, e: ManifestEvidence)
    requires C.StepReferences(c.steps) == Elements(C.ManifestEvidenceIds(c.evidence)) && e in c.evidence
    ensures exists s :: s in c.steps && e.evidenceId in s.evidenceIds
  {
    var k :| 0 <= k < |c.evidence| && c.evidence[k] == e;
    assert C.ManifestEvidenceIds(c.evidence)[k] == e.evidenceId;
    assert e.evidenceId in C.StepReferences(c.steps);
  }

  lemma UsedIsEvidence(c: ManifestCase, s: Step, id: string)
    requires C.StepReferences(c.steps) == Elements(C.ManifestEvidenceIds(c.evidence))
    requires s in c.steps && id in s.evidenceIds
    ensures exists e :: e in c.evidence && e.evidenceId == id
  {
    var j :| 0 <= j < |c.steps| && c.steps[j] == s;
    assert id in c.steps[j].evidenceIds;
    assert id in C.StepReferences(c.steps);
    var k :| 0 <= k < |c.evidence| && C.ManifestEvidenceIds(c.evidence)[k] == id;
  }

  /** A step for each entry point, in order, all passed, and together no longer than the case. */
  lemma AcceptedSteps(m: Manifest, revision: string, release: Option<C.ReleaseImages>, entry: C.PlanEntry, i: nat)
    requires C.Accepted(m, revision, release, entry) && i < |m.cases|
    ensures var c := m.cases[i];
            && |c.steps| == |c.entryPoints|
            && (forall k :: 0 <= k < |c.steps| ==>
                  && c.steps[k].sequence == k + 1 && c.steps[k].operation == c.entryPoints[k]
                  && c.steps[k].status == Passed && 0 <= c.steps[k].duration <= 3_600_000
                  && |c.steps[k].evidenceIds| >= 1
                  && forall a, b :: 0 <= a < b < |c.steps[k].evidenceIds| ==>
                       c.steps[k].evidenceIds[a] != c.steps[k].evidenceIds[b])
            && Sum(seq(|c.steps|, k requires 0 <= k < |c.steps| => c.steps[k].duration)) <= c.duration
  {
    hide C.HeaderAccepted, C.ImagesAccepted, C.BoundsAccepted, C.PoliciesAccepted, C.PlanAccepted, C.KindsInOrder;
    hide C.CaseHeaderAccepted, C.EvidenceListAccepted, Sum;
    var c := m.cases[i];
    assert C.CaseAccepted(c, i);
    assert C.StepMilliseconds(c.steps) == seq(|c.steps|, k requires 0 <= k < |c.steps| => c.steps[k].duration);
  }

  /** No identity is used twice: not a case's, not an evidence's, not an artifact's, in the whole manifest. */
  lemma AcceptedIdentities(m: Manifest, revision: string, release: Option<C.ReleaseImages>, entry: C.PlanEntry)
    requires C.Accepted(m, revision, release, entry)
    ensures forall i, j :: 0 <= i < j < |m.cases| ==> m.cases[i].caseId != m.cases[j].caseId
    ensures forall i, k, j, l ::
              && 0 <= i < |m.cases| && 0 <= j < |m.cases|
              && 0 <= k < |m.cases[i].evidence| && 0 <= l < |m.cases[j].evidence| && (i < j || (i == j && k < l)) ==>
                && m.cases[i].evidence[k].evidenceId != m.cases[j].evidence[l].evidenceId
                && m.cases[i].evidence[k].artifact.artifactId != m.cases[j].evidence[l].artifact.artifactId
    ensures forall i, j, l :: 0 <= i < |m.cases| && 0 <= j < |m.cases| && 0 <= l < |m.cases[j].evidence| ==>
              m.cases[i].resultArtifact.artifactId != m.cases[j].evidence[l].artifact.artifactId
    ensures forall i, j :: 0 <= i < j < |m.cases| ==>
              m.cases[i].resultArtifact.artifactId != m.cases[j].resultArtifact.artifactId
  {
    hide C.HeaderAccepted, C.ImagesAccepted, C.BoundsAccepted, C.PoliciesAccepted, C.PlanAccepted, C.KindsInOrder;
    hide C.CaseAccepted, C.InputIds, Concat, C.AllIds, C.AllArtifactIds, Distinct;
    ListsOfCases(m.cases);
    TailDistinct(C.InputIds(m), C.AllArtifactIds(m.cases));
    CaseIdsApart(m.cases);
    var e, a := EvidenceLists(m.cases), ArtifactLists(m.cases);
    forall i, k, j, l |
      && 0 <= i < |m.cases| && 0 <= j < |m.cases|
      && 0 <= k < |m.cases[i].evidence| && 0 <= l < |m.cases[j].evidence| && (i < j || (i == j && k < l))
      ensures m.cases[i].evidence[k].evidenceId != m.cases[j].evidence[l].evidenceId
      ensures m.cases[i].evidence[k].artifact.artifactId != m.cases[j].evidence[l].artifact.artifactId
    {
      Apart(e, i, k, j, l);
      Apart(a, i, k + 1, j, l + 1);
    }
    forall i, j, l | 0 <= i < |m.cases| && 0 <= j < |m.cases| && 0 <= l < |m.cases[j].evidence|
      ensures m.cases[i].resultArtifact.artifactId != m.cases[j].evidence[l].artifact.artifactId
    {
      if i <= j {
        Apart(a, i, 0, j, l + 1);
      } else {
        Apart(a, j, l + 1, i, 0);
      }
    }
    forall i, j | 0 <= i < j < |m.cases|
      ensures m.cases[i].resultArtifact.artifactId != m.cases[j].resultArtifact.artifactId
    {
      Apart(a, i, 0, j, 0);
    }
  }

  lemma CaseIdsApart(cases: seq<ManifestCase>)
    requires Distinct(C.CaseIds(cases))
    ensures forall i, j :: 0 <= i < j < |cases| ==> cases[i].caseId != cases[j].caseId
  {
    forall i, j | 0 <= i < j < |cases|
      ensures cases[i].caseId != cases[j].caseId
    {
      assert C.CaseIds(cases)[i] != C.CaseIds(cases)[j];
    }
  }

  lemma TailDistinct(s: seq<string>, t: seq<string>)
    requires Distinct(s + t)
    ensures Distinct(t) && forall x :: x in s ==> x !in t
  {
    forall i, j | 0 <= i < j < |t|
      ensures t[i] != t[j]
    {
      assert (s + t)[|s| + i] != (s + t)[|s| + j];
    }
    forall x | x in s
      ensures x !in t
    {
      var i :| 0 <= i < |s| && s[i] == x;
      forall j | 0 <= j < |t|
        ensures t[j] != x
      {
        assert (s + t)[i] != (s + t)[|s| + j];
      }
    }
  }

  /** Nor is the plan's or a policy's artifact one of a case's. */
  lemma AcceptedInputsApart(
    m: Manifest, revision: string, release: Option<C.ReleaseImages>, entry: C.PlanEntry, id: string)
    requires C.Accepted(m, revision, release, entry)
    requires id == m.plan.artifactId || exists p :: p in m.policies && p.artifact.artifactId == id
    ensures forall c :: c in m.cases ==> c.resultArtifact.artifactId != id
    ensures forall c, e :: c in m.cases && e in c.evidence ==> e.artifact.artifactId != id
    ensures forall i, j :: 0 <= i < j < |m.policies| ==>
              m.policies[i].artifact.artifactId != m.policies[j].artifact.artifactId
    ensures forall i :: 0 <= i < |m.policies| ==> m.policies[i].artifact.artifactId != m.plan.artifactId
  {
    hide C.HeaderAccepted, C.ImagesAccepted, C.BoundsAccepted, C.PlanAccepted, C.KindsInOrder;
    hide C.CaseAccepted, Concat, C.AllIds, C.AllArtifactIds, C.PolicyAccepted;
    PolicyIdsApart(m);
    InputListed(m, id);
    hide Distinct, C.InputIds;
    TailDistinct(C.InputIds(m), C.AllArtifactIds(m.cases));
    ListsOfCases(m.cases);
    var a := ArtifactLists(m.cases);
    forall c | c in m.cases
      ensures c.resultArtifact.artifactId in C.AllArtifactIds(m.cases)
      ensures forall e :: e in c.evidence ==> e.artifact.artifactId in C.AllArtifactIds(m.cases)
    {
      var i :| 0 <= i < |m.cases| && m.cases[i] == c;
      Placed(a, i, 0);
      forall e | e in c.evidence
        ensures e.artifact.artifactId in C.AllArtifactIds(m.cases)
      {
        var k :| 0 <= k < |c.evidence| && c.evidence[k] == e;
        Placed(a, i, k + 1);
      }
    }
  }

  lemma InputListed(m: Manifest, id: string)
    requires id == m.plan.artifactId || exists p :: p in m.policies && p.artifact.artifactId == id
    ensures id in C.InputIds(m)
  {
    if id == m.plan.artifactId {
      assert C.InputIds(m)[0] == id;
    } else {
      var p :| p in m.policies && p.artifact.artifactId == id;
      var i :| 0 <= i < |m.policies| && m.policies[i] == p;
      assert C.InputIds(m)[i + 1] == id;
    }
  }

  lemma PolicyIdsApart(m: Manifest)
    requires Distinct(C.InputIds(m))
    ensures forall i, j :: 0 <= i < j < |m.policies| ==>
              m.policies[i].artifact.artifactId != m.policies[j].artifact.artifactId
    ensures forall i :: 0 <= i < |m.policies| ==> m.policies[i].artifact.artifactId != m.plan.artifactId
  {
    forall i, j | 0 <= i < j < |m.policies|
      ensures m.policies[i].artifact.artifactId != m.policies[j].artifact.artifactId
    {
      assert C.InputIds(m)[i + 1] != C.InputIds(m)[j + 1];
    }
    forall i | 0 <= i < |m.policies|
      ensures m.policies[i].artifact.artifactId != m.plan.artifactId
    {
      assert C.InputIds(m)[0] != C.InputIds(m)[i + 1];
    }
  }

  /** The totals are sums over the cases, and within four hours and ten million micro-units. */
  lemma AcceptedTotals(m: Manifest, revision: string, release: Option<C.ReleaseImages>, entry: C.PlanEntry)
    requires C.Accepted(m, revision, release, entry)
    ensures m.duration == Sum(seq(|m.cases|, i requires 0 <= i < |m.cases| => m.cases[i].duration))
    ensures m.cost.reported == Sum(seq(|m.cases|, i requires 0 <= i < |m.cases| => m.cases[i].cost.reported))
    ensures Sum(seq(|m.cases|, i requires 0 <= i < |m.cases| => m.cases[i].maximumDuration)) <= m.maximumDuration
    ensures Sum(seq(|m.cases|, i requires 0 <= i < |m.cases| => m.cases[i].cost.maximum)) <= m.cost.maximum
    ensures 0 <= m.duration <= m.maximumDuration <= 14_400_000 && m.cost.maximum <= 10_000_000
  {
    hide C.HeaderAccepted, C.ImagesAccepted, C.PoliciesAccepted, C.PlanAccepted, C.KindsInOrder, C.CasesAccepted;
    hide Sum;
    assert C.Durations(m.cases) == seq(|m.cases|, i requires 0 <= i < |m.cases| => m.cases[i].duration);
    assert C.ReportedCosts(m.cases) == seq(|m.cases|, i requires 0 <= i < |m.cases| => m.cases[i].cost.reported);
    assert C.MaximumDurations(m.cases) == seq(|m.cases|, i requires 0 <= i < |m.cases| => m.cases[i].maximumDuration);
    assert C.MaximumCosts(m.cases) == seq(|m.cases|, i requires 0 <= i < |m.cases| => m.cases[i].cost.maximum);
  }

  // ---- A valid specification and a valid result

  ghost predicate SoundBinding(b: Binding) {
    IsIdentifier(b.artifactId) && IsSha256(b.sha256)
  }

  lemma ValidSpec(spec: Spec)
    requires P.SpecValid(spec)
    ensures IsCanaryProject(spec.target.projectId) && spec.target.region == "us-central1"
    ensures spec.target.serviceName == "controlgraph-reference-target"
    ensures IsCloudRunName(spec.target.stableRevision) && IsCloudRunName(spec.target.candidateRevision)
    ensures spec.target.stableRevision != spec.target.candidateRevision
    ensures SoundBinding(spec.plan) && 0 <= spec.randomSeed <= 9_007_199_254_740_991
    ensures 1 <= |spec.policies| <= 8
    ensures forall i :: 0 <= i < |spec.policies| ==>
              && IsSchemaVersion(spec.policies[i].schemaVersion) && SoundBinding(spec.policies[i].artifact)
              && spec.policies[i].artifact.media == JsonMedia
    ensures 1 <= |spec.clock| <= 64
    ensures forall i, j :: 0 <= i < j < |spec.clock| ==>
              spec.clock[i].at <= spec.clock[j].at && spec.clock[i].name != spec.clock[j].name
    ensures 1 <= spec.maximumDuration <= 14_400_000 && 0 <= spec.maximumCost <= 10_000_000
  {
    hide P.CasesValid, P.ImagesValid, P.TopLevelIds, IsIdentifier, IsSha256, IsSchemaVersion, IsCloudRunName;
    hide IsCanaryProject;
    forall i, j | 0 <= i < j < |spec.clock|
      ensures spec.clock[i].name != spec.clock[j].name
    {
      assert P.TickNames(spec.clock)[i] != P.TickNames(spec.clock)[j];
    }
  }

  lemma ValidSpecImages(spec: Spec)
    requires P.SpecValid(spec)
    ensures |spec.images| == 5
    ensures forall i :: 0 <= i < 5 ==>
              && spec.images[i].component == [Controller, Advisor, Console, ReferenceStable, ReferenceCandidate][i]
              && spec.images[i].reference.name == ComponentName(spec.images[i].component)
              && spec.images[i].reference.project == spec.target.projectId
              && spec.images[i].reference.region == spec.target.region
              && IsSha256(spec.images[i].reference.digest)
    ensures forall i, j :: 0 <= i < j < 5 ==>
              spec.images[i].reference.digest != spec.images[j].reference.digest
  {
    hide P.CasesValid, P.PoliciesValid, P.TopLevelIds, P.ClockValid, P.TargetValid, IsSha256, IsCloudRunName;
    hide ComponentName, Distinct;
  }

  lemma ValidSpecCase(spec: Spec, i: nat)
    requires P.SpecValid(spec) && i < |spec.cases|
    ensures |spec.cases| == 8
    ensures var b := spec.cases[i];
            && b.sequence == i + 1 && b.kind == P.CASE_ORDER[i] && IsIdentifier(b.caseId)
            && 0 <= b.randomSeed <= 9_007_199_254_740_991
            && 1 <= |b.clockKeys| <= 32
            && (forall k, l :: 0 <= k < l < |b.clockKeys| ==> b.clockKeys[k] != b.clockKeys[l])
            && (forall key :: key in b.clockKeys ==> exists t :: t in spec.clock && t.name == key)
            && 1 <= b.maximumDuration <= 3_600_000 && 0 <= b.maximumCost <= 10_000_000
            && SoundBinding(b.result) && b.result.media == JsonMedia
    ensures forall k, l :: 0 <= k < l < |spec.cases| ==> spec.cases[k].caseId != spec.cases[l].caseId
    ensures Sum(P.CaseDurations(spec.cases)) <= spec.maximumDuration && Sum(P.CaseCosts(spec.cases)) <= spec.maximumCost
  {
    hide P.ImagesValid, P.PoliciesValid, P.TopLevelIds, P.ClockValid, P.TargetValid, IsSha256, IsIdentifier, Sum;
    hide P.CaseDurations, P.CaseCosts;
    var b := spec.cases[i];
    assert P.CaseBindingValid(b, Elements(P.TickNames(spec.clock)));
    forall key | key in b.clockKeys
      ensures exists t :: t in spec.clock && t.name == key
    {
      assert key in Elements(b.clockKeys);
      var k :| 0 <= k < |spec.clock| && P.TickNames(spec.clock)[k] == key;
    }
  }

  /** The times of a result agree: its duration is within a second of what its instants say. */
  lemma ValidResult(r: CaseResult)
    requires P.ResultValid(r)
    ensures IsIdentifier(r.observed) && 0 <= r.duration <= 3_600_000 && 0 <= r.cost <= 10_000_000
    ensures r.startedAt <= r.completedAt
    ensures 1_000 * (r.completedAt - r.startedAt) - 1_000 < r.duration < 1_000 * (r.completedAt - r.startedAt) + 1_000
    ensures 1 <= |r.steps| <= 32 && 1 <= |r.evidence| <= 32
    ensures forall i :: 0 <= i < |r.steps| ==>
              && r.steps[i].sequence == i + 1 && IsIdentifier(r.steps[i].operation)
              && 0 <= r.steps[i].duration <= 3_600_000 && 1 <= |r.steps[i].evidenceIds| <= 32
              && (r.status == Passed ==> r.steps[i].status == Passed)
    ensures Sum(P.StepDurations(r.steps)) <= r.duration
    ensures forall i :: 0 <= i < |r.evidence| ==>
              && IsIdentifier(r.evidence[i].evidenceId) && SoundBinding(r.evidence[i].artifact)
              && r.startedAt <= r.evidence[i].observedAt <= r.completedAt
    ensures forall i, j :: 0 <= i < j < |r.evidence| ==> r.evidence[i].evidenceId != r.evidence[j].evidenceId
    ensures forall i :: 0 <= i < |r.evidence| ==> r.evidence[i].evidenceId in P.Referenced(r.steps)
    ensures forall id :: id in P.Referenced(r.steps) ==> id in P.EvidenceIds(r.evidence)
  {
    hide IsIdentifier, IsSha256, Sum, P.StepDurations, P.Referenced;
    forall i, j | 0 <= i < j < |r.evidence|
      ensures r.evidence[i].evidenceId != r.evidence[j].evidenceId
    {
      assert P.EvidenceIds(r.evidence)[i] != P.EvidenceIds(r.evidence)[j];
    }
    forall i | 0 <= i < |r.evidence|
      ensures r.evidence[i].evidenceId in P.Referenced(r.steps)
    {
      assert P.EvidenceIds(r.evidence)[i] == r.evidence[i].evidenceId;
      assert r.evidence[i].evidenceId in Elements(P.EvidenceIds(r.evidence));
    }
  }

  /** A result is read from a file of one to 65,536 bytes with the bound digest, and must be valid. */
  lemma ReadResultMeans(b: CaseBinding, f: P.Files, r: CaseResult)
    ensures P.ReadResult(b, f) == Some(r)
       <==> 1 <= f.size(b.result) <= 65_536 && f.result(b.result) == Some(r) && P.ResultValid(r)
  {
    hide P.ResultValid;
  }

  /** Files other than results are read up to eight mebibytes. */
  lemma BoundEvidence(e: Evidence, b: CaseBinding, runInputs: string, f: P.Files)
    ensures P.EvidenceBound(e, b, runInputs, f)
       <==> e.runInputs == runInputs && 1 <= f.size(e.artifact) <= 8_388_608 && f.observes(b, e, runInputs)
  {
  }
}
