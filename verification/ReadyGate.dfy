/**
 The release bundle's gate: artifacts bound to files, claims bound to artifacts,
 kind-specific checks that run only where a payload is there, and why a bundle
 that comes out ready has skipped none of them.
 */
module ReadyGate {
  import opened Option
  import opened Lists
  import opened Sorting

  datatype Kind =
    | ContractSchemaIndex
    | TerraformPlan
    | ReleaseEvidenceManifest
    | ReleaseEvidenceVerification
    | CoreAcceptanceManifest
    | FaultAcceptanceManifest
    | SecurityAbuseManifest
    | PerformanceSummary
    | RequiredCheckResults
    | ArchitectureDocument
    | ArchitectureDiagram
    | QuickstartDocument
    | DemoAsset
    | NativeComparisonDocument
    | LimitationsDocument
    | DisclosureDocument
    | ReleaseReview
    | PreparedBundle
    | CleanRoomRehearsal

  datatype Stage = Prepared | Final
  datatype Location = Repository | Bundle
  datatype EntryStatus = Pending | Verified

  datatype Entry = Entry(
    id: string, kind: Kind, location: Location, path: string,
    sha256: Option<string>, status: EntryStatus, schema: Option<string>)

  /** An entry as the bundle lists it, with the size of its file once bound. */
  datatype Record = Record(entry: Entry, bytes: Option<nat>)

  datatype ClaimStatus = ClaimPending | Supported

  datatype Claim = Claim(
    id: string, category: string, statementValid: bool, sources: seq<string>, evidence: seq<string>,
    status: ClaimStatus)

  /** What the checks read of a JSON file. */
  datatype Payload = Payload(
    schema: Option<string>, formatVersion: bool, stage: Option<Stage>, pending: seq<string>,
    source: Option<Source>, artifacts: seq<Record>, claims: seq<Claim>, body: string)

  datatype TagStatus = TagPending | TagVerified

  datatype Source = Source(revision: string, tag: string, status: TagStatus, tagObject: Option<string>)

  datatype FileData = FileData(sha256: string, bytes: nat, tracked: bool, payload: Option<Payload>)

  /** The files, the Git checks of the source, and the kind-specific checks not modelled field by field. */
  datatype World = World(
    file: (Location, string) -> Option<FileData>,
    sourceValid: Source -> bool,
    idValid: string -> bool,
    shaValid: string -> bool,
    passes: (Kind, Payload, Context) -> bool)

  /** What a check may look at besides its own payload. */
  datatype Context = Context(
    stage: Stage, source: Source, entries: seq<Entry>, payloads: map<string, Payload>,
    records: seq<Record>, claims: seq<Claim>)

  const FINAL_ONLY: set<Kind> := {PreparedBundle, CleanRoomRehearsal}

  const BASE_REQUIRED: set<Kind> := {
    ContractSchemaIndex, TerraformPlan, ReleaseEvidenceManifest, ReleaseEvidenceVerification,
    CoreAcceptanceManifest, FaultAcceptanceManifest, SecurityAbuseManifest, PerformanceSummary,
    RequiredCheckResults, ArchitectureDocument, ArchitectureDiagram, QuickstartDocument, DemoAsset,
    NativeComparisonDocument, LimitationsDocument, DisclosureDocument, ReleaseReview}

  function Required(stage: Stage): set<Kind> {
    if stage == Final then BASE_REQUIRED + FINAL_ONLY else BASE_REQUIRED
  }

  /** The schema a JSON kind must declare. */
  function ExpectedSchema(kind: Kind): Option<string> {
    match kind
    case ContractSchemaIndex => Some("controlgraph.contract-schema-index/v1")
    case ReleaseEvidenceManifest => Some("controlgraph.release-evidence/v1")
    case ReleaseEvidenceVerification => Some("controlgraph.release-evidence-verification/v1")
    case CoreAcceptanceManifest => Some("controlgraph.core-acceptance-manifest/v1")
    case FaultAcceptanceManifest => Some("controlgraph.fault-acceptance-manifest/v1")
    case SecurityAbuseManifest => Some("controlgraph.security-abuse-manifest/v1")
    case PerformanceSummary => Some("controlgraph.measurement-summary/v1")
    case RequiredCheckResults => Some("controlgraph.required-check-results/v1")
    case ReleaseReview => Some("controlgraph.release-review/v1")
    case PreparedBundle => Some("controlgraph.frozen-bundle/v1")
    case CleanRoomRehearsal => Some("controlgraph.clean-room-rehearsal/v1")
    case _ => None
  }

  // ---- Artifacts

  predicate EntryValid(e: Entry, w: World) {
    && w.idValid(e.id)
    && (ExpectedSchema(e.kind).Some? ==> e.schema == ExpectedSchema(e.kind))
    && (e.status == Pending ==> e.sha256 == None)
    && (e.status == Verified ==> e.sha256.Some? && w.shaValid(e.sha256.value))
  }

  /** A verified entry's file is there, as bound, and is the JSON it declares to be. */
  predicate EntryBound(e: Entry, w: World) {
    e.status == Verified ==>
      var file := w.file(e.location, e.path);
      && file.Some?
      && (e.location == Repository ==> file.value.tracked)
      && Some(file.value.sha256) == e.sha256
      && (e.schema.Some? ==> file.value.payload.Some? && file.value.payload.value.schema == e.schema)
      && (e.schema == None && e.kind == TerraformPlan ==>
            file.value.payload.Some? && file.value.payload.value.formatVersion)
  }

  function RecordOf(e: Entry, w: World): Record {
    Record(e, if e.status == Pending || w.file(e.location, e.path) == None then None
              else Some(w.file(e.location, e.path).value.bytes))
  }

  /** A record holds the size of a verified entry's file, and of nothing else. */
  lemma RecordMeans(e: Entry, w: World)
    ensures RecordOf(e, w).entry == e
    ensures e.status == Verified && w.file(e.location, e.path).Some? ==>
              RecordOf(e, w).bytes == Some(w.file(e.location, e.path).value.bytes)
    ensures e.status == Pending ==> RecordOf(e, w).bytes == None
  {
  }

  /** The payload the later checks see: read only from verified entries that are JSON. */
  function PayloadOf(e: Entry, w: World): Option<Payload> {
    if e.status == Verified && (e.schema.Some? || e.kind == TerraformPlan) && w.file(e.location, e.path).Some?
    then w.file(e.location, e.path).value.payload
    else None
  }

  function Ids(entries: seq<Entry>): seq<string> {
    seq(|entries|, i requires 0 <= i < |entries| => entries[i].id)
  }

  function Records(entries: seq<Entry>, w: World): seq<Record> {
    seq(|entries|, i requires 0 <= i < |entries| => RecordOf(entries[i], w))
  }

  function CountKind(entries: seq<Entry>, kind: Kind): nat {
    if entries == [] then 0
    else CountKind(entries[..|entries| - 1], kind) + if entries[|entries| - 1].kind == kind then 1 else 0
  }

  predicate KindsAccepted(entries: seq<Entry>, stage: Stage) {
    && (forall k :: k in Required(stage) ==> CountKind(entries, k) >= 1)
    && (stage == Prepared ==> forall k :: k in FINAL_ONLY ==> CountKind(entries, k) == 0)
    && forall k :: k in Required(stage) && k != DemoAsset ==> CountKind(entries, k) == 1
  }

  predicate ArtifactsAccepted(entries: seq<Entry>, stage: Stage, w: World) {
    && entries != []
    && (forall i :: 0 <= i < |entries| ==> EntryValid(entries[i], w) && EntryBound(entries[i], w))
    && Distinct(Ids(entries))
    && KindsAccepted(entries, stage)
  }

  /** The payloads by artifact identity. */
  ghost predicate PayloadsOf(payloads: map<string, Payload>, entries: seq<Entry>, w: World) {
    && (forall i :: 0 <= i < |entries| ==>
          var p := PayloadOf(entries[i], w);
          (entries[i].id in payloads <==> p.Some?) && (p.Some? ==> payloads[entries[i].id] == p.value))
    && forall id :: id in payloads ==> id in Ids(entries)
  }

  /** The entries still to be delivered, by name, in the order listed. */
  function PendingArtifacts(entries: seq<Entry>): seq<string> {
    if entries == [] then []
    else
      var last := entries[|entries| - 1];
      PendingArtifacts(entries[..|entries| - 1]) + if last.status == Pending then ["ARTIFACT:" + last.id] else []
  }

  datatype Bound = Bound(records: seq<Record>, payloads: map<string, Payload>, pending: seq<string>)

  /** A schema is declared where the kind has one; a digest is there exactly on a verified entry. */
  lemma EntryValidMeans(e: Entry, w: World)
    ensures EntryValid(e, w)
       <==> && w.idValid(e.id)
            && (ExpectedSchema(e.kind) == None || e.schema == ExpectedSchema(e.kind))
            && match e.status
               case Pending => e.sha256 == None
               case Verified => e.sha256.Some? && w.shaValid(e.sha256.value)
  {
    assert e.status.Pending? || e.status.Verified?;
  }

  /** A verified entry stands on a file with its digest, tracked if it is the repository's, and of its schema. */
  lemma EntryBoundMeans(e: Entry, w: World)
    ensures EntryBound(e, w)
       <==> e.status == Verified ==>
              match w.file(e.location, e.path)
              case None => false
              case Some(file) =>
                && e.sha256 == Some(file.sha256)
                && (file.tracked || e.location == Bundle)
                && (e.schema.Some? ==> file.payload.Some? && file.payload.value.schema == e.schema)
                && (e.kind == TerraformPlan && e.schema == None ==>
                      file.payload.Some? && file.payload.value.formatVersion)
  {
    assert e.location.Repository? || e.location.Bundle?;
  }

  /** How often a kind must come: the demonstration asset at least once, the rest once, two only in a final bundle. */
  ghost predicate RightCount(entries: seq<Entry>, stage: Stage, k: Kind) {
    if k == DemoAsset then CountKind(entries, k) >= 1
    else CountKind(entries, k) == if stage == Prepared && (k == PreparedBundle || k == CleanRoomRehearsal) then 0 else 1
  }

  lemma KindsMean(entries: seq<Entry>, stage: Stage)
    ensures KindsAccepted(entries, stage) <==> forall k :: RightCount(entries, stage, k)
  {
    hide CountKind, Required;
    assert stage.Prepared? || stage.Final?;
    if KindsAccepted(entries, stage) {
      forall k
        ensures RightCount(entries, stage, k)
      {
        RequiredKind(k, stage);
      }
    }
    if forall k :: RightCount(entries, stage, k) {
      forall k
        ensures k in Required(stage) ==> CountKind(entries, k) >= 1 && (k != DemoAsset ==> CountKind(entries, k) == 1)
        ensures stage == Prepared && k in FINAL_ONLY ==> CountKind(entries, k) == 0
      {
        RequiredKind(k, stage);
        assert RightCount(entries, stage, k);
      }
    }
  }

  lemma RequiredKind(k: Kind, stage: Stage)
    ensures k in Required(stage) <==> stage == Final || k !in {PreparedBundle, CleanRoomRehearsal}
  {
    assert stage.Prepared? || stage.Final?;
  }

  method BindArtifacts(entries: seq<Entry>, stage: Stage, w: World) returns (r: Option<Bound>)
    ensures r.Some? <==> ArtifactsAccepted(entries, stage, w)
    ensures r.Some? ==>
              && r.value.records == Records(entries, w)
              && PayloadsOf(r.value.payloads, entries, w)
              && r.value.pending == PendingArtifacts(entries)
  {
    if entries == [] {
      return None;
    }
    hide EntryBound, EntryValid, PayloadOf, RecordOf, KindsAccepted, BoundSoFar;
    NoneYet(entries, w);
    var seen: set<string> := {};
    var b := Bound([], map[], []);
    for n := 0 to |entries|
      invariant BoundSoFar(entries, n, seen, b, w)
    {
      var e := entries[n];
      if e.id in seen {
        IdReused(entries, n, seen, b, w);
        return None;
      }
      if !EntryValid(e, w) || !EntryBound(e, w) {
        return None;
      }
      OneMoreBound(entries, n, seen, b, w);
      if PayloadOf(e, w).Some? {
        b := b.(payloads := b.payloads[e.id := PayloadOf(e, w).value]);
      }
      seen := seen + {e.id};
      b := b.(records := b.records + [RecordOf(e, w)]);
      if e.status == Pending {
        b := b.(pending := b.pending + ["ARTIFACT:" + e.id]);
      }
    }
    AllBound(entries, seen, b, w);
    if !KindsAccepted(entries, stage) {
      return None;
    }
    return Some(b);
  }

  /** The first `n` entries are accepted, and this is what they give. */
  ghost predicate BoundSoFar(entries: seq<Entry>, n: nat, seen: set<string>, b: Bound, w: World)
    requires n <= |entries|
  {
    && (forall i :: 0 <= i < n ==> EntryValid(entries[i], w) && EntryBound(entries[i], w))
    && Distinct(Ids(entries[..n])) && seen == Elements(Ids(entries[..n]))
    && b.records == Records(entries[..n], w)
    && PayloadsOf(b.payloads, entries[..n], w)
    && b.pending == PendingArtifacts(entries[..n])
  }

  lemma NoneYet(entries: seq<Entry>, w: World)
    ensures BoundSoFar(entries, 0, {}, Bound([], map[], []), w)
  {
  }

  lemma OneMoreBound(entries: seq<Entry>, n: nat, seen: set<string>, b: Bound, w: World)
    requires n < |entries| && BoundSoFar(entries, n, seen, b, w)
    requires EntryValid(entries[n], w) && EntryBound(entries[n], w) && entries[n].id !in seen
    ensures var e := entries[n];
            BoundSoFar(
              entries, n + 1, seen + {e.id},
              Bound(
                b.records + [RecordOf(e, w)],
                if PayloadOf(e, w).Some? then b.payloads[e.id := PayloadOf(e, w).value] else b.payloads,
                if e.status == Pending then b.pending + ["ARTIFACT:" + e.id] else b.pending),
              w)
  {
    hide EntryValid, EntryBound, Distinct, Ids, Elements, Records, RecordOf, PayloadOf, PayloadsOf, PendingArtifacts;
    IdsSnoc(entries, n);
    DistinctSnoc(Ids(entries[..n]), entries[n].id);
    PayloadsSnoc(b.payloads, entries, n, w);
    PendingSnoc(entries, n, w);
  }

  lemma AllBound(entries: seq<Entry>, seen: set<string>, b: Bound, w: World)
    requires BoundSoFar(entries, |entries|, seen, b, w)
    ensures (forall i :: 0 <= i < |entries| ==> EntryValid(entries[i], w) && EntryBound(entries[i], w))
    ensures Distinct(Ids(entries)) && b.records == Records(entries, w)
    ensures PayloadsOf(b.payloads, entries, w) && b.pending == PendingArtifacts(entries)
  {
    hide EntryValid, EntryBound, Distinct, Ids, Elements, Records, PayloadsOf, PendingArtifacts;
    assert entries[..|entries|] == entries;
  }

  lemma IdsSnoc(entries: seq<Entry>, n: nat)
    requires n < |entries|
    ensures Ids(entries[..n + 1]) == Ids(entries[..n]) + [entries[n].id]
    ensures Elements(Ids(entries[..n + 1])) == Elements(Ids(entries[..n])) + {entries[n].id}
    ensures entries[n].id in Elements(Ids(entries[..n])) <==> entries[n].id in Ids(entries[..n])
  {
    assert Ids(entries[..n + 1]) == Ids(entries[..n]) + [entries[n].id];
  }

  lemma PendingSnoc(entries: seq<Entry>, n: nat, w: World)
    requires n < |entries|
    ensures PendingArtifacts(entries[..n + 1])
         == PendingArtifacts(entries[..n]) + if entries[n].status == Pending then ["ARTIFACT:" + entries[n].id] else []
    ensures Records(entries[..n + 1], w) == Records(entries[..n], w) + [RecordOf(entries[n], w)]
  {
    assert entries[..n + 1][..n] == entries[..n];
  }

  lemma IdReused(entries: seq<Entry>, n: nat, seen: set<string>, b: Bound, w: World)
    requires n < |entries| && BoundSoFar(entries, n, seen, b, w) && entries[n].id in seen
    ensures !Distinct(Ids(entries))
  {
    hide EntryValid, EntryBound, Records, PayloadsOf, PendingArtifacts;
    var i :| 0 <= i < n && Ids(entries[..n])[i] == entries[n].id;
    assert Ids(entries)[i] == Ids(entries)[n];
  }

  lemma PayloadsSnoc(payloads: map<string, Payload>, entries: seq<Entry>, n: nat, w: World)
    requires n < |entries| && PayloadsOf(payloads, entries[..n], w) && Distinct(Ids(entries[..n + 1]))
    ensures PayloadsOf(
              if PayloadOf(entries[n], w).Some? then payloads[entries[n].id := PayloadOf(entries[n], w).value]
              else payloads,
              entries[..n + 1], w)
  {
    var ids := Ids(entries[..n + 1]);
    assert ids == Ids(entries[..n]) + [entries[n].id];
    forall i | 0 <= i < n
      ensures entries[i].id != entries[n].id && entries[..n][i] == entries[i]
    {
      assert ids[i] != ids[n];
    }
  }

  // ---- Claims

  const CLAIM_CATEGORIES: set<string> := {
    "architecture", "security", "determinism", "latency", "reliability", "cost", "comparison", "demo"}

  /** An identity names an artifact of this status, and for sources one of the repository. */
  ghost predicate Names(entries: seq<Entry>, id: string, status: EntryStatus) {
    exists i :: 0 <= i < |entries| && entries[i].id == id && entries[i].status == status
  }

  predicate ClaimValid(c: Claim, entries: seq<Entry>, w: World) {
    && w.idValid(c.id) && c.category in CLAIM_CATEGORIES && c.statementValid
    && c.sources != [] && Distinct(c.sources)
    && (forall s :: s in c.sources ==>
          exists i :: && 0 <= i < |entries| && entries[i].id == s
                      && entries[i].location == Repository && entries[i].status == Verified)
    && c.evidence != [] && Distinct(c.evidence)
    && (forall s :: s in c.evidence ==> exists i :: 0 <= i < |entries| && entries[i].id == s)
    && (c.status == Supported ==>
          forall s :: s in c.evidence ==>
            exists i :: 0 <= i < |entries| && entries[i].id == s && entries[i].status == Verified)
  }

  function ClaimIds(claims: seq<Claim>): seq<string> {
    seq(|claims|, i requires 0 <= i < |claims| => claims[i].id)
  }

  function Categories(claims: seq<Claim>): set<string> {
    set i | 0 <= i < |claims| :: claims[i].category
  }

  predicate ClaimsAccepted(claims: seq<Claim>, entries: seq<Entry>, w: World) {
    && claims != []
    && (forall i :: 0 <= i < |claims| ==> ClaimValid(claims[i], entries, w))
    && Distinct(ClaimIds(claims))
    && Categories(claims) == CLAIM_CATEGORIES
  }

  function PendingClaims(claims: seq<Claim>): seq<string> {
    if claims == [] then []
    else
      var last := claims[|claims| - 1];
      PendingClaims(claims[..|claims| - 1]) + if last.status == ClaimPending then ["CLAIM:" + last.id] else []
  }

  /** A claim has verified sources in the repository, and evidence that is verified once it is supported. */
  lemma ClaimMeans(c: Claim, entries: seq<Entry>, w: World)
    ensures ClaimValid(c, entries, w)
       <==> && w.idValid(c.id) && c.statementValid
            && c.category in {
                 "architecture", "security", "determinism", "latency", "reliability", "cost", "comparison", "demo"}
            && |c.sources| > 0 && (forall i, j :: 0 <= i < j < |c.sources| ==> c.sources[i] != c.sources[j])
            && (forall s :: s in c.sources ==>
                  exists e :: e in entries && e.id == s && e.location == Repository && e.status == Verified)
            && |c.evidence| > 0 && (forall i, j :: 0 <= i < j < |c.evidence| ==> c.evidence[i] != c.evidence[j])
            && (forall s :: s in c.evidence ==> s in Ids(entries))
            && (c.status != ClaimPending ==> forall s :: s in c.evidence ==> Names(entries, s, Verified))
  {
    assert c.status.ClaimPending? || c.status.Supported?;
    forall s
      ensures (exists e :: e in entries && e.id == s && e.location == Repository && e.status == Verified)
         <==> exists i :: && 0 <= i < |entries| && entries[i].id == s
                          && entries[i].location == Repository && entries[i].status == Verified
      ensures s in Ids(entries) <==> exists i :: 0 <= i < |entries| && entries[i].id == s
    {
      SourceNamed(entries, s);
      IdNamed(entries, s);
    }
  }

  lemma SourceNamed(entries: seq<Entry>, s: string)
    ensures (exists e :: e in entries && e.id == s && e.location == Repository && e.status == Verified)
       <==> exists i :: && 0 <= i < |entries| && entries[i].id == s
                        && entries[i].location == Repository && entries[i].status == Verified
  {
    if e :| e in entries && e.id == s && e.location == Repository && e.status == Verified {
      var i :| 0 <= i < |entries| && entries[i] == e;
    }
  }

  lemma IdNamed(entries: seq<Entry>, s: string)
    ensures s in Ids(entries) <==> exists i :: 0 <= i < |entries| && entries[i].id == s
  {
    if i :| 0 <= i < |entries| && entries[i].id == s {
      assert Ids(entries)[i] == s;
    }
  }

  /** Identities are used once, and the categories of the claims are these eight. */
  lemma ClaimsMean(claims: seq<Claim>, entries: seq<Entry>, w: World)
    requires ClaimsAccepted(claims, entries, w)
    ensures forall i, j :: 0 <= i < j < |claims| ==> claims[i].id != claims[j].id
    ensures Categories(claims) == {
              "architecture", "security", "determinism", "latency", "reliability", "cost", "comparison", "demo"}
  {
    hide ClaimValid, Categories;
    forall i, j | 0 <= i < j < |claims|
      ensures claims[i].id != claims[j].id
    {
      assert ClaimIds(claims)[i] != ClaimIds(claims)[j];
    }
  }

  lemma CategoryListed(claims: seq<Claim>, category: string)
    ensures category in Categories(claims) <==> exists c :: c in claims && c.category == category
  {
    if c :| c in claims && c.category == category {
      var i :| 0 <= i < |claims| && claims[i] == c;
    }
  }

  lemma NoClaimsYet(claims: seq<Claim>)
    ensures PendingClaims(claims[..0]) == [] && Categories(claims[..0]) == {}
  {
  }

  lemma PendingClaimsSnoc(claims: seq<Claim>, n: nat)
    requires n < |claims|
    ensures PendingClaims(claims[..n + 1])
         == PendingClaims(claims[..n]) + if claims[n].status == ClaimPending then ["CLAIM:" + claims[n].id] else []
  {
    assert claims[..n + 1][..n] == claims[..n];
  }

  method ValidateClaims(claims: seq<Claim>, entries: seq<Entry>, w: World) returns (ok: bool, pending: seq<string>)
    ensures ok <==> ClaimsAccepted(claims, entries, w)
    ensures ok ==> pending == PendingClaims(claims)
  {
    ok, pending := false, [];
    if claims == [] {
      return;
    }
    hide ClaimValid, Categories, PendingClaims;
    NoClaimsYet(claims);
    var identifiers: set<string> := {};
    var categories: set<string> := {};
    for n := 0 to |claims|
      invariant !ok
      invariant forall i :: 0 <= i < n ==> ClaimValid(claims[i], entries, w)
      invariant Distinct(ClaimIds(claims[..n])) && identifiers == Elements(ClaimIds(claims[..n]))
      invariant categories == Categories(claims[..n])
      invariant pending == PendingClaims(claims[..n])
    {
      var c := claims[n];
      assert ClaimIds(claims[..n + 1]) == ClaimIds(claims[..n]) + [c.id];
      DistinctSnoc(ClaimIds(claims[..n]), c.id);
      CategoriesSnoc(claims, n);
      if c.id in identifiers {
        ClaimReused(claims, n);
        return;
      }
      if !ClaimValid(c, entries, w) {
        return;
      }
      identifiers := identifiers + {c.id};
      categories := categories + {c.category};
      PendingClaimsSnoc(claims, n);
      if c.status == ClaimPending {
        pending := pending + ["CLAIM:" + c.id];
      }
    }
    assert claims[..|claims|] == claims;
    ok := categories == CLAIM_CATEGORIES;
  }

  lemma ClaimReused(claims: seq<Claim>, n: nat)
    requires n < |claims| && claims[n].id in ClaimIds(claims[..n])
    ensures !Distinct(ClaimIds(claims))
  {
    var i :| 0 <= i < n && ClaimIds(claims[..n])[i] == claims[n].id;
    assert ClaimIds(claims)[i] == ClaimIds(claims)[n];
  }

  lemma CategoriesSnoc(claims: seq<Claim>, n: nat)
    requires n < |claims|
    ensures Categories(claims[..n + 1]) == Categories(claims[..n]) + {claims[n].category}
  {
    forall c
      ensures c in Categories(claims[..n + 1]) <==> c in Categories(claims[..n]) || c == claims[n].category
    {
      if c in Categories(claims[..n]) {
        var i :| 0 <= i < n && claims[..n][i].category == c;
        assert claims[..n + 1][i].category == c;
      }
      if c == claims[n].category {
        assert claims[..n + 1][n].category == c;
      }
      if c in Categories(claims[..n + 1]) {
        var i :| 0 <= i < n + 1 && claims[..n + 1][i].category == c;
        assert i < n ==> claims[..n][i].category == c;
      }
    }
  }

  // ---- Kind-specific checks

  /** The payloads of a kind, in the order of the artifacts. */
  function ByKind(ctx: Context, kind: Kind): seq<Payload> {
    ByKindUpTo(ctx, kind, |ctx.entries|)
  }

  function ByKindUpTo(ctx: Context, kind: Kind, n: nat): seq<Payload>
    requires n <= |ctx.entries|
  {
    if n == 0 then []
    else
      var e := ctx.entries[n - 1];
      ByKindUpTo(ctx, kind, n - 1) +
      if e.kind == kind && e.id in ctx.payloads then [ctx.payloads[e.id]] else []
  }

  /** A kind's payloads are those of its artifacts that have one. */
  lemma {:induction false} ByKindHolds(ctx: Context, kind: Kind, n: nat, p: Payload)
    requires n <= |ctx.entries|
    ensures p in ByKindUpTo(ctx, kind, n)
       <==> exists i :: && 0 <= i < n && ctx.entries[i].kind == kind
                        && ctx.entries[i].id in ctx.payloads && ctx.payloads[ctx.entries[i].id] == p
  {
    if n > 0 {
      ByKindHolds(ctx, kind, n - 1, p);
    }
  }

  /** Kinds whose every payload is checked by itself. */
  const CHECKED_ALONE: seq<Kind> := [
    ContractSchemaIndex, CoreAcceptanceManifest, SecurityAbuseManifest, PerformanceSummary,
    RequiredCheckResults, ReleaseReview, CleanRoomRehearsal]

  function RecordId(r: Record): string {
    r.entry.id
  }

  function ClaimId(c: Claim): string {
    c.id
  }

  function WithoutFinalOnly(records: seq<Record>): seq<Record> {
    if records == [] then []
    else
      var last := records[|records| - 1];
      WithoutFinalOnly(records[..|records| - 1]) + if last.entry.kind in FINAL_ONLY then [] else [last]
  }

  /** What is left of the records is all but the two kinds only a final bundle has. */
  lemma {:induction false} WithoutFinalOnlyHolds(records: seq<Record>, r: Record)
    ensures r in WithoutFinalOnly(records)
       <==> r in records && r.entry.kind != PreparedBundle && r.entry.kind != CleanRoomRehearsal
    ensures |WithoutFinalOnly(records)| <= |records|
  {
    if records != [] {
      var n := |records| - 1;
      WithoutFinalOnlyHolds(records[..n], r);
      assert records == records[..n] + [records[n]];
    }
  }

  /** The prepared bundle inside a final one: this source, these artifacts but the two, these claims. */
  predicate PreparedAccepted(p: Payload, ctx: Context) {
    && p.stage == Some(Prepared) && p.pending == ["CLEAN_ROOM_REHEARSAL"]
    && p.source == Some(ctx.source.(status := TagVerified))
    && p.artifacts == Sort(WithoutFinalOnly(ctx.records), RecordId)
    && p.claims == Sort(ctx.claims, ClaimId)
  }

  predicate ReleasePasses(ctx: Context, w: World) {
    ByKind(ctx, ReleaseEvidenceManifest) != [] && ByKind(ctx, ReleaseEvidenceVerification) != [] ==>
      w.passes(ReleaseEvidenceManifest, ByKind(ctx, ReleaseEvidenceManifest)[0], ctx)
  }

  predicate EachPasses(ctx: Context, kind: Kind, w: World) {
    forall i :: 0 <= i < |ByKind(ctx, kind)| ==> w.passes(kind, ByKind(ctx, kind)[i], ctx)
  }

  predicate FaultPasses(ctx: Context, w: World) {
    ByKind(ctx, CoreAcceptanceManifest) != [] && ByKind(ctx, FaultAcceptanceManifest) != [] ==>
      w.passes(FaultAcceptanceManifest, ByKind(ctx, FaultAcceptanceManifest)[0], ctx)
  }

  predicate PreparedPasses(ctx: Context) {
    ctx.stage == Final && ByKind(ctx, PreparedBundle) != [] && ByKind(ctx, CleanRoomRehearsal) != [] ==>
      PreparedAccepted(ByKind(ctx, PreparedBundle)[0], ctx)
  }

  /** All the checks, each run only where its payloads are there. */
  predicate ChecksPass(ctx: Context, w: World) {
    && ReleasePasses(ctx, w)
    && (forall n :: 0 <= n < |CHECKED_ALONE| ==> EachPasses(ctx, CHECKED_ALONE[n], w))
    && FaultPasses(ctx, w)
    && PreparedPasses(ctx)
  }

  /** The checks, kind by kind. */
  lemma ChecksMean(ctx: Context, w: World)
    ensures ChecksPass(ctx, w)
       <==> && (ByKind(ctx, ReleaseEvidenceManifest) != [] && ByKind(ctx, ReleaseEvidenceVerification) != [] ==>
                  w.passes(ReleaseEvidenceManifest, ByKind(ctx, ReleaseEvidenceManifest)[0], ctx))
            && (forall k ::
                  k in {ContractSchemaIndex, CoreAcceptanceManifest, SecurityAbuseManifest, PerformanceSummary,
                        RequiredCheckResults, ReleaseReview, CleanRoomRehearsal} ==>
                  forall p :: p in ByKind(ctx, k) ==> w.passes(k, p, ctx))
            && (ByKind(ctx, CoreAcceptanceManifest) != [] && ByKind(ctx, FaultAcceptanceManifest) != [] ==>
                  w.passes(FaultAcceptanceManifest, ByKind(ctx, FaultAcceptanceManifest)[0], ctx))
            && (ctx.stage == Final
                && ByKind(ctx, PreparedBundle) != [] && ByKind(ctx, CleanRoomRehearsal) != [] ==>
                  PreparedAccepted(ByKind(ctx, PreparedBundle)[0], ctx))
  {
    hide ByKind, PreparedAccepted;
    forall k
      ensures k in CHECKED_ALONE
         <==> k in {ContractSchemaIndex, CoreAcceptanceManifest, SecurityAbuseManifest, PerformanceSummary,
                    RequiredCheckResults, ReleaseReview, CleanRoomRehearsal}
      ensures EachPasses(ctx, k, w) <==> forall p :: p in ByKind(ctx, k) ==> w.passes(k, p, ctx)
    {
      EachMeans(ctx, k, w);
    }
    hide EachPasses;
    assert (forall n :: 0 <= n < |CHECKED_ALONE| ==> EachPasses(ctx, CHECKED_ALONE[n], w))
      <==> forall k :: k in CHECKED_ALONE ==> EachPasses(ctx, k, w);
  }

  lemma EachMeans(ctx: Context, k: Kind, w: World)
    ensures EachPasses(ctx, k, w) <==> forall p :: p in ByKind(ctx, k) ==> w.passes(k, p, ctx)
  {
    hide ByKind;
    if EachPasses(ctx, k, w) {
      forall p | p in ByKind(ctx, k)
        ensures w.passes(k, p, ctx)
      {
        var i :| 0 <= i < |ByKind(ctx, k)| && ByKind(ctx, k)[i] == p;
      }
    }
  }

  method CheckEach(ctx: Context, kind: Kind, w: World) returns (ok: bool)
    ensures ok <==> EachPasses(ctx, kind, w)
  {
    var payloads := ByKind(ctx, kind);
    for i := 0 to |payloads|
      invariant forall j :: 0 <= j < i ==> w.passes(kind, payloads[j], ctx)
    {
      if !w.passes(kind, payloads[i], ctx) {
        return false;
      }
    }
    return true;
  }

  method ValidateKnownPayloads(ctx: Context, w: World) returns (ok: bool)
    ensures ok <==> ChecksPass(ctx, w)
  {
    if !ReleasePasses(ctx, w) {
      return false;
    }
    for n := 0 to |CHECKED_ALONE|
      invariant forall m :: 0 <= m < n ==> EachPasses(ctx, CHECKED_ALONE[m], w)
    {
      var each := CheckEach(ctx, CHECKED_ALONE[n], w);
      if !each {
        return false;
      }
    }
    return FaultPasses(ctx, w) && PreparedPasses(ctx);
  }

  // ---- The bundle

  datatype Spec = Spec(stage: Stage, source: Source, entries: seq<Entry>, claims: seq<Claim>)

  datatype Result = Result(ready: bool, artifacts: seq<Record>, claims: seq<Claim>, pending: seq<string>)

  function Itself(s: string): string {
    s
  }

  /** Everything still open: the tag, artifacts, claims and, before the final stage, the rehearsal. */
  function AllPending(spec: Spec): seq<string> {
    (if spec.source.status == TagPending then ["SOURCE_TAG"] else [])
    + PendingArtifacts(spec.entries) + PendingClaims(spec.claims)
    + (if spec.stage == Prepared then ["CLEAN_ROOM_REHEARSAL"] else [])
  }

  ghost predicate ContextOf(ctx: Context, spec: Spec, w: World) {
    && ctx.stage == spec.stage && ctx.source == spec.source
    && ctx.entries == spec.entries && ctx.claims == spec.claims
    && ctx.records == Records(spec.entries, w)
    && PayloadsOf(ctx.payloads, spec.entries, w)
  }

  /** What a bundle must be, with the payloads its verified entries give. */
  ghost predicate Verifies(spec: Spec, ctx: Context, w: World) {
    && ContextOf(ctx, spec, w)
    && w.sourceValid(spec.source)
    && ArtifactsAccepted(spec.entries, spec.stage, w)
    && ClaimsAccepted(spec.claims, spec.entries, w)
    && ChecksPass(ctx, w)
    && (spec.stage == Final ==> NothingPending(spec))
  }

  /** The files fix what the checks see: a bundle has one context only. */
  lemma ContextFixed(c: Context, d: Context, spec: Spec, w: World)
    requires ContextOf(c, spec, w) && ContextOf(d, spec, w)
    ensures c == d
  {
    forall id
      ensures id in c.payloads <==> id in d.payloads
      ensures id in c.payloads ==> c.payloads[id] == d.payloads[id]
    {
      if id in c.payloads || id in d.payloads {
        var i :| 0 <= i < |spec.entries| && Ids(spec.entries)[i] == id;
        assert spec.entries[i].id == id;
      }
    }
    assert c.payloads == d.payloads;
  }

  lemma OneContext(spec: Spec, ctx: Context, w: World)
    requires ContextOf(ctx, spec, w)
    ensures (exists c :: Verifies(spec, c, w)) <==> Verifies(spec, ctx, w)
  {
    if c :| Verifies(spec, c, w) {
      ContextFixed(c, ctx, spec, w);
    }
  }

  method VerifyBundle(spec: Spec, w: World) returns (r: Option<Result>, ghost ctx: Context)
    ensures r.Some? <==> exists c :: Verifies(spec, c, w)
    ensures r.Some? ==> Verifies(spec, ctx, w)
    ensures r.Some? ==>
              && (r.value.ready <==> spec.stage == Final)
              && r.value.artifacts == Sort(Records(spec.entries, w), RecordId)
              && r.value.claims == Sort(spec.claims, ClaimId)
              && r.value.pending == Sort(AllPending(spec), Itself)
              && (r.value.ready <==> r.value.pending == [])
    ensures forall e :: e in spec.entries && e.status == Verified && w.file(e.location, e.path) == None ==> r == None
    ensures forall e, f :: e in spec.entries && e.status == Verified && w.file(e.location, e.path) == Some(f) ==>
              && (e.sha256 != Some(f.sha256) ==> r == None)
              && (e.location == Repository && !f.tracked ==> r == None)
              && (e.schema.Some? && (f.payload == None || f.payload.value.schema != e.schema) ==> r == None)
              && (e.kind == TerraformPlan && e.schema == None && (f.payload == None || !f.payload.value.formatVersion)
                  ==> r == None)
    ensures (exists e :: e in spec.entries && e.status == Pending) && spec.stage == Final ==> r == None
    ensures (exists k :: !RightCount(spec.entries, spec.stage, k)) ==> r == None
    ensures r.Some? ==> forall e :: e in spec.entries && e.status == Verified && e.schema.Some? ==>
              e.id in ctx.payloads && Some(ctx.payloads[e.id]) == w.file(e.location, e.path).value.payload
  {
    if sound :| Verifies(spec, sound, w) {
      VerifiedFiles(spec, sound, w);
    }
    ctx := Context(spec.stage, spec.source, spec.entries, map[], [], spec.claims);
    if !w.sourceValid(spec.source) {
      return None, ctx;
    }
    var pending := if spec.source.status == TagPending then ["SOURCE_TAG"] else [];
    var bound := BindArtifacts(spec.entries, spec.stage, w);
    if bound == None {
      return None, ctx;
    }
    var claims, claimsPending := ValidateClaims(spec.claims, spec.entries, w);
    if !claims {
      return None, ctx;
    }
    var context := Context(
      spec.stage, spec.source, spec.entries, bound.value.payloads, bound.value.records, spec.claims);
    ctx := context;
    OneContext(spec, ctx, w);
    var checked := ValidateKnownPayloads(context, w);
    if !checked {
      return None, ctx;
    }
    pending := pending + bound.value.pending + claimsPending;
    NothingPendingListed(spec);
    if spec.stage == Prepared {
      pending := pending + ["CLEAN_ROOM_REHEARSAL"];
    } else if pending != [] {
      return None, ctx;
    }
    assert pending == AllPending(spec);
    SortHolds(pending, Itself);
    SameSize(Sort(pending, Itself), pending);
    r := Some(Result(
      spec.stage == Final, Sort(bound.value.records, RecordId), Sort(spec.claims, ClaimId), Sort(pending, Itself)));
  }

  /** Every verified artifact of an accepted bundle stands on its file, and its payload is the file's. */
  lemma VerifiedFiles(spec: Spec, ctx: Context, w: World)
    requires Verifies(spec, ctx, w)
    ensures forall e :: e in spec.entries && e.status == Verified ==>
              var file := w.file(e.location, e.path);
              && file.Some? && e.sha256 == Some(file.value.sha256)
              && (e.location == Repository ==> file.value.tracked)
              && (e.schema.Some? ==>
                    && file.value.payload.Some? && file.value.payload.value.schema == e.schema
                    && e.id in ctx.payloads && ctx.payloads[e.id] == file.value.payload.value)
              && (e.kind == TerraformPlan && e.schema == None ==>
                    file.value.payload.Some? && file.value.payload.value.formatVersion)
    ensures spec.stage == Final ==> forall e :: e in spec.entries ==> e.status == Verified
    ensures forall k :: RightCount(spec.entries, spec.stage, k)
  {
    hide ClaimsAccepted, ChecksPass, KindsAccepted, RightCount, EntryValid;
    forall e | e in spec.entries && e.status == Verified
      ensures EntryBound(e, w)
      ensures e.schema.Some? ==>
                && w.file(e.location, e.path).value.payload.Some? && e.id in ctx.payloads
                && ctx.payloads[e.id] == w.file(e.location, e.path).value.payload.value
    {
      var i :| 0 <= i < |spec.entries| && spec.entries[i] == e;
      assert EntryBound(spec.entries[i], w);
      EntryBoundMeans(e, w);
    }
    KindsMean(spec.entries, spec.stage);
  }

  lemma SameSize<T>(s: seq<T>, t: seq<T>)
    requires multiset(s) == multiset(t)
    ensures |s| == |t|
  {
    assert |multiset(s)| == |s| && |multiset(t)| == |t|;
  }

  lemma {:induction false} ArtifactsSettled(entries: seq<Entry>)
    ensures PendingArtifacts(entries) == [] <==> forall i :: 0 <= i < |entries| ==> entries[i].status == Verified
  {
    if entries != [] {
      ArtifactsSettled(entries[..|entries| - 1]);
    }
  }

  lemma {:induction false} ClaimsSettled(claims: seq<Claim>)
    ensures PendingClaims(claims) == [] <==> forall i :: 0 <= i < |claims| ==> claims[i].status == Supported
  {
    if claims != [] {
      ClaimsSettled(claims[..|claims| - 1]);
    }
  }

  /** A final bundle lists nothing pending exactly when nothing is. */
  lemma NothingPendingListed(spec: Spec)
    ensures AllPending(spec) == [] <==> spec.stage == Final && NothingPending(spec)
  {
    ArtifactsSettled(spec.entries);
    ClaimsSettled(spec.claims);
  }

  /** The tag, every artifact and every claim are settled. */
  predicate NothingPending(spec: Spec) {
    && spec.source.status == TagVerified
    && (forall i :: 0 <= i < |spec.entries| ==> spec.entries[i].status == Verified)
    && forall i :: 0 <= i < |spec.claims| ==> spec.claims[i].status == Supported
  }

  // ---- A ready bundle skipped no check

  /** Kinds with a check of their own. */
  const CHECKED: set<Kind> := {
    ReleaseEvidenceManifest, ContractSchemaIndex, CoreAcceptanceManifest, FaultAcceptanceManifest,
    SecurityAbuseManifest, PerformanceSummary, RequiredCheckResults, ReleaseReview, CleanRoomRehearsal}

  lemma {:induction false} ByKindCounts(ctx: Context, spec: Spec, w: World, kind: Kind, n: nat)
    requires ContextOf(ctx, spec, w) && n <= |spec.entries|
    requires forall i :: 0 <= i < n && spec.entries[i].kind == kind ==> PayloadOf(spec.entries[i], w).Some?
    ensures |ByKindUpTo(ctx, kind, n)| == CountKind(spec.entries[..n], kind)
  {
    if n > 0 {
      ByKindCounts(ctx, spec, w, kind, n - 1);
      assert spec.entries[..n][..n - 1] == spec.entries[..n - 1];
    }
  }

  /** In a final bundle every JSON artifact's payload was read. */
  lemma PayloadRead(e: Entry, w: World)
    requires EntryBound(e, w) && e.status == Verified
    requires e.schema.Some?
    ensures PayloadOf(e, w).Some?
  {
  }

  /** Exactly one payload of every kind that has a schema of its own. */
  lemma OnePayload(ctx: Context, spec: Spec, w: World, kind: Kind)
    requires ContextOf(ctx, spec, w) && ArtifactsAccepted(spec.entries, Final, w) && spec.stage == Final
    requires NothingPending(spec) && ExpectedSchema(kind).Some?
    ensures |ByKind(ctx, kind)| == 1
  {
    hide ByKindUpTo, CountKind, KindsAccepted, PayloadsOf, Records, Required, Ids;
    forall i | 0 <= i < |spec.entries| && spec.entries[i].kind == kind
      ensures PayloadOf(spec.entries[i], w).Some?
    {
      assert EntryValid(spec.entries[i], w) && EntryBound(spec.entries[i], w);
      PayloadRead(spec.entries[i], w);
    }
    ByKindCounts(ctx, spec, w, kind, |spec.entries|);
    assert spec.entries[..|spec.entries|] == spec.entries;
    KindsMean(spec.entries, spec.stage);
    assert RightCount(spec.entries, spec.stage, kind);
  }

  /** Kinds with a schema of their own. */
  const JSON_KINDS: set<Kind> := CHECKED + {ReleaseEvidenceVerification, PreparedBundle}

  lemma JsonKindHasSchema(k: Kind)
    ensures k in JSON_KINDS <==> ExpectedSchema(k).Some?
  {
  }

  ghost predicate OneEach(ctx: Context) {
    forall k :: k in JSON_KINDS ==> |ByKind(ctx, k)| == 1
  }

  lemma EachKindOnce(ctx: Context, spec: Spec, w: World)
    requires ContextOf(ctx, spec, w) && ArtifactsAccepted(spec.entries, Final, w) && spec.stage == Final
    requires NothingPending(spec)
    ensures OneEach(ctx)
  {
    forall k | k in JSON_KINDS
      ensures |ByKind(ctx, k)| == 1
    {
      JsonKindHasSchema(k);
      OnePayload(ctx, spec, w, k);
    }
  }

  /** A kind's check ran on its one payload, and passed. */
  ghost predicate CheckedOnce(ctx: Context, kind: Kind, w: World) {
    |ByKind(ctx, kind)| == 1 && w.passes(kind, ByKind(ctx, kind)[0], ctx)
  }

  lemma AlonePassed(ctx: Context, w: World, n: nat)
    requires ChecksPass(ctx, w) && n < |CHECKED_ALONE| && |ByKind(ctx, CHECKED_ALONE[n])| == 1
    ensures CheckedOnce(ctx, CHECKED_ALONE[n], w)
  {
    assert EachPasses(ctx, CHECKED_ALONE[n], w);
  }

  lemma EachCheckPassed(ctx: Context, w: World, k: Kind)
    requires ChecksPass(ctx, w) && k in CHECKED
    requires OneEach(ctx)
    ensures CheckedOnce(ctx, k, w)
  {
    hide ByKind, PreparedPasses, EachPasses, CountKind;
    if k == ReleaseEvidenceManifest {
      assert |ByKind(ctx, ReleaseEvidenceVerification)| == 1;
    } else if k == FaultAcceptanceManifest {
      assert |ByKind(ctx, CoreAcceptanceManifest)| == 1;
    } else {
      AloneListed();
      var n :| 0 <= n < |CHECKED_ALONE| && CHECKED_ALONE[n] == k;
      AlonePassed(ctx, w, n);
    }
  }

  lemma PreparedChecked(ctx: Context, w: World)
    requires ChecksPass(ctx, w) && ctx.stage == Final
    requires |ByKind(ctx, PreparedBundle)| == 1 && |ByKind(ctx, CleanRoomRehearsal)| == 1
    ensures PreparedAccepted(ByKind(ctx, PreparedBundle)[0], ctx)
  {
  }

  lemma ClaimsNameVerified(spec: Spec, w: World)
    requires ClaimsAccepted(spec.claims, spec.entries, w) && NothingPending(spec)
    ensures forall c, s :: c in spec.claims && s in c.evidence ==> Names(spec.entries, s, Verified)
  {
    forall c, s | c in spec.claims && s in c.evidence
      ensures Names(spec.entries, s, Verified)
    {
      var j :| 0 <= j < |spec.claims| && spec.claims[j] == c;
      assert ClaimValid(spec.claims[j], spec.entries, w);
    }
  }

  /**
   A ready bundle skipped no check: each checked kind has exactly one payload and
   that payload passed; all claims are supported by verified evidence; and the
   embedded prepared bundle lists exactly the artifacts of this one but the two
   that only a final bundle has.
   */
  lemma ReadySkippedNothing(spec: Spec, ctx: Context, w: World)
    requires Verifies(spec, ctx, w) && spec.stage == Final
    ensures forall k :: k in CHECKED ==> CheckedOnce(ctx, k, w)
    ensures CountKind(spec.entries, DemoAsset) >= 1
    ensures forall k :: k != DemoAsset ==> CountKind(spec.entries, k) == 1
    ensures forall e :: e in spec.entries ==>
              && e.status == Verified
              && w.file(e.location, e.path).Some? && e.sha256 == Some(w.file(e.location, e.path).value.sha256)
              && (e.location == Repository ==> w.file(e.location, e.path).value.tracked)
              && (e.schema.Some? ==>
                    && w.file(e.location, e.path).value.payload.Some?
                    && w.file(e.location, e.path).value.payload.value.schema == e.schema)
    ensures |ByKind(ctx, PreparedBundle)| == 1
    ensures var p := ByKind(ctx, PreparedBundle)[0];
            && p.stage == Some(Prepared) && p.pending == ["CLEAN_ROOM_REHEARSAL"]
            && p.source == Some(Source(spec.source.revision, spec.source.tag, TagVerified, spec.source.tagObject))
            && p.artifacts == Sort(WithoutFinalOnly(Records(spec.entries, w)), RecordId)
            && p.claims == Sort(spec.claims, ClaimId)
    ensures forall c, s :: c in spec.claims && s in c.evidence ==> Names(spec.entries, s, Verified)
  {
    EachKindOnce(ctx, spec, w);
    forall k | k in CHECKED
      ensures CheckedOnce(ctx, k, w)
    {
      EachCheckPassed(ctx, w, k);
    }
    PreparedChecked(ctx, w);
    ClaimsNameVerified(spec, w);
    VerifiedFiles(spec, ctx, w);
    forall k | k != DemoAsset
      ensures CountKind(spec.entries, k) == 1
    {
      assert RightCount(spec.entries, spec.stage, k);
    }
    assert RightCount(spec.entries, spec.stage, DemoAsset);
  }

  lemma AloneListed()
    ensures forall k :: k in CHECKED && k != ReleaseEvidenceManifest && k != FaultAcceptanceManifest ==>
              k in CHECKED_ALONE
  {
    assert CHECKED_ALONE[0] == ContractSchemaIndex && CHECKED_ALONE[1] == CoreAcceptanceManifest;
    assert CHECKED_ALONE[2] == SecurityAbuseManifest && CHECKED_ALONE[3] == PerformanceSummary;
    assert CHECKED_ALONE[4] == RequiredCheckResults && CHECKED_ALONE[5] == ReleaseReview;
    assert CHECKED_ALONE[6] == CleanRoomRehearsal;
  }
}
