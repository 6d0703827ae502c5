# ControlGraph verification

ControlGraph promotes a canary release behind an authority epoch: a queued
promotion is signed for one epoch, the executor re-reads the epoch just before it
changes traffic, and revoking the epoch makes every older promotion harmless. The
repository proves this about itself with hosted acceptance and fault runs, a
hash-linked timeline, a canonical JSON codec, evidence manifests checked twice by
programs written separately, and a web console.

This project models that machinery and proves properties of it that no single
body shows: safety over every interleaving of runner, queue, executor and store;
exactness of the readers against a log that grows while it is read; injectivity
and round trips of the codec down to characters and bytes; an exact refinement
between the two manifest programs; the algebra and the restore discipline of
temporary IAM grants; reachability of the asset crawl; and nonlinear arithmetic of
the reported rates.

Run `dafny verify dfyconfig.toml` to check all of it.

## How it is laid out

| files | subject |
|---|---|
| `Option`, `Lists`, `Sorting` | shared vocabulary: optional values, lists without repetition and sums, sorting by a text key |
| `EpochFence`, `RunnerScripts` | the epoch fence as a step system with every interleaving, and the runner scripts as class methods against a cloud whose calls may fail before, after or long after their effect |
| `Timeline`, `TimelineSummary`, `RawTimeline` | the acceptance runner's paged reader, the checker of its pages, the raw export, and the whole reading |
| `Utf16`, `JsonValue`, `JsonText`, `Codec`, `Base64Url`, `ReplayChain` | UTF-16 text and UTF-8 bytes, restricted JSON values and their order, printer and full parser (RFC 8259), digest frame, base64url (section 5 of RFC 4648), and the replay event chain |
| `JsonGrammar`, `CodecVectors` | the grammar of RFC 8259 in its own characters, which printer and parser both meet, and the codec on concrete input: texts, bounds, bytes and the base64url alphabet |
| `AcceptanceTypes`, `CoreAcceptance`, `CoreManifestCheck`, `ManifestRefinement`, `AcceptanceMeaning`, `ManifestWitness`, `HostedRun` | the manifest's producer, its independent checker, the refinement between them, what each check comes to condition by condition, concrete witnesses, and the hosted run that feeds the producer |
| `IamPolicy`, `GrantRestore` | policy normal form and its add/remove algebra, and the temporary changes of the fault suite with their restores |
| `ReadyGate` | the release bundle's gate |
| `AssetCrawl` | the bounded worklist over a site's static assets |
| `Wilson` | Wilson score interval and nearest-rank percentiles in exact arithmetic |
| `Authority`, `ConsoleReader`, `ConsoleSteps`, `Console` | the authority a log records, the web console's reader, the console as a step system with single-flight refresh, reviews, revocations and posts, and as the class whose methods do those steps |
| `RevocationDialog`, `IdentityBridge` | the revocation dialog on its console and the sign-in bridge, each as a step system and as the class that refines it |

## Where the code falls short of a property

Each of these is proved as an exact condition, with an input that shows the failure.

* The core checker refuses some manifests the producer emits as passed, even when
  all evidence artifacts have different identities: an evidence artifact must also
  not share the identity of the plan, a policy or a case result, which the producer
  never checks (`PassedManifestAccepted`, `RefusedWitness`).
* A hold call that fails after it took effect leaves the queue paused with nothing
  marked for cleanup (`UnconfirmedHold`, `UnconfirmedHoldLeavesQueuePaused`).
* Removing the probe's invoker sets `removed` only after the call returns, so a
  call that fails after its effect is never restored and never flagged
  (`LostRemoval` in `ExecuteProbeFailure`; `LoseInvoker` runs one).
* The order test of the revocation race accepts a commit that came before the claim
  in the same second (`OrderTestExact`, `SameSecondPasses`).
* A correctly measured case duration can miss the whole-second window by one
  millisecond (`DurationAcceptedIff`, `RefusedByOneMillisecond`).
* Granting a member again undoes removing it only if it was listed once
  (`AddUndoesRemove`, `ListedTwice`), which decides whether the probe's restore can
  succeed (`InvokerRestorable`, `InvokerListedTwice`).
* A revocation compares root and epoch, not the event that recorded them, so a
  later event repeating both goes unnoticed: nothing does exactly where a log
  records each once, as the authority's own logs do (`OncePerEpochExact`,
  `AdvancingIsOnce`; `PostPastRepeatedEpoch` runs one).

## Model

| member | source | states |
|---|---|---|
| EpochFence.StepKeepsInv | backend/src/controlgraph_canary/application/execution.py:426-507 | every atomic action of queue, executor, store, runner or time keeps the invariant tying receipt, owner, final read and traffic |
| EpochFence.RunKeepsInv | README.md:5-9 | the invariant holds after any sequence of actions; the signed epoch is fixed and commits only grow |
| EpochFence.ChangedOnlyWhenCurrent | README.md:5-9 | in every run traffic changes at most once, and only after a final read that saw the signed epoch while it was current |
| EpochFence.DeniedNeverChanged | backend/src/controlgraph_canary/application/execution.py:735-826 | an epoch-mismatch denial and a traffic change never occur in one run; the denial's observed epoch was current at its final read |
| EpochFence.StaleReadIsHarmless | README.md:5-9 | after a final read of another epoch no continuation changes traffic |
| EpochFence.FinalReadDecides | backend/src/controlgraph_canary/application/execution.py:426-507 | with anything interleaved between claim, read, call and receipt, traffic changes iff the read saw the signed epoch and the receipt is a mismatch denial iff it did not |
| EpochFence.ClaimedOnce | backend/src/controlgraph_canary/application/receipt_execution.py:641-767 | in every run a receipt stays with the time of its claim, a terminal one stays as it is, and nobody comes to hold the claim again |
| EpochFence.GateAdmits | backend/src/controlgraph_canary/application/execution.py:426-507 | the final gate lets the call through iff the read works, nothing denies it and the epoch is the signed one |
| EpochFence.ReplyDecides | backend/src/controlgraph_canary/application/receipt_execution.py:687-767 | what the provider did and said decides the recorded outcome and, whatever else happens meanwhile, what a readback makes of it |
| EpochFence.CrashIsReadBack | backend/src/controlgraph_canary/application/receipt_execution.py:687-767 | a claim left by a crash is read back as ambiguous first, then as verified iff traffic was changed |
| EpochFence.DenialAfterCommit | scripts/fault_acceptance.py:477-543 | the commit a stale denial observed came before its final read |
| EpochFence.RacePassesOrderTest | scripts/fault_acceptance.py:505-509 | a commit between claim and final read always passes the race order test |
| EpochFence.OrderTestExact | scripts/fault_acceptance.py:505-509 | a stale denial passes the race test iff its commit is not in a second before the claim's |
| EpochFence.SameSecondPasses | scripts/fault_acceptance.py:505-509 | runs, at any time early in a second, that pass the race test with the commit before the claim |
| RunnerScripts.CallKeepsFenced | scripts/core_acceptance.py:3180-3244 | a runner call that is safe to make keeps every intermediate state behind the fence: held, or revoked before anything is delivered |
| RunnerScripts.Runner.Send | scripts/core_acceptance.py:2579-2603 | one call: its effect under any fault and interference, what it confirms, and the recorded states in between |
| RunnerScripts.Runner.ReleaseQueue | scripts/core_acceptance.py:2579-2603 | the queue is resumed only with the epoch past the signed one, and confirmed release leaves it running |
| RunnerScripts.Runner.PollReceipt | scripts/core_acceptance.py:3227-3244 | behind the fence any terminal receipt found is a denial that left traffic alone, claimed after the revocation |
| RunnerScripts.Runner.ExecuteDelayedTask | scripts/fault_acceptance.py:1416-1491 | finishes with the awaited receipt iff all four calls are confirmed and it is terminal, and flags the queue iff the hold was confirmed and neither release; on every exit after a confirmed hold the queue runs or is flagged; a finished run ends in an ordered denial |
| RunnerScripts.Runner.RunRevocationCase | scripts/core_acceptance.py:3180-3244 | finishes iff the evaluation succeeds, all four calls are confirmed and the receipt is the mismatch denial at the epoch after the signed one; flag exact; flag or running queue on every exit after a confirmed hold |
| RunnerScripts.RunScript | scripts/core_acceptance.py:3180-3244 | either fenced script from start to end: its result and its flag from what each call confirmed and the receipt awaited; no world passed through, step by step, has changed traffic; its queue runs or is flagged after a confirmed hold |
| RunnerScripts.StaleTaskDenied | scripts/fault_acceptance.py:1433-1461 | a concrete fault-free run of either script, which finishes with the denial at the epoch after the signed one |
| RunnerScripts.Runner.RaceAttempt | scripts/fault_acceptance.py:1949-2050 | with release and revocation sent at once it finishes iff both and the calls before are confirmed and the receipt is denied or verified, and is a race iff the recorded seconds say so; a finished attempt's receipt decides traffic |
| RunnerScripts.FencedReceiptDenied | scripts/fault_acceptance.py:477-543 | behind the fence every terminal receipt is a denial in the required order |
| RunnerScripts.UnconfirmedHold | scripts/fault_acceptance.py:1434-1440 | an unconfirmed hold leaves the queue paused iff it took effect all the same, at once or later |
| RunnerScripts.UnconfirmedHoldLeavesQueuePaused | scripts/fault_acceptance.py:1434-1440 | a concrete failed hold that leaves the queue paused and unflagged |
| Timeline.TimelinePages | scripts/core_acceptance.py:3638-3674 | against any server the pages and the error are exactly those of its answers; against an honest one over a log that grows between reads never a change reported, and exactly the entries from the anchor to the first head iff the gap is at most 1600, else too large |
| Timeline.OneOutcome | scripts/core_acceptance.py:3638-3674 | whatever a server answers, the pages read and how the reading ends are fixed |
| Timeline.ReadAnswer | scripts/core_acceptance.py:3578-3605 | an honest page in mid-traversal is the next slice of the frozen log, with a head that extends the frozen and the last one |
| Timeline.HonestHeadsExtend | scripts/core_acceptance.py:3618-3635 | heads of a growing log always pass the head-extension rule |
| TimelineSummary.TimelinePageSummary | scripts/core_acceptance.py:3801-3871 | the checker accepts iff pages chain, link, stay within the frozen head and agree on heads; counts, bindings and digests of what it accepts |
| TimelineSummary.WalkPage | scripts/core_acceptance.py:3830-3834 | one page's entries are walked to its end iff each links to the one before |
| TimelineSummary.AcceptedIsLinked | scripts/core_acceptance.py:3801-3871 | whatever the server sent, accepted pages hold consecutive linked entries from anchor to frozen head, as many as the difference of the two |
| TimelineSummary.HeadsConsistent | scripts/core_acceptance.py:3819-3826 | all heads of accepted pages are pairwise consistent |
| TimelineSummary.SameHeadSameEntries | scripts/core_acceptance.py:3801-3871 | two accepted traversals with one anchor and one head digest hold the same entries, if digests do not collide |
| TimelineSummary.PageSetFixesPages | scripts/core_acceptance.py:3842-3868 | with digests that do not collide the page-set digest fixes every page |
| TimelineSummary.HonestAccepted | scripts/core_acceptance.py:3773-3787 | everything an honest traversal returns is accepted by the summary |
| RawTimeline.BoundaryExact | scripts/core_acceptance.py:3677-3699 | on honest pages the export starts just before the earliest tracked entry, and has no start iff there is none |
| RawTimeline.RawTimeline | scripts/core_acceptance.py:3702-3746 | against any exporter the entries or the error are exactly those of its answers; against an honest one exactly the log from that start to the same frozen head iff it takes at most 1000 reads |
| RawTimeline.OneExport | scripts/core_acceptance.py:3702-3746 | whatever an exporter answers, what is exported and how it ends are fixed |
| RawTimeline.ExportCovers | scripts/core_acceptance.py:3677-3746 | the exported slice holds every tracked entry of the pages |
| RawTimeline.CaptureAnchor | scripts/core_acceptance.py:3608-3615 | the anchor is the head at its read |
| RawTimeline.ReadTimelineEvidence | scripts/core_acceptance.py:3773-3787 | pages, summary and export together, against any servers: the first step to fail gives its error; against honest ones the entries since the anchor and the covering raw slice, or the exact error |
| Utf16.AssertUnicodeScalars | web/src/contracts/canonical.ts:19-32 | accepts exactly the sequences without a lone surrogate |
| Utf16.Utf8Injective | web/src/contracts/canonical.ts:113-115 | well-formed texts with the same UTF-8 bytes are equal |
| JsonValue.SortFieldsSorts | web/src/contracts/canonical.ts:85-98 | ordering fields gives a strictly sorted list with the same fields |
| JsonValue.SortedFieldsUnique | web/src/contracts/canonical.ts:85-98 | a strictly sorted list is fixed by the fields it holds |
| JsonValue.SameIffNormal | web/src/contracts/canonical.ts:85-98 | two values are equal up to key order iff their ordered, signless forms are identical |
| JsonText.ParsePrinted | web/src/contracts/canonical.ts:100-141 | parsing a printed value in any following text gives the value back and that text |
| JsonText.ParsedProper | web/src/contracts/canonical.ts:117-141 | whatever text is parsed, no object of the result has a key twice |
| Codec.CanonicalTextParses | web/src/contracts/canonical.ts:100-111 | the canonical text of a value parses to its ordered form |
| Codec.DecodeUndoesEncode | web/src/contracts/canonical.ts:100-141 | decoding the canonical text of an object gives it back up to key order |
| Codec.CanonicalTextsAgree | web/src/contracts/canonical.ts:100-111 | two restricted values share a canonical text iff they are equal up to key order |
| Codec.AcceptedTexts | web/src/contracts/canonical.ts:117-141 | every accepted text is the canonical text of exactly the values equal to the one decoded |
| Codec.Concatenate | web/src/contracts/canonical.ts:157-166 | the buffer holds the parts one after another |
| Codec.CanonicalTextClean | web/src/contracts/canonical.ts:100-111 | canonical text is well formed and never contains a NUL |
| Codec.FrameInjective | web/src/contracts/canonical.ts:168-182 | version and text are recoverable from the framed bytes, whatever NULs the version contains |
| Codec.DigestBindsValue | web/src/contracts/canonical.ts:168-182 | with a collision-free hash equal digests mean equal versions and values equal up to key order |
| JsonGrammar.ParserReads | web/src/contracts/canonical.ts:126-131 | every text that denotes a value by the grammar of RFC 8259, whatever escapes it uses, is parsed to that value |
| JsonGrammar.CanonicalDenotes | web/src/contracts/canonical.ts:100-111 | the canonical text of a value denotes its ordered form by that grammar |
| JsonGrammar.AcceptedDenotes | web/src/contracts/canonical.ts:117-141 | an accepted text denotes, by that grammar, the object it is decoded to |
| JsonGrammar.DenotesOne | web/src/contracts/canonical.ts:100-141 | by that grammar a text denotes one value only, up to the sign of zero |
| CodecVectors.WordsEncoded | web/src/contracts/canonical.ts:100-111 | the canonical text of an array of the three words |
| CodecVectors.NumbersEncoded | web/src/contracts/canonical.ts:100-111 | the canonical text of numbers, negative zero among them |
| CodecVectors.FieldsEncoded | web/src/contracts/canonical.ts:85-111 | the canonical text of an object whose fields come unsorted |
| CodecVectors.ShortEscapes | web/src/contracts/canonical.ts:100-111 | the canonical text of the seven characters with short escapes |
| CodecVectors.OtherCharacters | web/src/contracts/canonical.ts:100-111 | other control characters as four hexadecimal digits; a slash as itself |
| CodecVectors.NestingBound | web/src/contracts/canonical.ts:41-83 | arrays nest up to twelve levels |
| CodecVectors.TextBound | web/src/contracts/canonical.ts:106-109 | texts are encoded iff they take at most 65,536 bytes |
| CodecVectors.Utf8Vectors | web/src/contracts/canonical.ts:113-115 | UTF-8 of one, two, three and four bytes |
| CodecVectors.FrameBytes | web/src/contracts/canonical.ts:168-182 | the hashed bytes: domain, version, NUL, text |
| CodecVectors.AlphabetUsed | web/src/contracts/canonical.ts:184-190 | each character is the base64url alphabet's letter for its group of bits |
| CodecVectors.GroupsOfBits | web/src/contracts/canonical.ts:184-190 | three bytes and their four groups are one number; short ends are filled with zero bits |
| Base64Url.JoinUndoesSplit | web/src/contracts/canonical.ts:184-190 | sextets of bytes join back to the bytes |
| Base64Url.SplitUndoesJoin | web/src/contracts/canonical.ts:192-212 | joined sextets split back to themselves iff unused trailing bits are zero |
| Base64Url.Base64RoundTrip | web/src/contracts/canonical.ts:184-212 | decoding an encoding gives the bytes back, for every length within the limit |
| Base64Url.AcceptedBase64 | web/src/contracts/canonical.ts:192-212 | exactly which texts are accepted, and every accepted text re-encodes to itself |
| ReplayChain.ValidateEvents | web/src/contracts/publicReplay.ts:595-643 | the loop accepts exactly the lists whose events are valid and each name the digest before, ending in the given head, with the denial's epochs those of the authority event |
| ReplayChain.AcceptedEvent | web/src/contracts/publicReplay.ts:595-637 | what acceptance says of each event by the names of its fields: version, sequence, link, time, digest, and the head |
| ReplayChain.SameDigestSameLink | web/src/contracts/publicReplay.ts:629-633 | events with one digest are equal up to key order and carry one predecessor |
| ReplayChain.HeadFixesChain | web/src/contracts/publicReplay.ts:595-637 | two accepted chains with one head digest hold the same events and so are of one length, even for validators that expect different kinds and numbers of events |
| ReplayChain.DigestFixesEnvelope | web/src/contracts/publicReplay.ts:647-662 | two accepted envelopes with one payload digest are equal up to key order |
| CoreAcceptance.BuildCase | scripts/core_acceptance.py:720-789 | a case enters the manifest iff its result answers the binding and, if passed, is within bounds with all evidence |
| CoreAcceptance.BuildCases | scripts/core_acceptance.py:862-886 | the case loop with its growing set of identities succeeds iff every result is ready and no evidence identity repeats |
| CoreAcceptance.BuildManifest | scripts/core_acceptance.py:827-943 | a manifest is built iff specification, files, results and their sequence are valid and the encoder takes it, and is exactly the described one |
| CoreAcceptance.PassedCasesPass | scripts/core_acceptance.py:893-900 | the run passes iff all cases do: total duration and cost limits already follow from the case limits |
| CoreAcceptance.RunSpan | scripts/core_acceptance.py:888-937 | a manifest spans from its first case's start to its last case's completion |
| CoreManifestCheck.CheckImages | scripts/frozen_bundle.py:571-599 | accepts exactly one image for each component, distinct digests, equal to the release's images if given |
| CoreManifestCheck.CheckPolicies | scripts/frozen_bundle.py:609-625 | accepts exactly valid policies whose artifacts repeat no identity, and returns the identities used |
| CoreManifestCheck.CheckEvidence | scripts/frozen_bundle.py:689-711 | a case's evidence passes iff valid, sufficient for its kind and unused before; the sets then cover it |
| CoreManifestCheck.CheckSteps | scripts/frozen_bundle.py:713-736 | steps pass iff contiguous, passed, on their entry points, referring to exactly the case's evidence within its duration |
| CoreManifestCheck.CheckCases | scripts/frozen_bundle.py:627-736 | the case loop accepts iff every case is accepted and no case, evidence or artifact identity repeats in the whole manifest; its totals |
| CoreManifestCheck.ValidateCoreAcceptance | scripts/frozen_bundle.py:532-754 | accepts iff header, target, images, plan, policies, cases and bounds all hold |
| AcceptanceMeaning.AcceptedCase | scripts/frozen_bundle.py:627-690 | an accepted manifest's cases: order, kind, status, expected and observed result, and their bounds in numbers |
| AcceptanceMeaning.AcceptedEvidence | scripts/frozen_bundle.py:689-736 | in an accepted manifest every required kind of evidence is there, each is used by a step, and steps use nothing else |
| AcceptanceMeaning.AcceptedIdentities | scripts/frozen_bundle.py:627-711 | in an accepted manifest no two cases, pieces of evidence or artifacts anywhere share an identity |
| AcceptanceMeaning.AcceptedInputsApart | scripts/frozen_bundle.py:609-711 | nor does the plan's or a policy's artifact share one with any of them |
| AcceptanceMeaning.AcceptedTotals | scripts/frozen_bundle.py:738-754 | its totals are the sums over its cases, within four hours and ten million |
| AcceptanceMeaning.ValidResult | scripts/core_acceptance.py:484-536 | a valid result's duration is within a second of its instants, and its steps, evidence and identities agree |
| ManifestRefinement.TablesAgree | scripts/frozen_bundle.py:46-117 | the two programs' case order, expected results and required evidence are the same |
| ManifestRefinement.PassedCaseAccepted | scripts/core_acceptance.py:503-536 | a passed result that answers its binding makes a case the verifier accepts |
| ManifestRefinement.SameArtifactIds | scripts/frozen_bundle.py:682-709 | the verifier's interleaved identities are those of results and evidence together |
| ManifestRefinement.PassedManifestAccepted | scripts/frozen_bundle.py:532-754 | of the manifests emitted as passed the verifier accepts exactly those of the same release with a JSON plan and evidence artifacts sharing no identity with each other or with the specification's |
| ManifestWitness.WitnessDecided | scripts/core_acceptance.py:827-943 | a concrete complete run, emitted as passed, is accepted iff the plan shares no identity with an evidence artifact |
| ManifestWitness.AcceptedWitness | scripts/frozen_bundle.py:532-754 | a passed manifest that is accepted |
| ManifestWitness.RefusedWitness | scripts/frozen_bundle.py:682-709 | a passed manifest with pairwise distinct evidence artifacts that is refused |
| ManifestWitness.BothHappen | scripts/frozen_bundle.py:532-754 | for a concrete target one run is emitted as passed and accepted, another emitted as passed and refused |
| HostedRun.ExecuteHosted | scripts/core_acceptance.py:4696-4812 | exactly one record for each case in order: run up to the first failure, not run after it |
| HostedRun.StatusesTellShape | scripts/core_acceptance.py:4696-4812 | passed exactly before the first failure, and all passed iff there is none |
| HostedRun.ManifestPassedIffAllRan | scripts/core_acceptance.py:4813-4816 | a manifest whose first k cases passed is passed iff k is all of them |
| HostedRun.RunHosted | scripts/core_acceptance.py:4696-4816 | from the cases to the manifest: its cases stand as recorded, and it is passed iff no case failed |
| HostedRun.DurationAcceptedIff | scripts/core_acceptance.py:505-515 | when a recorded duration passes the whole-second window, from both clocks |
| HostedRun.RefusedByOneMillisecond | scripts/core_acceptance.py:4325-4328 | instants for which a correctly measured duration is refused |
| IamPolicy.NormalizeNormal | scripts/fault_acceptance.py:819-847 | normalising gives a normal policy with the same bindings |
| IamPolicy.NormalizeSame | scripts/fault_acceptance.py:819-847 | two listings of the same bindings have one normal form |
| IamPolicy.RemoveUndoesAdd | scripts/fault_acceptance.py:850-896 | on normal policies removing a member undoes granting it |
| IamPolicy.AddUndoesRemove | scripts/fault_acceptance.py:850-896 | granting undoes removing iff the member was listed once |
| IamPolicy.AddGrantsOne | scripts/fault_acceptance.py:850-873 | granting gives the role to that member and changes nothing for anybody else |
| IamPolicy.RemoveTakesOne | scripts/fault_acceptance.py:874-896 | removing takes the role from that member and changes nothing for anybody else |
| IamPolicy.ListedTwice | scripts/fault_acceptance.py:850-896 | a normal policy listing a member twice, which removing and granting lists once |
| GrantRestore.FaultRun.RestoreCoordinatorGrant | scripts/fault_acceptance.py:1250-1270 | the policy is back and the flag cleared, or the flag stays set, under every fault |
| GrantRestore.FaultRun.CoordinatorToken | scripts/fault_acceptance.py:1321-1358 | a token is returned iff every call it needs worked, only with the policy as it was; the policy and its flag it leaves, exactly |
| GrantRestore.FaultRun.ExecuteConfigurationDrift | scripts/fault_acceptance.py:1810-1860 | it works iff every call it needs does; the traffic, the policy and the flags it leaves, exactly; what is left changed is flagged |
| GrantRestore.FaultRun.ExecuteProbeFailure | scripts/fault_acceptance.py:1880-1925 | it works iff every call it needs does and the invoker was listed once; the invoker policy is left changed and unflagged exactly when its removal failed after taking effect |
| GrantRestore.FaultRun.ExecuteFaultSuite | scripts/fault_acceptance.py:2255-2292 | a manifest is published iff every scenario works and no flag is left, and then every policy and the traffic are as they were |
| GrantRestore.PublishSuite | scripts/fault_acceptance.py:2255-2292 | a concrete suite that is published, one flag of which a later token cleared |
| GrantRestore.RefuseSuites | scripts/fault_acceptance.py:2255-2276 | concrete suites that are not: a failing scenario, and a flag left |
| GrantRestore.InvokerRestorable | scripts/fault_acceptance.py:1916-1925 | restoring the invoker can succeed iff it was listed once |
| GrantRestore.LoseInvoker | scripts/fault_acceptance.py:1894-1925 | a run of the probe failure that ends with the invoker gone and no flag for it |
| GrantRestore.InvokerListedTwice | scripts/fault_acceptance.py:1916-1925 | an invoker listed twice, whose restore leaves another policy |
| ReadyGate.BindArtifacts | scripts/frozen_bundle.py:399-457 | succeeds iff entries are valid, bound to their files, distinct, and of the required kinds; records, payloads and pending entries exactly |
| ReadyGate.ValidateClaims | scripts/frozen_bundle.py:1221-1287 | accepts iff claims are valid, distinct, cover all categories and support only on verified evidence |
| ReadyGate.ValidateKnownPayloads | scripts/frozen_bundle.py:984-1218 | runs each kind's check wherever its payload is there, and accepts iff all pass |
| ReadyGate.ContextFixed | scripts/frozen_bundle.py:1290-1327 | files and specification fix everything the checks see |
| ReadyGate.VerifyBundle | scripts/frozen_bundle.py:1290-1339 | a result iff source, artifacts, claims and checks hold and, in the final stage, nothing is pending; none if a verified file is missing, untracked, of another digest or of another schema, or a kind is missing or repeated; it lists exactly what is pending, and is ready iff that is nothing |
| ReadyGate.ReadySkippedNothing | scripts/frozen_bundle.py:984-1339 | in a ready bundle every artifact stands on a file with its digest, each kind comes once, every checked kind has exactly one payload and it passed, claims rest on verified evidence, and the embedded prepared bundle lists the final artifacts minus the two final-only kinds |
| AssetCrawl.ImportsResolve | scripts/public_replay.py:785-798 | resolving a reference found in an asset never fails and never leads to the configuration script |
| AssetCrawl.RelativeImport | scripts/public_replay.py:791-798 | a name beside the importer is that name among the assets |
| AssetCrawl.AbsoluteImport | scripts/public_replay.py:791-798 | an asset path resolves to itself, whoever imports it |
| AssetCrawl.Crawl | scripts/public_replay.py:881-911 | succeeds iff everything reachable is served within both limits; then it has fetched exactly the reachable paths, each once, and counted their bytes |
| AssetCrawl.VerifyAssets | scripts/public_replay.py:813-911 | the page's rules and the crawl together, and the count reported |
| AssetCrawl.CrawlRelative | scripts/public_replay.py:881-911 | a concrete page whose one asset imports another beside it: two are counted, and the crawl fails where the second is missing |
| AssetCrawl.CrawledUnique | scripts/public_replay.py:881-911 | there is only one set a crawl can succeed with |
| Wilson.Interval | scripts/measurement_summary.py:431-443 | the clamps never bite and the interval holds the proportion |
| Wilson.ScoreEquation | scripts/measurement_summary.py:431-443 | both ends solve n (p - x)^2 = z^2 x (1 - x) for z = 1.959963984540054 |
| Wilson.RatesOrdered | scripts/measurement_summary.py:431-454 | 0 <= lower <= rate <= upper <= 10000 after floor, half-up and ceiling; the rate is the nearest whole number, halves up |
| Wilson.RatesMirror | scripts/measurement_summary.py:431-454 | counting the other outcome mirrors the interval |
| Wilson.RatesNondecreasing | scripts/measurement_summary.py:431-454 | both ends are nondecreasing in the count for a fixed sample count |
| Wilson.DistributionOrdered | scripts/measurement_summary.py:420-428 | minimum, percentiles and maximum stand in order |
| Wilson.PercentileLeast | scripts/measurement_summary.py:413-416 | a percentile is at most a number iff enough of the values are: it is the least number that covers its share of the list |
| ConsoleReader.ReadToHead | web/src/useOperatorConsole.ts:111-159 | against any server what it returns is exactly what its answers give; against an honest growing log everything to the head, and failure only when that exceeds the view |
| Authority.DeriveAuthorityLast | web/src/useOperatorConsole.ts:90-109 | the derived authority is the last one any entry records |
| Authority.OncePerEpochExact | web/src/useOperatorConsole.ts:365-372 | over any two reads of a log, comparing root and epoch tells that nothing changed the authority iff the log records each root and epoch once |
| Authority.AdvancingIsOnce | backend/src/controlgraph_canary/authority/epoch.py:296-305 | a log in which each event of a root comes at the next epoch records each root and epoch once |
| ConsoleSteps.StepKeeps | web/src/useOperatorConsole.ts:216-405 | every step keeps view, single flight, answers, reviews, revocations and posts consistent with the log |
| ConsoleSteps.RunIsSound | web/src/useOperatorConsole.ts:216-405 | in every run, at every moment, the view is the log prefix up to its cursor, which is the head; every answer is the last authority it showed; every post follows its own fresh answer matching what was reviewed, once; and nothing shown or posted is taken back |
| ConsoleSteps.NothingBetween | web/src/useOperatorConsole.ts:364-372 | if the log records each root and epoch once, two matching fresh reads of a run saw the same event, and no authority event was logged between them |
| Console.OperatorConsole.Refresh | web/src/useOperatorConsole.ts:262-307 | one call of refresh is its step: it joins, waits for, or starts the one operation |
| Console.OperatorConsole.RunOperation | web/src/useOperatorConsole.ts:276-292 | the operation in flight settles with the whole log shown and its last authority iff that can be shown, else with an error and nothing changed |
| Console.OperatorConsole.ReloadFromStart | web/src/useOperatorConsole.ts:309-332 | a full load while no refresh runs shows the whole log iff it can be shown, else changes nothing |
| Console.OperatorConsole.Returned | web/src/useOperatorConsole.ts:262-307 | a call returns once its operation is over; a fresh call only a fresh operation's result, the last authority of the log it showed |
| Console.OperatorConsole.EndReview | web/src/useOperatorConsole.ts:340-357 | a review ends once the operation it waited for is over, with exactly that operation's answer, the view's target and its operator |
| Console.OperatorConsole.BeginRevocation | web/src/useOperatorConsole.ts:359-364 | a revocation makes a fresh call of its own, whatever was read for the review |
| Console.OperatorConsole.EndRevocation | web/src/useOperatorConsole.ts:364-393 | posted exactly when its own fresh read, not over when it was asked for, shows the root, its digest, the epoch, target and operator reviewed; the post says what was read |
| Console.RunConsole | web/src/useOperatorConsole.ts:216-405 | the states the class passes through in any run are exactly the steps of what happened, from the first, and all of them are sound |
| Console.PostPastRepeatedEpoch | web/src/useOperatorConsole.ts:364-393 | a run on an honest growing log that posts although an authority event repeating root and epoch was logged after the review |
| RevocationDialog.Dialog.Submit | web/src/App.tsx:1071-1087 | a submission uses an identity never used before |
| RevocationDialog.CourseIsSafe | web/src/App.tsx:1037-1138 | in every run of dialog and console, at every moment, each request identity has been posted at most once, and only what a finished fresh read had shown for review was ever submitted |
| RevocationDialog.HandleAll | web/src/App.tsx:1037-1138 | the states dialog and console pass through are exactly the steps of the events, from the first, and all of them are safe |
| RevocationDialog.PostFollowsReview | web/src/App.tsx:1056-1087 | behind every post of a run stands a review of the same authority, target and operator; with each root and epoch recorded once, nothing changed the authority between the two reads |
| RevocationDialog.PostingRun | web/src/App.tsx:1037-1138 | a run of dialog and console in which the reviewed revocation is posted once under its identity |
| IdentityBridge.Bridge.FinishReceive | web/src/googleOperatorIdentity.ts:290-317 | a checked callback resolves the prompt it came for with its credential, or rejects it, if still open, and settles no other, however late |
| IdentityBridge.Bridge.Prompt | web/src/googleOperatorIdentity.ts:319-353 | the pending promise is handed out again, or one new promise becomes the pending one unless refused at once |
| IdentityBridge.RunIsSound | web/src/googleOperatorIdentity.ts:267-372 | in every run, at every moment, each promise is settled or the single pending one, settled promises stay, the provider was initialised at most once, and a credential served from cache outlives the call by more than 60 seconds |
| IdentityBridge.SignIn | web/src/googleOperatorIdentity.ts:267-372 | a run that signs in: the prompt is resolved with the credential, which the cache then serves |
| IdentityBridge.HandleAll | web/src/googleOperatorIdentity.ts:267-372 | the moments the class passes through are exactly the steps of the events, from the first, and all of them are sound |

## Left out

- SHA-256, NFC normalisation and the conversion of a number literal to a double are parameters; the proofs use that the hash does not collide and that the conversion is exact on safe integers.
- Array holes, getters and prototypes of JavaScript values: a value is a tree; keys that JavaScript would order specially are refused by the codec anyway. The codec's different errors are one refusal.
- JsonValue.SameIffNormal: negative zero is modelled; it prints as 0 and reads back as 0, so equality up to key order ignores the sign of zero.
- EpochFence.StepKeepsInv: one promotion task, one clock for all timestamps; signatures, leases and the authority checks other than the epoch are outcomes of the environment.
- RunnerScripts.Runner.ExecuteDelayedTask: nobody but the runner pauses or resumes the queue, and no earlier call is still pending when the script starts; other actors may advance the epoch at any time. Steps that touch neither queue nor epoch are left out.
- Timeline.TimelinePages: an honest server returns full pages; tokens and HTTP are left out. The page checks of the response contract are part of the answer: a page that fails them is no answer.
- RawTimeline.RawTimeline: the runner does not compare an export's echoed command with its query, so neither does the model.
- ReplayChain.ValidateEvents: the checks of single event details, of date forms and of the payload outside its events are predicates; details' epochs are compared as values, which they are once validated.
- CoreAcceptance.BuildManifest: reading a file is a function from its binding to size, decoded result and observation check; the run-inputs digest is a parameter, and so is whether the encoder takes a manifest, which has a size limit. Type tests of JSON values hold by typing.
- ManifestWitness.WitnessDecided: the digest of the run inputs is one fixed value for all the runs compared, and the encoder is taken to accept the manifest.
- HostedRun.ExecuteHosted: what a case does is its outcome; a result that fails its own validator ends the original run at once, here it is one that cannot be read, so that there is no manifest either.
- GrantRestore.FaultRun.CoordinatorToken: a policy is kept in normal form, nobody else writes it, and no effect comes after its call has ended.
- GrantRestore.FaultRun.ExecuteFaultSuite: scenarios that change neither policies nor traffic are their flags and outcome. Each scenario's own reset, canary and release of traffic are left out, so one traffic value runs through the suite, and "as it was" means as a scenario's drift found it.
- ReadyGate.ValidateKnownPayloads: each kind's field checks are one predicate, except the prepared bundle's; the core manifest's are proved in CoreManifestCheck. Git, tag and path checks are predicates.
- AssetCrawl.Crawl: HTML parsing, HTTP headers and body scanning give a path's asset or nothing; references are those the import pattern finds.
- Wilson.RatesOrdered: exact real arithmetic with a given square root; decimal rounding is left out.
- Console.RunConsole: the log is one target's; no full load overlaps a refresh, which the code does not rule out; what happens after a post, rendering and polling are left out. A call returns, or tries again, only after the operation it waited for is cleared, because its starter waits first.
- RevocationDialog.HandleAll: the form's handler runs only while the dialog shows it enabled, as its rendering arranges; looking an ambiguous revocation up in the timeline is its outcome.
- IdentityBridge.HandleAll: token parsing and the abort signal are left out.
- Settings, command lines, security-abuse, candidate-revision and release-evidence field checks, and all user interface rendering: each property there is settled by one branch.
