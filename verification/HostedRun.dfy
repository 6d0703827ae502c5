/**
 The hosted core run: cases in order until the first failure, every later case
 recorded as not run, and what that means for the manifest built from it.
 */
module HostedRun {
  import opened Option
  import opened Lists
  import opened AcceptanceTypes
  import opened CoreAcceptance

  const NOT_RUN := "ACCEPTANCE_NOT_RUN_AFTER_FAILURE"
  const DURATION_EXCEEDED := "ACCEPTANCE_HOSTED_CASE_DURATION_EXCEEDED"

  /** How a case's reset and flow end: with a terminal result, or with an error code. */
  datatype Ending = Finished(terminal: string) | Stopped(code: string, resetSucceeded: bool)

  /** One case's execution: wall-clock microseconds, and milliseconds on a monotonic clock. */
  datatype Attempt = Attempt(
    startedAt: nat, completedAt: nat, resetTime: nat, flowTime: nat, ending: Ending, failedAfter: nat)

  /** The result a case is recorded with. */
  datatype Record = Record(
    caseId: string, status: Status, observed: string, duration: nat, resetStep: Status, flowStep: Status)

  function Larger(a: int, b: int): int {
    if a >= b then a else b
  }

  /** Milliseconds a case took: the larger of the two clocks. */
  function Elapsed(a: Attempt): nat {
    Larger(a.resetTime + a.flowTime, (a.completedAt - a.startedAt) / 1_000)
  }

  /** What an attempt makes of its case: the failure code, if it failed. */
  function FailureOf(b: CaseBinding, a: Attempt): Option<string> {
    match a.ending
    case Stopped(code, _) => Some(code)
    case Finished(_) => if Elapsed(a) > b.maximumDuration then Some(DURATION_EXCEEDED) else None
  }

  /** What a case is recorded with once it was attempted. */
  function RanRecord(b: CaseBinding, a: Attempt): Record {
    match (FailureOf(b, a), a.ending)
    case (None, Finished(terminal)) => Record(b.caseId, Passed, terminal, Elapsed(a), Passed, Passed)
    case (Some(code), Finished(_)) => Record(b.caseId, Failed, code, a.failedAfter, Passed, Failed)
    case (_, Stopped(code, reset)) =>
      Record(b.caseId, Failed, code, a.failedAfter, if reset then Passed else Failed, Failed)
  }

  function NotRunRecord(b: CaseBinding): Record {
    Record(b.caseId, Failed, NOT_RUN, 0, Failed, Failed)
  }

  /** An attempt succeeds exactly when it finishes within the case's bound on both clocks. */
  lemma SucceedsMeans(b: CaseBinding, a: Attempt)
    ensures FailureOf(b, a) == None
       <==> && a.ending.Finished?
            && a.resetTime + a.flowTime <= b.maximumDuration
            && (a.completedAt - a.startedAt) / 1_000 <= b.maximumDuration
    ensures FailureOf(b, a) == None ==>
              && RanRecord(b, a).status == Passed && RanRecord(b, a).observed == a.ending.terminal
              && RanRecord(b, a).duration >= a.resetTime + a.flowTime
              && RanRecord(b, a).duration >= (a.completedAt - a.startedAt) / 1_000
              && RanRecord(b, a).duration in {a.resetTime + a.flowTime, (a.completedAt - a.startedAt) / 1_000}
              && RanRecord(b, a).resetStep == RanRecord(b, a).flowStep == Passed
  {
  }

  /** A failed case is recorded with its code, and the reset step as it went. */
  lemma FailsMeans(b: CaseBinding, a: Attempt)
    requires FailureOf(b, a).Some?
    ensures RanRecord(b, a).caseId == b.caseId && RanRecord(b, a).status == Failed
    ensures RanRecord(b, a).flowStep == Failed && RanRecord(b, a).duration == a.failedAfter
    ensures a.ending.Finished? ==>
              && RanRecord(b, a).observed == "ACCEPTANCE_HOSTED_CASE_DURATION_EXCEEDED"
              && RanRecord(b, a).resetStep == Passed
    ensures a.ending.Stopped? ==>
              && RanRecord(b, a).observed == a.ending.code
              && (RanRecord(b, a).resetStep == Passed <==> a.ending.resetSucceeded)
  {
  }

  /** The first case that fails, or the number of cases. */
  function FirstFailure(cases: seq<CaseBinding>, attempts: seq<Attempt>): (k: nat)
    requires |attempts| == |cases|
    ensures k <= |cases|
    ensures forall i :: 0 <= i < k ==> FailureOf(cases[i], attempts[i]) == None
    ensures k < |cases| ==> FailureOf(cases[k], attempts[k]).Some?
    decreases |cases|
  {
    if cases == [] then 0
    else
      var n := |cases| - 1;
      var before := FirstFailure(cases[..n], attempts[..n]);
      if before == n && FailureOf(cases[n], attempts[n]) == None then |cases| else before
  }

  /** It is the only such place. */
  lemma FirstFailureIs(cases: seq<CaseBinding>, attempts: seq<Attempt>, i: nat)
    requires |attempts| == |cases| && i <= |cases|
    requires forall j :: 0 <= j < i ==> FailureOf(cases[j], attempts[j]) == None
    requires i < |cases| ==> FailureOf(cases[i], attempts[i]).Some?
    ensures FirstFailure(cases, attempts) == i
  {
  }

  /** Up to and including case `k` what was run, after it nothing run. */
  ghost predicate Shape(records: seq<Record>, cases: seq<CaseBinding>, attempts: seq<Attempt>, k: nat)
    requires |attempts| == |cases|
  {
    && |records| == |cases|
    && forall i :: 0 <= i < |cases| ==>
         records[i] == if i <= k then RanRecord(cases[i], attempts[i]) else NotRunRecord(cases[i])
  }

  /** Run the cases in order and record exactly one result for each. */
  method ExecuteHosted(cases: seq<CaseBinding>, attempts: seq<Attempt>) returns (records: seq<Record>)
    requires |attempts| == |cases|
    ensures Shape(records, cases, attempts, FirstFailure(cases, attempts))
    ensures forall i :: FirstFailure(cases, attempts) < i < |cases| ==>
              records[i] == Record(cases[i].caseId, Failed, "ACCEPTANCE_NOT_RUN_AFTER_FAILURE", 0, Failed, Failed)
  {
    records := [];
    for i := 0 to |cases|
      invariant |records| == i
      invariant forall j :: 0 <= j < i ==> FailureOf(cases[j], attempts[j]) == None
      invariant forall j :: 0 <= j < i ==> records[j] == RanRecord(cases[j], attempts[j])
    {
      records := records + [RanRecord(cases[i], attempts[i])];
      if FailureOf(cases[i], attempts[i]).Some? {
        FirstFailureIs(cases, attempts, i);
        for s := i + 1 to |cases|
          invariant |records| == s
          invariant forall j :: 0 <= j < s ==>
                      records[j] == if j <= i then RanRecord(cases[j], attempts[j]) else NotRunRecord(cases[j])
        {
          records := records + [NotRunRecord(cases[s])];
        }
        return;
      }
    }
    FirstFailureIs(cases, attempts, |cases|);
  }

  /** Statuses alone tell the shape: passed exactly up to the first failure, and all passed only without one. */
  lemma StatusesTellShape(records: seq<Record>, cases: seq<CaseBinding>, attempts: seq<Attempt>)
    requires |attempts| == |cases| && Shape(records, cases, attempts, FirstFailure(cases, attempts))
    ensures forall i :: 0 <= i < |records| ==>
              (records[i].status == Passed <==> i < FirstFailure(cases, attempts))
    ensures (forall i :: 0 <= i < |records| ==> records[i].status == Passed)
       <==> FirstFailure(cases, attempts) == |cases|
  {
    var k := FirstFailure(cases, attempts);
    forall i | 0 <= i < |records|
      ensures records[i].status == Passed <==> i < k
    {
      RanStatus(cases[i], attempts[i]);
    }
  }

  lemma RanStatus(b: CaseBinding, a: Attempt)
    ensures RanRecord(b, a).status == Passed <==> FailureOf(b, a) == None
  {
  }

  /**
   The manifest built from a run whose first `k` cases passed, and no other, is
   passed exactly when that is all of them: the run's own duration and cost
   limits never decide it.
   */
  lemma ManifestPassedIffAllRan(spec: Spec, specSha: string, runInputs: string, f: Files, k: nat)
    requires Buildable(spec, runInputs, f) && k <= |spec.cases|
    requires forall i :: 0 <= i < |spec.cases| ==> (Results(spec.cases, f)[i].status == Passed <==> i < k)
    ensures ManifestOf(spec, specSha, runInputs, f).status == Passed <==> k == |spec.cases|
  {
    PassedCasesPass(spec, runInputs, f);
    assert k < |spec.cases| ==> Results(spec.cases, f)[k].status == Failed;
  }

  // ---- The whole run: cases, recorded results, manifest

  /** What writing the results leaves: the cases bound to their result files, and all files. */
  datatype Written = Written(cases: seq<CaseBinding>, files: Files)

  predicate CarriesRecord(r: CaseResult, record: Record) {
    && r.caseId == record.caseId && r.status == record.status && r.observed == record.observed
    && r.duration == record.duration && |r.steps| == 2
    && r.steps[0].status == record.resetStep && r.steps[1].status == record.flowStep
  }

  /** Only the result bindings are new, and a result that can be read carries its record. */
  ghost predicate Carries(w: Written, cases: seq<CaseBinding>, records: seq<Record>)
    requires |records| == |cases|
  {
    && |w.cases| == |cases|
    && forall i :: 0 <= i < |cases| ==>
         && w.cases[i] == cases[i].(result := w.cases[i].result)
         && (ReadResult(w.cases[i], w.files).Some? ==>
               CarriesRecord(ReadResult(w.cases[i], w.files).value, records[i]))
  }

  /** A run's manifest: its cases stand as they were recorded, and it is passed only if none failed. */
  ghost predicate TellsRun(m: Manifest, records: seq<Record>, passed: nat) {
    && |m.cases| == |records|
    && (forall i :: 0 <= i < |records| ==>
          m.cases[i].status == records[i].status && m.cases[i].observed == records[i].observed)
    && (m.status == Passed <==> passed == |records|)
  }

  lemma ResultsCarry(w: Written, cases: seq<CaseBinding>, records: seq<Record>)
    requires |records| == |cases| && Carries(w, cases, records) && ResultsReadable(w.cases, w.files)
    ensures forall i :: 0 <= i < |records| ==>
              && Results(w.cases, w.files)[i].status == records[i].status
              && Results(w.cases, w.files)[i].observed == records[i].observed
  {
    hide ResultValid;
  }

  lemma RecordsTellRun(
    spec: Spec, w: Written, specSha: string, runInputs: string, records: seq<Record>, passed: nat)
    requires |records| == |spec.cases| && Carries(w, spec.cases, records) && passed <= |records|
    requires forall i :: 0 <= i < |records| ==> (records[i].status == Passed <==> i < passed)
    requires Buildable(spec.(cases := w.cases), runInputs, w.files)
    ensures TellsRun(ManifestOf(spec.(cases := w.cases), specSha, runInputs, w.files), records, passed)
  {
    hide SpecValid, ResultValid, CaseBound, Sequential, Carries, Sum, Least, Greatest, AllEvidenceIds;
    CarriesCases(w, spec.cases, records);
    ResultsCarry(w, spec.cases, records);
    ManifestPassedIffAllRan(spec.(cases := w.cases), specSha, runInputs, w.files, passed);
  }

  lemma CarriesCases(w: Written, cases: seq<CaseBinding>, records: seq<Record>)
    requires |records| == |cases| && Carries(w, cases, records)
    ensures |w.cases| == |cases|
  {
  }

  /**
   A hosted run to its manifest: the cases in order, one recorded result each, and
   the manifest built from the files written. If there is one, it is passed exactly
   when no case failed. `write` is what writing the records leaves in the files.
   */
  method RunHosted(
    spec: Spec, specSha: string, runInputs: string, attempts: seq<Attempt>, write: seq<Record> -> Written,
    encodes: Manifest -> bool)
    returns (records: seq<Record>, m: Option<Manifest>)
    requires |attempts| == |spec.cases|
    requires forall records :: |records| == |spec.cases| ==> Carries(write(records), spec.cases, records)
    ensures Shape(records, spec.cases, attempts, FirstFailure(spec.cases, attempts))
    ensures var w := write(records); var final := spec.(cases := w.cases);
            m.Some? <==> && Buildable(final, runInputs, w.files)
                         && encodes(ManifestOf(final, specSha, runInputs, w.files))
    ensures m.Some? ==> TellsRun(m.value, records, FirstFailure(spec.cases, attempts))
  {
    hide Buildable, TellsRun, Carries;
    records := ExecuteHosted(spec.cases, attempts);
    var w := write(records);
    m := BuildManifest(spec.(cases := w.cases), specSha, runInputs, w.files, encodes);
    if m.Some? {
      StatusesTellShape(records, spec.cases, attempts);
      RecordsTellRun(spec, w, specSha, runInputs, records, FirstFailure(spec.cases, attempts));
    }
  }

  // ---- When a recorded duration passes the result's own validator

  /** Whole seconds between the recorded timestamps, in milliseconds. */
  function WholeSeconds(a: Attempt): int {
    (a.completedAt / 1_000_000 - a.startedAt / 1_000_000) * 1_000
  }

  predicate DurationAccepted(a: Attempt) {
    var elapsed := WholeSeconds(a);
    Larger(0, elapsed - 999) <= Elapsed(a) <= elapsed + 999
  }

  /** The part of a second an instant is into, in microseconds. */
  function Fraction(t: nat): nat {
    t % 1_000_000
  }

  /** The wall clock alone is within a second of the timestamps, and within 999 ms but for one case. */
  lemma WallClockWindow(a: Attempt)
    requires a.startedAt <= a.completedAt
    ensures var wall := (a.completedAt - a.startedAt) / 1_000;
            && WholeSeconds(a) - 1_000 <= wall <= WholeSeconds(a) + 999
            && (wall >= WholeSeconds(a) - 999 <==> Fraction(a.completedAt) + 999_000 >= Fraction(a.startedAt))
  {
    var c, s := a.completedAt, a.startedAt;
    var seconds := c / 1_000_000 - s / 1_000_000;
    assert c - s == 1_000_000 * seconds + Fraction(c) - Fraction(s);
  }

  /**
   A recorded duration is accepted exactly when the monotonic clock is not past
   the timestamps by a second and, unless it reaches that far, the instants are
   not more than 999 ms of a second apart backwards.
   */
  lemma DurationAcceptedIff(a: Attempt)
    requires a.startedAt <= a.completedAt
    ensures DurationAccepted(a)
       <==> && a.resetTime + a.flowTime <= WholeSeconds(a) + 999
            && (|| a.resetTime + a.flowTime >= WholeSeconds(a) - 999
                || Fraction(a.completedAt) + 999_000 >= Fraction(a.startedAt))
  {
    WallClockWindow(a);
  }

  /** Instants for which a correctly measured case is refused by one millisecond. */
  lemma RefusedByOneMillisecond(second: nat) returns (a: Attempt)
    ensures a.startedAt == second * 1_000_000 + 999_500 && a.completedAt == (second + 1) * 1_000_000
    ensures Elapsed(a) == WholeSeconds(a) - 1_000 && !DurationAccepted(a)
  {
    a := Attempt(second * 1_000_000 + 999_500, (second + 1) * 1_000_000, 0, 0, Finished(""), 0);
    assert a.startedAt / 1_000_000 == second && a.completedAt / 1_000_000 == second + 1;
  }
}
