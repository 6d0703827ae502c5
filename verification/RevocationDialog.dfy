/**
 The revocation dialog on its console: which handler may run when, why no request
 identity is ever posted twice, in whatever order the awaits of several handlers
 end, and what every posted revocation rests on.
 */
module RevocationDialog {
  import opened Option
  import opened Timeline
  import opened ConsoleReader
  import opened Authority
  import opened ConsoleSteps
  import opened Console

  datatype Status =
    | Idle
    | Preparing
    | Reviewing
    | Submitting
    | Committed
    | TimelineConfirmed
    | Superseded
    | Stale
    | Ambiguous
    | Denied
    | ReviewFailed

  /** How a submission ends: with the new epoch, or with one of the errors the dialog tells apart. */
  datatype Submission = Accepted(newEpoch: nat) | StaleOrConflict | Refused | Unknown

  datatype Resolution = Confirmed(epoch: nat) | SupersededBy(epoch: nat) | Pending

  /** What the dialog keeps; `issued` counts the identities made, `submitted` lists those handed on. */
  datatype Screen = Screen(
    status: Status, reviewed: Option<Reviewed>, requestIdentity: Option<nat>, result: Option<nat>,
    resolution: Option<Resolution>, issued: nat, submitted: seq<nat>)
  {
    predicate Open() {
      reviewed.Some? && status in {Reviewing, Submitting}
    }

    predicate CanSend() {
      Open() && status != Submitting && requestIdentity.Some?
    }

    /** A review may be opened on a live view whose authority has caught up with what was committed. */
    predicate CanRevoke(live: bool, authority: Option<Snapshot>) {
      && live && authority.Some?
      && status !in {Ambiguous, Preparing, Submitting}
      && !(status == Committed && result.Some? && authority.value.epoch < result.value)
      && !(status == TimelineConfirmed && resolution.Some? && resolution.value.Confirmed?
           && authority.value.epoch < resolution.value.epoch)
    }
  }

  const BLANK: Screen := Screen(Idle, None, None, None, None, 0, [])

  // ---- What each handler does to the screen

  function ReviewAsked(d: Screen): Screen {
    d.(status := Preparing, result := None, resolution := None)
  }

  /** A new identity for every review that opens the dialog. */
  function ReviewReady(d: Screen, r: Option<Reviewed>): Screen {
    if r == None then d.(status := ReviewFailed)
    else d.(status := Reviewing, reviewed := r, requestIdentity := Some(d.issued), issued := d.issued + 1)
  }

  function Closed(d: Screen): Screen {
    d.(status := Idle, reviewed := None)
  }

  function FormSent(d: Screen): Screen
    requires d.CanSend()
  {
    d.(status := Submitting, submitted := d.submitted + [d.requestIdentity.value])
  }

  /** A submission has ended, whatever the dialog shows by then. */
  function SubmissionEnded(d: Screen, outcome: Submission): Screen {
    match outcome
    case Accepted(newEpoch) => d.(result := Some(newEpoch), reviewed := None, status := Committed)
    case StaleOrConflict => d.(reviewed := None, status := Stale)
    case Refused => d.(reviewed := None, status := Denied)
    case Unknown => d.(status := Ambiguous)
  }

  /** A check of an ambiguous submission against the timeline has ended. */
  function CheckEnded(d: Screen, r: Option<Resolution>): Screen {
    match r
    case None => d.(status := Ambiguous)
    case Some(Confirmed(_)) => d.(resolution := r, status := TimelineConfirmed, reviewed := None)
    case Some(SupersededBy(_)) => d.(resolution := r, status := Superseded, reviewed := None)
    case Some(Pending) => d.(resolution := r)
  }

  /** No identity was submitted twice, and the one on a form being reviewed not yet. */
  ghost predicate ScreenValid(d: Screen) {
    && (forall i, j :: 0 <= i < j < |d.submitted| ==> d.submitted[i] != d.submitted[j])
    && (forall i :: 0 <= i < |d.submitted| ==> d.submitted[i] < d.issued)
    && (d.requestIdentity.Some? ==> d.requestIdentity.value < d.issued)
    && (d.status == Reviewing ==> d.requestIdentity.Some? && d.requestIdentity.value !in d.submitted)
  }

  /** A review is not opened while one is prepared or sent, in doubt, or behind what is known to be committed. */
  lemma RevokeMeans(d: Screen, live: bool, authority: Option<Snapshot>)
    ensures d.CanRevoke(live, authority)
       <==> && live && authority.Some?
            && d.status != Ambiguous && d.status != Preparing && d.status != Submitting
            && (d.status == Committed && d.result.Some? ==> authority.value.epoch >= d.result.value)
            && (d.status == TimelineConfirmed ==>
                  match d.resolution
                  case Some(Confirmed(epoch)) => authority.value.epoch >= epoch
                  case _ => true)
    ensures d.CanSend() <==> d.status == Reviewing && d.reviewed.Some? && d.requestIdentity.Some?
  {
  }

  class Dialog {
    var status: Status
    var reviewed: Option<Reviewed>
    var requestIdentity: Option<nat>
    var result: Option<nat>
    var resolution: Option<Resolution>
    var issued: nat
    var submitted: seq<nat>

    constructor ()
      ensures Now() == BLANK
    {
      status, reviewed, requestIdentity, result, resolution := Idle, None, None, None, None;
      issued, submitted := 0, [];
    }

    function Now(): Screen
      reads this
    {
      Screen(status, reviewed, requestIdentity, result, resolution, issued, submitted)
    }

    method AskReview()
      modifies this`status, this`result, this`resolution
      ensures Now() == ReviewAsked(old(Now()))
      ensures status == Preparing && result == None && resolution == None
    {
      status, result, resolution := Preparing, None, None;
    }

    method ShowReview(r: Option<Reviewed>)
      modifies this`status, this`reviewed, this`requestIdentity, this`issued
      ensures Now() == ReviewReady(old(Now()), r)
      ensures r == None ==>
                && status == ReviewFailed && issued == old(issued)
                && reviewed == old(reviewed) && requestIdentity == old(requestIdentity)
      ensures r.Some? ==>
                && status == Reviewing && reviewed == r
                && requestIdentity == Some(old(issued)) && issued == old(issued) + 1
    {
      if r == None {
        status := ReviewFailed;
        return;
      }
      reviewed, requestIdentity := r, Some(issued);
      issued := issued + 1;
      status := Reviewing;
    }

    method Close()
      requires Now().Open() && status != Submitting
      modifies this`status, this`reviewed
      ensures Now() == Closed(old(Now()))
      ensures status == Idle && reviewed == None
    {
      status, reviewed := Idle, None;
    }

    /** The dialog's form, which is shown and enabled only while reviewing. */
    method Submit() returns (identity: nat)
      requires ScreenValid(Now()) && Now().CanSend()
      modifies this`status, this`submitted
      ensures ScreenValid(Now()) && Now() == FormSent(old(Now()))
      ensures Some(identity) == requestIdentity && identity !in old(submitted)
      ensures status == Submitting && submitted == old(submitted) + [identity]
    {
      status := Submitting;
      submitted := submitted + [requestIdentity.value];
      return requestIdentity.value;
    }

    method EndSubmission(outcome: Submission)
      modifies this`status, this`reviewed, this`result
      ensures Now() == SubmissionEnded(old(Now()), outcome)
      ensures match outcome
              case Accepted(newEpoch) => status == Committed && result == Some(newEpoch) && reviewed == None
              case StaleOrConflict => status == Stale && result == old(result) && reviewed == None
              case Refused => status == Denied && result == old(result) && reviewed == None
              case Unknown => status == Ambiguous && result == old(result) && reviewed == old(reviewed)
    {
      match outcome
      case Accepted(newEpoch) => result, reviewed, status := Some(newEpoch), None, Committed;
      case StaleOrConflict => reviewed, status := None, Stale;
      case Refused => reviewed, status := None, Denied;
      case Unknown => status := Ambiguous;
    }

    method EndCheck(r: Option<Resolution>)
      modifies this`status, this`reviewed, this`resolution
      ensures Now() == CheckEnded(old(Now()), r)
      ensures match r
              case None => status == Ambiguous && reviewed == old(reviewed) && resolution == old(resolution)
              case Some(Confirmed(_)) => status == TimelineConfirmed && reviewed == None && resolution == r
              case Some(SupersededBy(_)) => status == Superseded && reviewed == None && resolution == r
              case Some(Pending) => status == old(status) && reviewed == old(reviewed) && resolution == r
    {
      if r == None {
        status := Ambiguous;
        return;
      }
      resolution := r;
      match r.value
      case Confirmed(_) => status, reviewed := TimelineConfirmed, None;
      case SupersededBy(_) => status, reviewed := Superseded, None;
      case Pending =>
    }
  }

  // ---- Dialog and console together

  /** What one handler or the end of one await does, or something else to the console. */
  datatype Event =
    | Elsewhere(happening: Happening)
    | Open(live: bool)
    | Ready(review: nat)
    | Cancel
    | Send(reasonValid: bool, confirmed: bool)
    | Decided(revocation: nat, error: Submission)
    | Sent(outcome: Submission)
    | Checked(checked: Option<Resolution>)

  datatype Both = Both(screen: Screen, console: State)

  /** Only the dialog asks for reviews and revocations. */
  predicate Background(h: Happening) {
    h.CallBegins? || h.CallResumes? || h.OperationEnds? || h.OperationCleared? || h.FullLoad?
  }

  /** What was shown for review, without the operation that showed it. */
  function ReviewShown(read: Option<FreshRead>): Option<Reviewed> {
    if read == None then None else Some(read.value.reviewed)
  }

  /** How the dialog learns of a revocation that was not posted: its own read failed, or showed something else. */
  function NotPosted(s: State, k: nat, error: Submission): Submission
    requires k < |s.revocations| && s.revocations[k].call < |s.calls|
  {
    if CurrentReview(s, s.revocations[k].call).Some? then StaleOrConflict
    else if error.Accepted? then Unknown else error
  }

  /** One event, with the log as its last read found it; an event that cannot take place changes nothing. */
  function Handled(of: AuthorityOf, b: Both, e: Event, log: seq<Entry>): Both {
    var d, s := b.screen, b.console;
    match e
    case Elsewhere(h) => if Background(h) then Both(d, Step(of, s, h, log)) else b
    case Open(live) =>
      if d.CanRevoke(live, DeriveAuthority(of, s.entries)) && !d.Open()
      then Both(ReviewAsked(d), ReviewBegun(s)) else b
    case Ready(k) =>
      if ReviewCanEnd(s, k)
      then Both(ReviewReady(d, ReviewShown(CurrentReview(s, s.reviews[k].call))), ReviewEnded(s, k)) else b
    case Cancel => if d.Open() && d.status != Submitting then Both(Closed(d), s) else b
    case Send(reasonValid, confirmed) =>
      if d.CanSend() && reasonValid && confirmed
      then Both(FormSent(d), RevocationBegun(s, d.reviewed.value, d.requestIdentity.value)) else b
    case Decided(k, error) =>
      if !RevocationCanEnd(s, k) then b
      else if LetsGo(s, k) then Both(d, RevocationEnded(s, k))
      else Both(SubmissionEnded(d, NotPosted(s, k, error)), RevocationEnded(s, k))
    case Sent(outcome) => Both(SubmissionEnded(d, outcome), s)
    case Checked(r) => Both(CheckEnded(d, r), s)
  }

  // ---- What a posted revocation rests on

  /** Review `r` showed what was reviewed, by an operation that was over by then. */
  ghost predicate ReviewOf(reviews: seq<Review>, r: nat, reviewed: Reviewed, over: nat) {
    && r < |reviews| && reviews[r].result.Some?
    && reviews[r].result.value.reviewed == reviewed && reviews[r].result.value.operation < over
  }

  ghost predicate WasReviewed(reviews: seq<Review>, reviewed: Reviewed, over: nat) {
    exists r: nat :: ReviewOf(reviews, r, reviewed, over)
  }

  /** Every revocation asked for is of something reviewed before. */
  ghost predicate AllReviewed(revocations: seq<Revocation>, reviews: seq<Review>) {
    forall k :: 0 <= k < |revocations| ==>
      WasReviewed(reviews, revocations[k].reviewed, revocations[k].operationsOver)
  }

  /** Revocations are asked for under the identities submitted, in order. */
  ghost predicate Submitted(revocations: seq<Revocation>, submitted: seq<nat>) {
    && |revocations| == |submitted|
    && forall k :: 0 <= k < |revocations| ==> revocations[k].requestId == submitted[k]
  }

  /** Dialog and console agree on what was reviewed and what was submitted. */
  ghost predicate Together(of: AuthorityOf, b: Both, log: seq<Entry>) {
    && Consistent(of, b.console, log)
    && ScreenValid(b.screen)
    && Submitted(b.console.revocations, b.screen.submitted)
    && AllReviewed(b.console.revocations, b.console.reviews)
    && (b.screen.reviewed.Some? ==>
          WasReviewed(b.console.reviews, b.screen.reviewed.value, b.console.Over()))
  }

  /** Reviews that showed something are not taken back. */
  ghost predicate ReviewsKept(before: seq<Review>, after: seq<Review>) {
    |before| <= |after| && forall r :: 0 <= r < |before| && before[r].result.Some? ==> after[r] == before[r]
  }

  lemma WasReviewedKept(before: seq<Review>, after: seq<Review>, reviewed: Reviewed, over: nat, later: nat)
    requires WasReviewed(before, reviewed, over) && ReviewsKept(before, after) && over <= later
    ensures WasReviewed(after, reviewed, later)
  {
    var r: nat :| ReviewOf(before, r, reviewed, over);
    assert ReviewOf(after, r, reviewed, later);
  }

  lemma AllReviewedKept(revocations: seq<Revocation>, before: seq<Review>, after: seq<Review>)
    requires AllReviewed(revocations, before) && ReviewsKept(before, after)
    ensures AllReviewed(revocations, after)
  {
    forall k | 0 <= k < |revocations|
      ensures WasReviewed(after, revocations[k].reviewed, revocations[k].operationsOver)
    {
      WasReviewedKept(
        before, after, revocations[k].reviewed, revocations[k].operationsOver, revocations[k].operationsOver);
    }
  }

  /** What the dialog relies on survives any step that asks for no revocation. */
  lemma ConsoleKeeps(of: AuthorityOf, b: Both, s: State, before: seq<Entry>, log: seq<Entry>)
    requires Together(of, b, before) && Consistent(of, s, log)
    requires ReviewsKept(b.console.reviews, s.reviews) && b.console.Over() <= s.Over()
    requires |s.revocations| == |b.console.revocations|
    requires forall k :: 0 <= k < |s.revocations| ==>
               s.revocations[k].(ended := true) == b.console.revocations[k].(ended := true)
    ensures Together(of, Both(b.screen, s), log)
  {
    hide Consistent, ScreenValid;
    AllReviewedKept(b.console.revocations, b.console.reviews, s.reviews);
    if b.screen.reviewed.Some? {
      WasReviewedKept(b.console.reviews, s.reviews, b.screen.reviewed.value, b.console.Over(), s.Over());
    }
  }

  lemma BackgroundKeeps(of: AuthorityOf, b: Both, h: Happening, before: seq<Entry>, log: seq<Entry>)
    requires Together(of, b, before) && Background(h) && before <= log && IsLog(log)
    ensures Together(of, Both(b.screen, Step(of, b.console, h, log)), log)
  {
    StepKeeps(of, b.console, h, before, log);
    StepGrows(of, b.console, h, before, log);
    hide Consistent, Together;
    ConsoleKeeps(of, b, Step(of, b.console, h, log), before, log);
  }

  lemma OpenKeeps(of: AuthorityOf, b: Both, log: seq<Entry>)
    requires Together(of, b, log)
    ensures Together(of, Both(ReviewAsked(b.screen), ReviewBegun(b.console)), log)
  {
    ReviewBegunKeeps(of, b.console, log);
    ConsoleKeeps(of, b, ReviewBegun(b.console), log, log);
    hide Consistent, AllReviewed, WasReviewed;
  }

  lemma ReadyKeeps(of: AuthorityOf, b: Both, k: nat, log: seq<Entry>)
    requires Together(of, b, log) && ReviewCanEnd(b.console, k)
    ensures var shown := ReviewShown(CurrentReview(b.console, b.console.reviews[k].call));
            Together(of, Both(ReviewReady(b.screen, shown), ReviewEnded(b.console, k)), log)
  {
    var s, call := b.console, b.console.reviews[k].call;
    ReviewEndedKeeps(of, s, k, log);
    assert AsksFresh(s.calls, call);
    if CurrentReview(s, call).Some? {
      ReviewReads(of, s, call, log);
      assert ReviewOf(ReviewEnded(s, k).reviews, k, CurrentReview(s, call).value.reviewed, s.Over());
    }
    ConsoleKeeps(of, b, ReviewEnded(s, k), log, log);
    hide Consistent, AllReviewed, CurrentReview, ReviewsTrue;
  }

  lemma SendKeeps(of: AuthorityOf, b: Both, log: seq<Entry>)
    requires Together(of, b, log) && b.screen.CanSend()
    ensures Together(
              of, Both(
                FormSent(b.screen),
                RevocationBegun(b.console, b.screen.reviewed.value, b.screen.requestIdentity.value)), log)
  {
    var d, s := b.screen, b.console;
    var t := RevocationBegun(s, d.reviewed.value, d.requestIdentity.value);
    RevocationBegunKeeps(of, s, d.reviewed.value, d.requestIdentity.value, log);
    hide Consistent, WasReviewed;
    AllReviewedSnoc(s.revocations, t.revocations[|s.revocations|], s.reviews);
  }

  lemma AllReviewedSnoc(revocations: seq<Revocation>, v: Revocation, reviews: seq<Review>)
    requires AllReviewed(revocations, reviews) && WasReviewed(reviews, v.reviewed, v.operationsOver)
    ensures AllReviewed(revocations + [v], reviews)
  {
  }

  lemma DecidedKeeps(of: AuthorityOf, b: Both, k: nat, log: seq<Entry>)
    requires Together(of, b, log) && RevocationCanEnd(b.console, k)
    ensures Together(of, Both(b.screen, RevocationEnded(b.console, k)), log)
  {
    RevocationEndedKeeps(of, b.console, k, log);
    hide Consistent, Together, LetsGo, CurrentReview;
    ConsoleKeeps(of, b, RevocationEnded(b.console, k), log, log);
  }

  /** Handlers that only change what the dialog shows keep what they agree on. */
  lemma ScreenKeeps(of: AuthorityOf, b: Both, d: Screen, log: seq<Entry>)
    requires Together(of, b, log) && d.submitted == b.screen.submitted && d.issued == b.screen.issued
    requires d.requestIdentity == b.screen.requestIdentity && (d.status == Reviewing ==> b.screen.status == Reviewing)
    requires d.reviewed == None || d.reviewed == b.screen.reviewed
    ensures Together(of, Both(d, b.console), log)
  {
    hide Consistent, AllReviewed, WasReviewed, Submitted;
  }

  lemma ClosedKeeps(of: AuthorityOf, b: Both, log: seq<Entry>)
    requires Together(of, b, log)
    ensures Together(of, Both(Closed(b.screen), b.console), log)
  {
    hide Together;
    ScreenKeeps(of, b, Closed(b.screen), log);
  }

  lemma SubmissionKeeps(of: AuthorityOf, b: Both, outcome: Submission, log: seq<Entry>)
    requires Together(of, b, log)
    ensures Together(of, Both(SubmissionEnded(b.screen, outcome), b.console), log)
  {
    hide Together;
    ScreenKeeps(of, b, SubmissionEnded(b.screen, outcome), log);
  }

  lemma CheckKeeps(of: AuthorityOf, b: Both, r: Option<Resolution>, log: seq<Entry>)
    requires Together(of, b, log)
    ensures Together(of, Both(CheckEnded(b.screen, r), b.console), log)
  {
    hide Together;
    ScreenKeeps(of, b, CheckEnded(b.screen, r), log);
  }

  lemma HandledKeeps(of: AuthorityOf, b: Both, e: Event, before: seq<Entry>, log: seq<Entry>)
    requires Together(of, b, before) && before <= log && IsLog(log)
    ensures Together(of, Handled(of, b, e, log), log)
  {
    TogetherGrows(of, b, before, log);
    hide Consistent, Together, DeriveAuthority, LetsGo, CurrentReview, Step;
    hide ReviewAsked, ReviewReady, FormSent, Closed, SubmissionEnded, CheckEnded;
    hide ReviewBegun, ReviewEnded, RevocationBegun, RevocationEnded, NotPosted;
    match e
    case Elsewhere(h) =>
      if Background(h) {
        BackgroundKeeps(of, b, h, before, log);
      }
    case Open(_) => OpenKeeps(of, b, log);
    case Ready(k) =>
      if ReviewCanEnd(b.console, k) {
        ReadyKeeps(of, b, k, log);
      }
    case Cancel => ClosedKeeps(of, b, log);
    case Send(_, _) =>
      if b.screen.CanSend() {
        SendKeeps(of, b, log);
      }
    case Decided(k, error) =>
      if RevocationCanEnd(b.console, k) {
        DecidedKeeps(of, b, k, log);
        if !LetsGo(b.console, k) {
          SubmissionKeeps(of, Both(b.screen, RevocationEnded(b.console, k)), NotPosted(b.console, k, error), log);
        }
      }
    case Sent(outcome) => SubmissionKeeps(of, b, outcome, log);
    case Checked(r) => CheckKeeps(of, b, r, log);
  }

  // ---- Whole runs

  /** The states of dialog and console through a run, from the first. */
  function Course(of: AuthorityOf, events: seq<Event>, logs: seq<seq<Entry>>): (course: seq<Both>)
    requires |logs| == |events|
    ensures |course| == |events| + 1
    decreases |events|
  {
    if events == [] then [Both(BLANK, INITIAL)]
    else
      var n := |events| - 1;
      var before := Course(of, events[..n], logs[..n]);
      before + [Handled(of, before[n], events[n], logs[n])]
  }

  function RequestOf(s: State, k: nat): nat
    requires k < |s.posts| && s.posts[k].revocation < |s.revocations|
  {
    s.revocations[s.posts[k].revocation].requestId
  }

  /** Each identity is posted at most once. */
  ghost predicate RequestsDiffer(s: State) {
    && (forall k :: 0 <= k < |s.posts| ==> s.posts[k].revocation < |s.revocations|)
    && forall j, k :: 0 <= j < k < |s.posts| ==> RequestOf(s, j) != RequestOf(s, k)
  }

  lemma IdentitiesDiffer(of: AuthorityOf, b: Both, log: seq<Entry>)
    requires Together(of, b, log)
    ensures RequestsDiffer(b.console)
  {
    var s := b.console;
    forall k | 0 <= k < |s.posts|
      ensures s.posts[k].revocation < |s.revocations|
    {
      assert PostTrue(s.posts[k], s.revocations, s.operations);
    }
    hide AnswersTrue, ReviewsTrue, RevocationsTrue, Shows, CallsServed;
    forall j, k | 0 <= j < k < |s.posts|
      ensures RequestOf(s, j) != RequestOf(s, k)
    {
      assert s.posts[j].revocation != s.posts[k].revocation;
    }
  }

  /**
   In every run of dialog and console, any handlers and any ends of awaits in any
   order over a log that only grows: at every moment each request identity has been
   posted at most once, and every revocation asked for is of something a finished
   fresh read had shown for review.
   */
  lemma {:induction false} CourseIsSafe(of: AuthorityOf, events: seq<Event>, logs: seq<seq<Entry>>, n: nat)
    requires |logs| == |events| && Grows(logs) && n <= |events|
    ensures Together(of, Course(of, events, logs)[n], LogBefore(logs, n))
    ensures RequestsDiffer(Course(of, events, logs)[n].console)
    decreases |events|, n
  {
    hide Together, Handled, RequestsDiffer;
    var course, m := Course(of, events, logs), |events|;
    if n < m {
      CourseIsSafe(of, events[..m - 1], logs[..m - 1], n);
      assert LogBefore(logs[..m - 1], n) == LogBefore(logs, n);
    } else if m == 0 {
      BlankTogether(of);
      IdentitiesDiffer(of, course[0], []);
    } else {
      CourseIsSafe(of, events, logs, m - 1);
      assert m > 1 ==> logs[m - 2] <= logs[m - 1];
      assert course[m] == Handled(of, course[m - 1], events[m - 1], logs[m - 1]);
      HandledKeeps(of, course[m - 1], events[m - 1], LogBefore(logs, m - 1), logs[m - 1]);
      IdentitiesDiffer(of, course[m], logs[m - 1]);
    }
  }

  lemma BlankTogether(of: AuthorityOf)
    ensures Together(of, Both(BLANK, INITIAL), [])
  {
    InitialConsistent(of);
    hide Consistent;
  }

  ghost predicate AreNow(dialog: Dialog, console: OperatorConsole, b: Both)
    reads dialog, console
  {
    dialog.Now() == b.screen && console.Now() == b.console
  }

  /** One event on the dialog and console as the code keeps them is one step of both. */
  method Handle(
    dialog: Dialog, console: OperatorConsole, e: Event, server: Server, read: nat,
    ghost b: Both, ghost logs: nat -> seq<Entry>)
    returns (ghost lastRead: nat)
    requires Honest(server, logs) && AreNow(dialog, console, b) && Together(console.authorityOf, b, logs(read))
    modifies dialog, console
    ensures read <= lastRead < read + MAX_PAGE_READS
    ensures AreNow(dialog, console, Handled(console.authorityOf, b, e, logs(lastRead)))
  {
    lastRead := read;
    hide Consistent, DeriveAuthority, LetsGo, CurrentReview, AllReviewed, Submitted, WasReviewed, Step, Background;
    hide ReviewAsked, ReviewReady, FormSent, Closed, SubmissionEnded, CheckEnded;
    hide ReviewBegun, ReviewEnded, RevocationBegun, RevocationEnded, NotPosted, Honest;
    match e {
      case Elsewhere(h) =>
        if Background(h) {
          lastRead := console.TakePlace(h, server, read, logs);
        }
      case Open(live) =>
        if dialog.Now().CanRevoke(live, DeriveAuthority(console.authorityOf, console.entries)) && !dialog.Now().Open() {
          dialog.AskReview();
          var _ := console.BeginReview(logs(read));
        }
      case Ready(k) =>
        if ReviewCanEnd(console.Now(), k) {
          var shown := console.EndReview(k, logs(read));
          dialog.ShowReview(ReviewShown(shown));
        }
      case Cancel =>
        if dialog.Now().Open() && dialog.status != Submitting {
          dialog.Close();
        }
      case Send(reasonValid, confirmed) =>
        if dialog.Now().CanSend() && reasonValid && confirmed {
          var identity := dialog.Submit();
          var _ := console.BeginRevocation(dialog.reviewed.value, identity, logs(read));
        }
      case Decided(k, error) =>
        if RevocationCanEnd(console.Now(), k) {
          var outcome := NotPosted(console.Now(), k, error);
          var posted := console.EndRevocation(k, logs(read));
          if !posted {
            dialog.EndSubmission(outcome);
          }
        }
      case Sent(outcome) => dialog.EndSubmission(outcome);
      case Checked(checked) => dialog.EndCheck(checked);
    }
  }

  /** One event, and the log known to grow until the next one's first read. */
  method Advance(
    dialog: Dialog, console: OperatorConsole, e: Event, server: Server, read: nat,
    ghost b: Both, ghost logs: nat -> seq<Entry>)
    returns (ghost lastRead: nat)
    requires Honest(server, logs) && AreNow(dialog, console, b) && Together(console.authorityOf, b, logs(read))
    modifies dialog, console
    ensures read <= lastRead < read + MAX_PAGE_READS
    ensures AreNow(dialog, console, Handled(console.authorityOf, b, e, logs(lastRead)))
    ensures Together(
              console.authorityOf, Handled(console.authorityOf, b, e, logs(lastRead)), logs(read + MAX_PAGE_READS))
  {
    hide Together, Handled;
    lastRead := Handle(dialog, console, e, server, read, b, logs);
    Grown(logs, read, lastRead);
    Grown(logs, lastRead, read + MAX_PAGE_READS);
    HandledKeeps(console.authorityOf, b, e, logs(read), logs(lastRead));
    TogetherGrows(
      console.authorityOf, Handled(console.authorityOf, b, e, logs(lastRead)),
      logs(lastRead), logs(read + MAX_PAGE_READS));
  }

  ghost predicate AllSafe(of: AuthorityOf, course: seq<Both>, seen: seq<seq<Entry>>)
    requires |course| == |seen| + 1
  {
    forall n :: 0 <= n < |course| ==> Together(of, course[n], LogBefore(seen, n)) && RequestsDiffer(course[n].console)
  }

  lemma CourseAllSafe(of: AuthorityOf, events: seq<Event>, seen: seq<seq<Entry>>)
    requires |seen| == |events| && Grows(seen)
    ensures AllSafe(of, Course(of, events, seen), seen)
  {
    hide Together, RequestsDiffer;
    forall n | 0 <= n <= |events|
      ensures Together(of, Course(of, events, seen)[n], LogBefore(seen, n))
      ensures RequestsDiffer(Course(of, events, seen)[n].console)
    {
      CourseIsSafe(of, events, seen, n);
    }
  }

  /** The steps of the events in order over a growing log, as some reads of it found it; and all are safe. */
  ghost predicate CourseOf(course: seq<Both>, of: AuthorityOf, events: seq<Event>, logs: nat -> seq<Entry>) {
    exists seen, readAt ::
      && SeenAt(seen, logs, readAt) && |seen| == |events|
      && course == Course(of, events, seen) && AllSafe(of, course, seen)
  }

  /**
   A whole run of dialog and console against an honest server whose log grows as
   it likes: the states it passes through are exactly the events' steps, from the
   first, so all of them are safe.
   */
  method HandleAll(server: Server, authorityOf: AuthorityOf, events: seq<Event>, ghost logs: nat -> seq<Entry>)
    returns (course: seq<Both>)
    requires Honest(server, logs)
    ensures CourseOf(course, authorityOf, events, logs)
  {
    hide Together, Handled, SeenAt, Before, Growing, AllSafe, Consistent;
    ghost var seen: seq<seq<Entry>>, readAt: seq<nat>;
    var console := new OperatorConsole(authorityOf);
    var dialog := new Dialog();
    course, seen, readAt := [Both(BLANK, INITIAL)], [], [];
    var read: nat := 0;
    RunStarts(server, authorityOf, logs);
    BlankTogether(authorityOf);
    TogetherGrows(authorityOf, course[0], [], logs(0));
    for n := 0 to |events|
      invariant |seen| == n && SeenAt(seen, logs, readAt) && Before(readAt, read)
      invariant course == Course(authorityOf, events[..n], seen)
      invariant AreNow(dialog, console, course[n]) && console.authorityOf == authorityOf
      invariant Together(authorityOf, course[n], logs(read))
    {
      ghost var last := Advance(dialog, console, events[n], server, read, course[n], logs);
      CourseSnoc(authorityOf, events, n, seen, logs(last));
      course := course + [Both(dialog.Now(), console.Now())];
      SeenSnoc(seen, logs, readAt, read, last, read + MAX_PAGE_READS);
      seen, readAt := seen + [logs(last)], readAt + [last];
      read := read + MAX_PAGE_READS;
    }
    assert events[..|events|] == events;
    SeenGrows(seen, logs, readAt);
    CourseAllSafe(authorityOf, events, seen);
  }

  lemma TogetherGrows(of: AuthorityOf, b: Both, log: seq<Entry>, now: seq<Entry>)
    requires Together(of, b, log) && log <= now && IsLog(now)
    ensures Together(of, b, now)
  {
    LogGrows(of, b.console, log, now);
    hide Consistent;
  }

  lemma CourseSnoc(of: AuthorityOf, events: seq<Event>, n: nat, seen: seq<seq<Entry>>, log: seq<Entry>)
    requires n < |events| && |seen| == n
    ensures Course(of, events[..n + 1], seen + [log])
         == Course(of, events[..n], seen) + [Handled(of, Course(of, events[..n], seen)[n], events[n], log)]
  {
    assert events[..n + 1][..n] == events[..n] && (seen + [log])[..n] == seen;
  }

  /**
   Behind every post of a run stands a review; and if the log records each root and
   epoch once, no authority event came between what that review showed and what
   the post's own read showed: the authority posted against is the reviewed one still.
   */
  lemma PostFollowsReview(of: AuthorityOf, b: Both, log: seq<Entry>, k: nat) returns (r: nat)
    requires Together(of, b, log) && k < |b.console.posts| && OncePerEpoch(of, log)
    ensures r < |b.console.reviews| && b.console.reviews[r].result.Some?
    ensures b.console.posts[k].revocation < |b.console.revocations|
    ensures var s := b.console; var read, later := s.reviews[r].result.value, s.posts[k].current;
            && read.reviewed == s.revocations[s.posts[k].revocation].reviewed == later.reviewed
            && read.operation < later.operation
            && ReadBy(s.operations, read) && ReadBy(s.operations, later)
            && NoneLogged(of, log, ShownBy(s, read), ShownBy(s, later))
  {
    var s := b.console;
    assert PostTrue(s.posts[k], s.revocations, s.operations);
    var v := s.revocations[s.posts[k].revocation];
    assert WasReviewed(s.reviews, v.reviewed, v.operationsOver);
    r :| ReviewOf(s.reviews, r, v.reviewed, v.operationsOver);
    NothingBetween(of, s, log, s.reviews[r].result.value, s.posts[k].current);
  }

  // ---- A run that posts

  /** Each moment of a run is one event on from the moment before. */
  lemma {:induction false} NextMoment(of: AuthorityOf, events: seq<Event>, logs: seq<seq<Entry>>, n: nat)
    requires |logs| == |events| && n < |events|
    ensures Course(of, events, logs)[0] == Both(BLANK, INITIAL)
    ensures Course(of, events, logs)[n + 1] == Handled(of, Course(of, events, logs)[n], events[n], logs[n])
    decreases |events|
  {
    hide Handled;
    var m := |events| - 1;
    if n < m {
      NextMoment(of, events[..m], logs[..m], n);
    } else if m > 0 {
      NextMoment(of, events[..m], logs[..m], m - 1);
    }
  }

  /** Load, open, review, send; and the operations the review and the revocation wait for. */
  function PostingEvents(session: Session): seq<Event> {
    [Elsewhere(FullLoad(session)), Open(true), Elsewhere(OperationEnds(session)), Elsewhere(OperationCleared), Ready(0),
     Send(true, true), Elsewhere(OperationEnds(session)), Elsewhere(OperationCleared), Decided(0, Unknown)]
  }

  /** The first entry up to the review, then both. */
  function PostingLogs(a: Snapshot, b: Snapshot): seq<seq<Entry>> {
    seq(9, n => if n < 5 then RepeatingLog(a, b)[..1] else RepeatingLog(a, b))
  }

  function Loaded(a: Snapshot, operator: Identity, target: string): State {
    var head := Cursor(1, Some("a"));
    INITIAL.(
      entries := [Entry(1, None, "a", a.rootId)], cursor := head, head := head,
      identity := Some(operator), target := Some(target))
  }

  lemma LoadedFirst(of: AuthorityOf, a: Snapshot, b: Snapshot, operator: Identity, target: string)
    requires of(RepeatingLog(a, b)[0]) == Some(a)
    ensures var session, log := Session(Some(operator), Some(target)), RepeatingLog(a, b)[..1];
            && Handled(of, Both(BLANK, INITIAL), Elsewhere(FullLoad(session)), log)
               == Both(BLANK, Loaded(a, operator, target))
            && Handled(of, Both(BLANK, Loaded(a, operator, target)), Open(true), log)
               == Both(ReviewAsked(BLANK), ReviewBegun(Loaded(a, operator, target)))
  {
    assert RepeatingLog(a, b)[..1] == [Entry(1, None, "a", a.rootId)];
    assert DeriveAuthority(of, RepeatingLog(a, b)[..1]) == Some(a);
  }

  lemma ReviewedNext(of: AuthorityOf, a: Snapshot, b: Snapshot, operator: Identity, target: string)
    requires of(RepeatingLog(a, b)[0]) == Some(a)
    ensures var session, log := Session(Some(operator), Some(target)), RepeatingLog(a, b)[..1];
            var begun := ReviewBegun(Loaded(a, operator, target));
            && begun.Running()
            && var ended := Finished(of, begun, session, log);
            && !ended.Running() && ReviewCanEnd(Cleared(ended), 0)
            && CurrentReview(Cleared(ended), Cleared(ended).reviews[0].call)
               == Some(FreshRead(0, Reviewed(a, target, operator)))
            && ReviewEnded(Cleared(ended), 0) == AfterReview(a, operator, target)
  {
    assert RepeatingLog(a, b)[..1] == [Entry(1, None, "a", a.rootId)];
    assert DeriveAuthority(of, RepeatingLog(a, b)[..1]) == Some(a);
  }

  function Reviewing1(a: Snapshot, operator: Identity, target: string): Screen {
    Screen(Reviewing, Some(Reviewed(a, target, operator)), Some(0), None, None, 1, [])
  }

  /** A run of dialog and console in which the reviewed revocation is posted, once, under its identity. */
  lemma PostingRun(of: AuthorityOf, a: Snapshot, b: Snapshot, operator: Identity, target: string)
    requires of(RepeatingLog(a, b)[0]) == Some(a) && of(RepeatingLog(a, b)[1]) == Some(b) && SameAuthority(a, b)
    ensures var last := Course(of, PostingEvents(Session(Some(operator), Some(target))), PostingLogs(a, b))[9];
            && last.console.posts == [Post(0, FreshRead(1, Reviewed(b, target, operator)))]
            && |last.console.revocations| == 1 && last.console.revocations[0].requestId == 0
            && last.screen.submitted == [0] && last.screen.status == Submitting
  {
    hide DeriveAuthority, CurrentReview, Course, Handled, RepeatingLog, AfterReview, Reviewing1, SameAuthority;
    var session := Session(Some(operator), Some(target));
    var events, logs := PostingEvents(session), PostingLogs(a, b);
    var course := Course(of, events, logs);
    forall n: nat | n < 9
      ensures course[n + 1] == Handled(of, course[n], events[n], logs[n])
    {
      NextMoment(of, events, logs, n);
    }
    NextMoment(of, events, logs, 0);
    ToReview(of, a, b, operator, target, course);
    FromReview(of, a, b, operator, target, course);
  }

  lemma ToReview(
    of: AuthorityOf, a: Snapshot, b: Snapshot, operator: Identity, target: string, course: seq<Both>)
    requires of(RepeatingLog(a, b)[0]) == Some(a) && |course| == 10 && course[0] == Both(BLANK, INITIAL)
    requires var events := PostingEvents(Session(Some(operator), Some(target)));
             forall n: nat :: n < 5 ==> course[n + 1] == Handled(of, course[n], events[n], RepeatingLog(a, b)[..1])
    ensures course[5] == Both(Reviewing1(a, operator, target), AfterReview(a, operator, target))
  {
    hide DeriveAuthority, CurrentReview, Loaded, ReviewBegun, ReviewEnded, Finished, AfterReview;
    var session, one := Session(Some(operator), Some(target)), RepeatingLog(a, b)[..1];
    var events := PostingEvents(session);
    LoadedFirst(of, a, b, operator, target);
    ReviewedNext(of, a, b, operator, target);
    var begun := ReviewBegun(Loaded(a, operator, target));
    assert course[1] == Handled(of, course[0], events[0], one);
    assert course[2] == Handled(of, course[1], events[1], one) == Both(ReviewAsked(BLANK), begun);
    assert course[3] == Handled(of, course[2], events[2], one)
                     == Both(ReviewAsked(BLANK), Finished(of, begun, session, one));
    assert course[4] == Handled(of, course[3], events[3], one);
    assert course[5] == Handled(of, course[4], events[4], one);
  }

  lemma FromReview(
    of: AuthorityOf, a: Snapshot, b: Snapshot, operator: Identity, target: string, course: seq<Both>)
    requires of(RepeatingLog(a, b)[0]) == Some(a) && of(RepeatingLog(a, b)[1]) == Some(b) && SameAuthority(a, b)
    requires |course| == 10
    requires course[5] == Both(Reviewing1(a, operator, target), AfterReview(a, operator, target))
    requires var events := PostingEvents(Session(Some(operator), Some(target)));
             forall n: nat :: 5 <= n < 9 ==> course[n + 1] == Handled(of, course[n], events[n], RepeatingLog(a, b))
    ensures course[9].console.posts == [Post(0, FreshRead(1, Reviewed(b, target, operator)))]
    ensures |course[9].console.revocations| == 1 && course[9].console.revocations[0].requestId == 0
    ensures course[9].screen.submitted == [0]
    ensures course[9].screen.status == Submitting
  {
    var session, both := Session(Some(operator), Some(target)), RepeatingLog(a, b);
    var events := PostingEvents(session);
    RevocationSteps(of, a, b, operator, target, 0);
    var begun := RevocationBegun(AfterReview(a, operator, target), Reviewed(a, target, operator), 0);
    var ended := Finished(of, begun, session, both);
    PostedNow(of, a, b, operator, target);
    hide DeriveAuthority, CurrentReview, RevocationBegun, RevocationEnded, Finished, AfterReview, LetsGo;
    assert course[6] == Handled(of, course[5], events[5], both) == Both(FormSent(course[5].screen), begun);
    assert course[7] == Handled(of, course[6], events[6], both) == Both(course[6].screen, ended);
    assert course[8] == Handled(of, course[7], events[7], both) == Both(course[6].screen, Cleared(ended));
    assert course[9] == Handled(of, course[8], events[8], both);
  }

  lemma PostedNow(of: AuthorityOf, a: Snapshot, b: Snapshot, operator: Identity, target: string)
    requires of(RepeatingLog(a, b)[0]) == Some(a) && of(RepeatingLog(a, b)[1]) == Some(b) && SameAuthority(a, b)
    ensures var begun := RevocationBegun(AfterReview(a, operator, target), Reviewed(a, target, operator), 0);
            && begun.Running()
            && var ended := Finished(of, begun, Session(Some(operator), Some(target)), RepeatingLog(a, b));
            && RevocationCanEnd(Cleared(ended), 0) && LetsGo(Cleared(ended), 0)
            && |RevocationEnded(Cleared(ended), 0).revocations| == 1
            && RevocationEnded(Cleared(ended), 0).revocations[0].requestId == 0
  {
    DerivedInTurn(of, a, b);
  }
}
