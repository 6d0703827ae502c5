/**
 The web console as a step system: what it shows of a growing log, its one
 refresh in flight, the reviews and revocations that wait for one, and the
 revocations it posts. A step is what runs between two awaits, or an operation
 that nothing else can disturb; steps happen in any order.
 */
module ConsoleSteps {
  import opened Option
  import opened Timeline
  import opened ConsoleReader
  import opened Authority

  /** How a refresh ends: with the authority it shows, or with an error. */
  datatype Outcome = Answer(authority: Option<Snapshot>, shown: nat) | Error

  datatype Operation = Operation(isFresh: bool, settled: Option<Outcome>)

  /** A call of `refresh`: it waits for an operation's result, or for one to end before trying again. */
  datatype Call = Joined(isFresh: bool, operation: nat) | Awaiting(operation: nat)

  /** Who is signed in. */
  datatype Identity = Identity(principal: string, subject: string)

  /** What a sign-in and the pages read after it give: an operator, and the one target all pages name. */
  datatype Session = Session(identity: Option<Identity>, target: Option<string>)

  /** What the operator reviewed: the authority, of which target, and as whom. */
  datatype Reviewed = Reviewed(authority: Snapshot, target: string, identity: Identity)

  predicate Matches(current: Reviewed, reviewed: Reviewed) {
    && SameAuthority(current.authority, reviewed.authority)
    && current.target == reviewed.target && current.identity == reviewed.identity
  }

  /** What a fresh operation's answer showed to the review that waited for it. */
  datatype FreshRead = FreshRead(operation: nat, reviewed: Reviewed)

  /** One call of `reviewAuthority`, and what it returned. */
  datatype Review = Review(call: nat, ended: bool, result: Option<FreshRead>)

  /** One call of `revokeReviewed`, and how many operations were over when it was made. */
  datatype Revocation = Revocation(call: nat, reviewed: Reviewed, requestId: nat, operationsOver: nat, ended: bool)

  /** A revocation sent to the server, and the fresh read that let it go. */
  datatype Post = Post(revocation: nat, current: FreshRead)

  datatype State = State(
    entries: seq<Entry>, cursor: Cursor, head: Cursor, identity: Option<Identity>, target: Option<string>,
    inFlight: Option<nat>, inFlightIsFresh: bool, operations: seq<Operation>, calls: seq<Call>,
    reviews: seq<Review>, revocations: seq<Revocation>, posts: seq<Post>)
  {
    /** How many operations are over: settled, and cleared by their starters. */
    function Over(): nat {
      if inFlight.Some? then inFlight.value else |operations|
    }

    /** The operation in flight has not settled. */
    predicate Running() {
      inFlight.Some? && inFlight.value < |operations| && operations[inFlight.value].settled == None
    }

    /** The operation a call of `refresh` joined is over. */
    predicate CallOver(call: nat)
      requires call < |calls|
    {
      calls[call].Joined? && calls[call].operation < Over() && calls[call].operation < |operations|
    }
  }

  const INITIAL: State := State([], ORIGIN, ORIGIN, None, None, None, false, [], [], [], [], [])

  // ---- The steps

  datatype Happening =
    | CallBegins(isFresh: bool)
    | CallResumes(call: nat)
    | OperationEnds(session: Session)
    | OperationCleared
    | FullLoad(loaded: Session)
    | ReviewBegins
    | ReviewEnds(review: nat)
    | RevocationBegins(reviewed: Reviewed, requestId: nat)
    | RevocationEnds(revocation: nat)

  /** The call a `refresh` becomes: it joins the operation in flight, waits for it to end, or starts one. */
  function Entering(s: State, isFresh: bool): Call {
    if s.inFlight.Some? then
      if !isFresh || s.inFlightIsFresh then Joined(isFresh, s.inFlight.value) else Awaiting(s.inFlight.value)
    else Joined(isFresh, |s.operations|)
  }

  function Entered(s: State, isFresh: bool): State {
    if s.inFlight.Some? then s
    else s.(
        inFlight := Some(|s.operations|), inFlightIsFresh := isFresh,
        operations := s.operations + [Operation(isFresh, None)])
  }

  function Called(s: State, isFresh: bool): State {
    Entered(s, isFresh).(calls := s.calls + [Entering(s, isFresh)])
  }

  /** A call that waited for a stale operation to be over tries again, still fresh. */
  function Resumed(s: State, call: nat): State
    requires call < |s.calls|
  {
    Entered(s, true).(calls := s.calls[call := Entering(s, true)])
  }

  function Settled(s: State, outcome: Outcome): State
    requires s.Running()
  {
    var i := s.inFlight.value;
    s.(operations := s.operations[i := s.operations[i].(settled := Some(outcome))])
  }

  /** The view of a whole log, as a session read it. */
  function Viewing(s: State, session: Session, log: seq<Entry>): State {
    s.(entries := log, cursor := Head(log), head := Head(log), identity := session.identity, target := session.target)
  }

  /** A session's read of this log can be shown. */
  predicate Readable(session: Session, log: seq<Entry>) {
    session.identity.Some? && session.target.Some? && |log| <= MAX_VISIBLE_ENTRIES
  }

  /** The operation in flight settles: with the whole log shown, or with an error and the view as it was. */
  function Finished(of: AuthorityOf, s: State, session: Session, log: seq<Entry>): State
    requires s.Running()
  {
    if Readable(session, log) && s.target in {None, session.target}
    then Settled(Viewing(s, session, log), Answer(DeriveAuthority(of, log), |log|))
    else Settled(s, Error)
  }

  function Reloaded(s: State, session: Session, log: seq<Entry>): State {
    if Readable(session, log) then Viewing(s, session, log) else s
  }

  /** What a review ending now returns: its operation's answer, and what and whom the view shows it for. */
  function CurrentReview(s: State, call: nat): Option<FreshRead>
    requires call < |s.calls|
  {
    if !s.CallOver(call) || s.identity == None || s.target == None then None
    else
      match s.operations[s.calls[call].operation].settled
      case Some(Answer(Some(a), _)) =>
        Some(FreshRead(s.calls[call].operation, Reviewed(a, s.target.value, s.identity.value)))
      case _ => None
  }

  function ReviewBegun(s: State): State {
    Called(s, true).(reviews := s.reviews + [Review(|s.calls|, false, None)])
  }

  function ReviewEnded(s: State, k: nat): State
    requires k < |s.reviews| && s.reviews[k].call < |s.calls|
  {
    s.(reviews := s.reviews[k := s.reviews[k].(ended := true, result := CurrentReview(s, s.reviews[k].call))])
  }

  /** A revocation makes a fresh call of its own, whatever was read for the review. */
  function RevocationBegun(s: State, reviewed: Reviewed, requestId: nat): State {
    Called(s, true).(
      revocations := s.revocations + [Revocation(|s.calls|, reviewed, requestId, s.Over(), false)])
  }

  /** Posted only if its own fresh read shows the root, epoch, target and operator reviewed. */
  predicate LetsGo(s: State, k: nat)
    requires k < |s.revocations| && s.revocations[k].call < |s.calls|
  {
    var current := CurrentReview(s, s.revocations[k].call);
    current.Some? && Matches(current.value.reviewed, s.revocations[k].reviewed)
  }

  function RevocationEnded(s: State, k: nat): State
    requires k < |s.revocations| && s.revocations[k].call < |s.calls|
  {
    var t := s.(revocations := s.revocations[k := s.revocations[k].(ended := true)]);
    if LetsGo(s, k) then t.(posts := s.posts + [Post(k, CurrentReview(s, s.revocations[k].call).value)]) else t
  }

  predicate ReviewCanEnd(s: State, k: nat) {
    k < |s.reviews| && !s.reviews[k].ended && s.reviews[k].call < |s.calls| && s.CallOver(s.reviews[k].call)
  }

  predicate RevocationCanEnd(s: State, k: nat) {
    && k < |s.revocations| && !s.revocations[k].ended
    && s.revocations[k].call < |s.calls| && s.CallOver(s.revocations[k].call)
  }

  /**
   One step, with the log as its last read found it. A step that cannot happen
   changes nothing. The starter of an operation is the first to wait for it, so a
   call returns, or tries again, only after its operation was cleared; and a full
   load happens only while no refresh is running.
   */
  function Step(of: AuthorityOf, s: State, h: Happening, log: seq<Entry>): State {
    match h
    case CallBegins(isFresh) => Called(s, isFresh)
    case CallResumes(call) =>
      if call < |s.calls| && s.calls[call].Awaiting? && s.calls[call].operation < s.Over() then Resumed(s, call) else s
    case OperationEnds(session) => if s.Running() then Finished(of, s, session, log) else s
    case OperationCleared => if s.Running() then s else s.(inFlight := None, inFlightIsFresh := false)
    case FullLoad(session) => if s.Running() then s else Reloaded(s, session, log)
    case ReviewBegins => ReviewBegun(s)
    case ReviewEnds(k) => if ReviewCanEnd(s, k) then ReviewEnded(s, k) else s
    case RevocationBegins(reviewed, requestId) => RevocationBegun(s, reviewed, requestId)
    case RevocationEnds(k) => if RevocationCanEnd(s, k) then RevocationEnded(s, k) else s
  }

  // ---- What every state keeps

  /** The view is exactly the log up to its cursor, which is the head it shows. */
  ghost predicate Shows(s: State, log: seq<Entry>) {
    && IsLog(log)
    && s.entries <= log
    && |s.entries| <= MAX_VISIBLE_ENTRIES
    && s.cursor == s.head == Position(log, |s.entries|)
  }

  /** Only the operation in flight may still be running. */
  ghost predicate SingleFlight(s: State) {
    && (match s.inFlight
        case Some(i) => i == |s.operations| - 1 && s.inFlightIsFresh == s.operations[i].isFresh
        case None => !s.inFlightIsFresh)
    && forall i: nat :: i < |s.operations| && s.operations[i].settled == None ==> s.inFlight == Some(i)
  }

  /** A call for a fresh result waits for a fresh operation, or to start one. */
  ghost predicate CallsServed(calls: seq<Call>, operations: seq<Operation>) {
    forall k :: 0 <= k < |calls| ==>
      && calls[k].operation < |operations|
      && (calls[k].Joined? && calls[k].isFresh ==> operations[calls[k].operation].isFresh)
  }

  /** A fresh operation answered with the authority that was shown. */
  ghost predicate ReadBy(operations: seq<Operation>, read: FreshRead) {
    && read.operation < |operations| && operations[read.operation].isFresh
    && operations[read.operation].settled.Some? && operations[read.operation].settled.value.Answer?
    && operations[read.operation].settled.value.authority == Some(read.reviewed.authority)
  }

  /** A fresh call of `refresh`. */
  ghost predicate AsksFresh(calls: seq<Call>, call: nat) {
    call < |calls| && (calls[call].Joined? ==> calls[call].isFresh)
  }

  /** Every review rests on a fresh operation that was over when the review ended. */
  ghost predicate ReviewsTrue(reviews: seq<Review>, calls: seq<Call>, operations: seq<Operation>, over: nat) {
    forall k :: 0 <= k < |reviews| ==>
      && AsksFresh(calls, reviews[k].call)
      && (reviews[k].result.Some? ==>
            && reviews[k].ended && reviews[k].result.value.operation < over
            && ReadBy(operations, reviews[k].result.value))
  }

  /** Every revocation waits for an operation that was not over when it was asked for. */
  ghost predicate RevocationsTrue(revocations: seq<Revocation>, calls: seq<Call>, over: nat) {
    forall k :: 0 <= k < |revocations| ==>
      && AsksFresh(calls, revocations[k].call)
      && revocations[k].operationsOver <= calls[revocations[k].call].operation
      && revocations[k].operationsOver <= over
  }

  /** What lets a post go: a fresh read, not over when it was asked for, that shows what was reviewed. */
  ghost predicate PostTrue(post: Post, revocations: seq<Revocation>, operations: seq<Operation>) {
    && post.revocation < |revocations| && revocations[post.revocation].ended
    && ReadBy(operations, post.current)
    && revocations[post.revocation].operationsOver <= post.current.operation
    && Matches(post.current.reviewed, revocations[post.revocation].reviewed)
  }

  /** And a revocation asked for once is posted at most once. */
  ghost predicate PostsTrue(posts: seq<Post>, revocations: seq<Revocation>, operations: seq<Operation>) {
    && (forall k :: 0 <= k < |posts| ==> PostTrue(posts[k], revocations, operations))
    && forall j, k :: 0 <= j < k < |posts| ==> posts[j].revocation != posts[k].revocation
  }

  ghost predicate Answered(operations: seq<Operation>, i: nat) {
    i < |operations| && operations[i].settled.Some? && operations[i].settled.value.Answer?
  }

  /**
   What an operation answered is the last authority event of the log it had
   shown, and later operations show no less.
   */
  ghost predicate AnswersTrue(of: AuthorityOf, operations: seq<Operation>, log: seq<Entry>) {
    && (forall i: nat :: Answered(operations, i) ==>
          && operations[i].settled.value.shown <= |log|
          && operations[i].settled.value.authority
             == DeriveAuthority(of, log[..operations[i].settled.value.shown]))
    && forall i: nat, j: nat :: i < j && Answered(operations, i) && Answered(operations, j) ==>
         operations[i].settled.value.shown <= operations[j].settled.value.shown
  }

  ghost predicate Consistent(of: AuthorityOf, s: State, log: seq<Entry>) {
    && Shows(s, log) && SingleFlight(s) && CallsServed(s.calls, s.operations)
    && AnswersTrue(of, s.operations, s.entries)
    && ReviewsTrue(s.reviews, s.calls, s.operations, s.Over())
    && RevocationsTrue(s.revocations, s.calls, s.Over())
    && PostsTrue(s.posts, s.revocations, s.operations)
  }

  lemma InitialConsistent(of: AuthorityOf)
    ensures Consistent(of, INITIAL, [])
  {
  }

  /** A view of a log is a view of every later log. */
  lemma LogGrows(of: AuthorityOf, s: State, log: seq<Entry>, now: seq<Entry>)
    requires Consistent(of, s, log) && IsLog(now) && log <= now
    ensures Consistent(of, s, now)
  {
    PositionInPrefix(log, now, |s.entries|);
  }

  /** A `refresh` starts at most one operation, and only if none is in flight. */
  lemma EnteredKeeps(of: AuthorityOf, s: State, isFresh: bool, log: seq<Entry>)
    requires Consistent(of, s, log)
    ensures var t := Entered(s, isFresh); var call := Entering(s, isFresh);
            && Consistent(of, t, log) && t.Over() == s.Over() && s.Over() <= call.operation < |t.operations|
            && (call.Joined? ==> call.isFresh == isFresh)
            && (call.Joined? && isFresh ==> t.operations[call.operation].isFresh)
  {
    var t := Entered(s, isFresh);
    MoreOperations(of, s, t.operations, log);
  }

  lemma MoreOperations(of: AuthorityOf, s: State, operations: seq<Operation>, log: seq<Entry>)
    requires Consistent(of, s, log)
    requires operations == s.operations || exists isFresh :: operations == s.operations + [Operation(isFresh, None)]
    ensures CallsServed(s.calls, operations) && AnswersTrue(of, operations, s.entries)
    ensures ReviewsTrue(s.reviews, s.calls, operations, s.Over()) && PostsTrue(s.posts, s.revocations, operations)
  {
    forall i: nat | Answered(operations, i)
      ensures Answered(s.operations, i) && operations[i] == s.operations[i]
    {
    }
    forall k | 0 <= k < |s.posts|
      ensures PostTrue(s.posts[k], s.revocations, operations)
    {
      assert PostTrue(s.posts[k], s.revocations, s.operations);
    }
  }

  lemma CalledKeeps(of: AuthorityOf, s: State, isFresh: bool, log: seq<Entry>)
    requires Consistent(of, s, log)
    ensures Consistent(of, Called(s, isFresh), log) && Called(s, isFresh).Over() == s.Over()
    ensures isFresh ==> AsksFresh(Called(s, isFresh).calls, |s.calls|)
    ensures s.Over() <= Called(s, isFresh).calls[|s.calls|].operation
  {
    hide AnswersTrue, PostsTrue;
    EnteredKeeps(of, s, isFresh, log);
  }

  lemma ResumedKeeps(of: AuthorityOf, s: State, call: nat, log: seq<Entry>)
    requires Consistent(of, s, log)
    requires call < |s.calls| && s.calls[call].Awaiting? && s.calls[call].operation < s.Over()
    ensures Consistent(of, Resumed(s, call), log) && Resumed(s, call).Over() == s.Over()
  {
    hide AnswersTrue, PostsTrue;
    EnteredKeeps(of, s, true, log);
  }

  /** Settling an operation takes nothing from what rests on settled ones. */
  lemma SettledKeeps(of: AuthorityOf, s: State, outcome: Outcome, log: seq<Entry>)
    requires Consistent(of, s, log) && s.Running()
    requires outcome.Answer? ==> outcome == Answer(DeriveAuthority(of, s.entries), |s.entries|)
    ensures Consistent(of, Settled(s, outcome), log)
  {
    var i, after := s.inFlight.value, Settled(s, outcome).operations;
    AnswersSettle(of, s.operations, i, outcome, s.entries);
    PostsSettle(s, i, outcome);
  }

  lemma AnswersSettle(of: AuthorityOf, operations: seq<Operation>, i: nat, outcome: Outcome, shown: seq<Entry>)
    requires AnswersTrue(of, operations, shown) && i == |operations| - 1 && operations[i].settled == None
    requires outcome.Answer? ==> outcome == Answer(DeriveAuthority(of, shown), |shown|)
    ensures AnswersTrue(of, operations[i := operations[i].(settled := Some(outcome))], shown)
  {
    hide DeriveAuthority;
    var after := operations[i := operations[i].(settled := Some(outcome))];
    assert shown[..|shown|] == shown;
    forall j: nat | j < i && Answered(after, j)
      ensures Answered(operations, j) && after[j] == operations[j]
    {
    }
  }

  lemma PostsSettle(s: State, i: nat, outcome: Outcome)
    requires i < |s.operations| && s.operations[i].settled == None && PostsTrue(s.posts, s.revocations, s.operations)
    ensures PostsTrue(
              s.posts, s.revocations, s.operations[i := s.operations[i].(settled := Some(outcome))])
  {
    forall k | 0 <= k < |s.posts|
      ensures PostTrue(
                s.posts[k], s.revocations, s.operations[i := s.operations[i].(settled := Some(outcome))])
    {
      assert PostTrue(s.posts[k], s.revocations, s.operations);
    }
  }

  lemma KeepsPrefix(shown: seq<Entry>, log: seq<Entry>)
    requires shown <= log
    ensures forall n :: 0 <= n <= |shown| ==> shown[..n] == log[..n]
  {
  }

  lemma AnswersInLog(of: AuthorityOf, operations: seq<Operation>, shown: seq<Entry>, log: seq<Entry>)
    requires AnswersTrue(of, operations, shown) && shown <= log
    ensures AnswersTrue(of, operations, log)
  {
    KeepsPrefix(shown, log);
  }

  /** Showing the whole of a log that has grown. */
  lemma ViewingKeeps(of: AuthorityOf, s: State, session: Session, log: seq<Entry>)
    requires Consistent(of, s, log) && |log| <= MAX_VISIBLE_ENTRIES
    ensures Consistent(of, Viewing(s, session, log), log)
  {
    AnswersInLog(of, s.operations, s.entries, log);
  }

  lemma ClearedKeeps(of: AuthorityOf, s: State, log: seq<Entry>)
    requires Consistent(of, s, log) && !s.Running()
    ensures Consistent(of, s.(inFlight := None, inFlightIsFresh := false), log)
    ensures s.Over() <= s.(inFlight := None, inFlightIsFresh := false).Over()
  {
    hide AnswersTrue, PostsTrue;
  }

  lemma ReviewReads(of: AuthorityOf, s: State, call: nat, log: seq<Entry>)
    requires Consistent(of, s, log) && AsksFresh(s.calls, call) && CurrentReview(s, call).Some?
    ensures ReadBy(s.operations, CurrentReview(s, call).value)
    ensures CurrentReview(s, call).value.operation == s.calls[call].operation < s.Over()
  {
  }

  lemma ReviewBegunKeeps(of: AuthorityOf, s: State, log: seq<Entry>)
    requires Consistent(of, s, log)
    ensures Consistent(of, ReviewBegun(s), log) && ReviewBegun(s).Over() == s.Over()
  {
    hide AnswersTrue, PostsTrue;
    CalledKeeps(of, s, true, log);
  }

  lemma ReviewEndedKeeps(of: AuthorityOf, s: State, k: nat, log: seq<Entry>)
    requires Consistent(of, s, log) && ReviewCanEnd(s, k)
    ensures Consistent(of, ReviewEnded(s, k), log)
  {
    hide AnswersTrue, PostsTrue;
    assert AsksFresh(s.calls, s.reviews[k].call);
    if CurrentReview(s, s.reviews[k].call).Some? {
      ReviewReads(of, s, s.reviews[k].call, log);
    }
  }

  lemma RevocationBegunKeeps(of: AuthorityOf, s: State, reviewed: Reviewed, requestId: nat, log: seq<Entry>)
    requires Consistent(of, s, log)
    ensures Consistent(of, RevocationBegun(s, reviewed, requestId), log)
    ensures RevocationBegun(s, reviewed, requestId).Over() == s.Over()
  {
    hide AnswersTrue;
    CalledKeeps(of, s, true, log);
    var t := RevocationBegun(s, reviewed, requestId);
    forall k | 0 <= k < |t.posts|
      ensures PostTrue(t.posts[k], t.revocations, t.operations)
    {
      assert PostTrue(t.posts[k], Called(s, true).revocations, t.operations);
    }
  }

  /** A revocation that ends was not posted yet. */
  lemma EndKeeps(
    posts: seq<Post>, revocations: seq<Revocation>, calls: seq<Call>, operations: seq<Operation>, i: nat, over: nat)
    requires PostsTrue(posts, revocations, operations) && RevocationsTrue(revocations, calls, over)
    requires i < |revocations| && !revocations[i].ended
    ensures var after := revocations[i := revocations[i].(ended := true)];
            PostsTrue(posts, after, operations) && RevocationsTrue(after, calls, over)
    ensures forall k :: 0 <= k < |posts| ==> posts[k].revocation != i
  {
    var after := revocations[i := revocations[i].(ended := true)];
    forall k | 0 <= k < |posts|
      ensures PostTrue(posts[k], after, operations) && posts[k].revocation != i
    {
      assert PostTrue(posts[k], revocations, operations);
    }
  }

  lemma PostsSnoc(posts: seq<Post>, p: Post, revocations: seq<Revocation>, operations: seq<Operation>)
    requires PostsTrue(posts, revocations, operations) && PostTrue(p, revocations, operations)
    requires forall k :: 0 <= k < |posts| ==> posts[k].revocation != p.revocation
    ensures PostsTrue(posts + [p], revocations, operations)
  {
  }

  lemma RevocationEndedKeeps(of: AuthorityOf, s: State, k: nat, log: seq<Entry>)
    requires Consistent(of, s, log) && RevocationCanEnd(s, k)
    ensures Consistent(of, RevocationEnded(s, k), log)
  {
    hide AnswersTrue, ReviewsTrue, PostsTrue;
    EndKeeps(s.posts, s.revocations, s.calls, s.operations, k, s.Over());
    var t, call := RevocationEnded(s, k), s.revocations[k].call;
    if LetsGo(s, k) {
      ReviewReads(of, s, call, log);
      PostsSnoc(s.posts, Post(k, CurrentReview(s, call).value), t.revocations, s.operations);
    }
  }

  lemma FinishedKeeps(of: AuthorityOf, s: State, session: Session, log: seq<Entry>)
    requires Consistent(of, s, log) && s.Running()
    ensures Consistent(of, Finished(of, s, session, log), log)
  {
    hide Consistent;
    if Readable(session, log) && s.target in {None, session.target} {
      ViewingKeeps(of, s, session, log);
      SettledKeeps(of, Viewing(s, session, log), Answer(DeriveAuthority(of, log), |log|), log);
    } else {
      SettledKeeps(of, s, Error, log);
    }
  }

  /** Every step keeps all of it, with the log as the step's last read found it. */
  lemma StepKeeps(of: AuthorityOf, s: State, h: Happening, before: seq<Entry>, log: seq<Entry>)
    requires Consistent(of, s, before) && before <= log && IsLog(log)
    ensures Consistent(of, Step(of, s, h, log), log)
  {
    hide Consistent;
    LogGrows(of, s, before, log);
    match h
    case CallBegins(isFresh) => CalledKeeps(of, s, isFresh, log);
    case CallResumes(call) =>
      if call < |s.calls| && s.calls[call].Awaiting? && s.calls[call].operation < s.Over() {
        ResumedKeeps(of, s, call, log);
      }
    case OperationEnds(session) =>
      if s.Running() {
        FinishedKeeps(of, s, session, log);
      }
    case OperationCleared =>
      if !s.Running() {
        ClearedKeeps(of, s, log);
      }
    case FullLoad(session) =>
      if !s.Running() && Readable(session, log) {
        ViewingKeeps(of, s, session, log);
      }
    case ReviewBegins => ReviewBegunKeeps(of, s, log);
    case ReviewEnds(k) =>
      if ReviewCanEnd(s, k) {
        ReviewEndedKeeps(of, s, k, log);
      }
    case RevocationBegins(reviewed, requestId) => RevocationBegunKeeps(of, s, reviewed, requestId, log);
    case RevocationEnds(k) =>
      if RevocationCanEnd(s, k) {
        RevocationEndedKeeps(of, s, k, log);
      }
  }

  /** A view never shows less than before, operations over stay over, and no post is taken back. */
  lemma StepGrows(of: AuthorityOf, s: State, h: Happening, before: seq<Entry>, log: seq<Entry>)
    requires Consistent(of, s, before) && before <= log && IsLog(log)
    ensures var t := Step(of, s, h, log);
            s.entries <= t.entries && s.posts <= t.posts && s.Over() <= t.Over()
  {
    hide AnswersTrue, ReviewsTrue, RevocationsTrue, PostsTrue, DeriveAuthority;
  }

  // ---- Whole runs

  /** The states of a run, from the first; `logs[n]` is the log as the last read of happening `n` found it. */
  function Trace(of: AuthorityOf, run: seq<Happening>, logs: seq<seq<Entry>>): (trace: seq<State>)
    requires |logs| == |run|
    ensures |trace| == |run| + 1
    decreases |run|
  {
    if run == [] then [INITIAL]
    else
      var n := |run| - 1;
      var before := Trace(of, run[..n], logs[..n]);
      before + [Step(of, before[n], run[n], logs[n])]
  }

  ghost predicate Grows(logs: seq<seq<Entry>>) {
    && (forall i :: 0 <= i < |logs| ==> IsLog(logs[i]))
    && forall i, j :: 0 <= i <= j < |logs| ==> logs[i] <= logs[j]
  }

  function LogBefore(logs: seq<seq<Entry>>, n: nat): seq<Entry>
    requires n <= |logs|
  {
    if n == 0 then [] else logs[n - 1]
  }

  /** A state of a run: consistent with the log of its moment, and grown from all states before it. */
  ghost predicate Sound(of: AuthorityOf, trace: seq<State>, logs: seq<seq<Entry>>)
    requires |trace| == |logs| + 1
  {
    && (forall n :: 0 <= n < |trace| ==> Consistent(of, trace[n], LogBefore(logs, n)))
    && forall m, n :: 0 <= m <= n < |trace| ==>
         trace[m].entries <= trace[n].entries && trace[m].posts <= trace[n].posts
  }

  lemma SoundSnoc(of: AuthorityOf, trace: seq<State>, s: State, logs: seq<seq<Entry>>, log: seq<Entry>)
    requires |trace| == |logs| + 1 && Sound(of, trace, logs) && Consistent(of, s, log)
    requires trace[|logs|].entries <= s.entries && trace[|logs|].posts <= s.posts
    ensures Sound(of, trace + [s], logs + [log])
  {
    hide Consistent;
    var more, moreLogs := trace + [s], logs + [log];
    forall n | 0 <= n < |more|
      ensures Consistent(of, more[n], LogBefore(moreLogs, n))
    {
      if n < |trace| {
        assert LogBefore(moreLogs, n) == LogBefore(logs, n) && more[n] == trace[n];
      }
    }
    forall m, n | 0 <= m <= n < |more|
      ensures more[m].entries <= more[n].entries && more[m].posts <= more[n].posts
    {
      if m < |trace| {
        assert trace[m].entries <= trace[|logs|].entries && trace[m].posts <= trace[|logs|].posts;
      }
    }
  }

  /**
   In every run, whatever happens in whatever order over a log that only grows:
   at every moment the view is the log up to its cursor, which is the head, at most
   one operation runs, every answer is the last authority of what it showed, and
   every post follows its own fresh answer that matches what was reviewed; and no
   view shows less than an earlier one.
   */
  lemma {:induction false} RunIsSound(of: AuthorityOf, run: seq<Happening>, logs: seq<seq<Entry>>)
    requires |logs| == |run| && Grows(logs)
    ensures Sound(of, Trace(of, run, logs), logs)
    decreases |run|
  {
    hide Consistent;
    if run == [] {
      InitialConsistent(of);
    } else {
      var n := |run| - 1;
      RunIsSound(of, run[..n], logs[..n]);
      var before := Trace(of, run[..n], logs[..n]);
      assert LogBefore(logs[..n], n) == LogBefore(logs, n);
      assert n > 0 ==> logs[n - 1] <= logs[n];
      StepKeeps(of, before[n], run[n], LogBefore(logs, n), logs[n]);
      StepGrows(of, before[n], run[n], LogBefore(logs, n), logs[n]);
      SoundSnoc(of, before, Step(of, before[n], run[n], logs[n]), logs[..n], logs[n]);
      assert logs == logs[..n] + [logs[n]];
    }
  }

  // ---- What happened between a review and the post that follows it

  ghost function ShownBy(s: State, read: FreshRead): nat
    requires ReadBy(s.operations, read)
  {
    s.operations[read.operation].settled.value.shown
  }

  /** Two fresh reads are reads of one log, so comparing them tells what matching reads tell. */
  lemma ReadsOfLog(of: AuthorityOf, s: State, log: seq<Entry>, earlier: FreshRead, later: FreshRead)
    requires Consistent(of, s, log) && ReadBy(s.operations, earlier) && ReadBy(s.operations, later)
    requires earlier.operation <= later.operation
    ensures var m, n := ShownBy(s, earlier), ShownBy(s, later);
            && m <= n <= |log|
            && DeriveAuthority(of, log[..m]) == Some(earlier.reviewed.authority)
            && DeriveAuthority(of, log[..n]) == Some(later.reviewed.authority)
            && (ReadsMatch(of, log, m, n) <==> SameAuthority(earlier.reviewed.authority, later.reviewed.authority))
  {
    assert Answered(s.operations, earlier.operation) && Answered(s.operations, later.operation);
    AnswersInLog(of, s.operations, s.entries, log);
  }

  /** If the log records each root and epoch once, no authority event came between two matching fresh reads. */
  lemma NothingBetween(of: AuthorityOf, s: State, log: seq<Entry>, earlier: FreshRead, later: FreshRead)
    requires Consistent(of, s, log) && OncePerEpoch(of, log)
    requires ReadBy(s.operations, earlier) && ReadBy(s.operations, later) && earlier.operation <= later.operation
    requires SameAuthority(earlier.reviewed.authority, later.reviewed.authority)
    ensures earlier.reviewed.authority == later.reviewed.authority
    ensures NoneLogged(of, log, ShownBy(s, earlier), ShownBy(s, later))
  {
    ReadsOfLog(of, s, log, earlier, later);
    MatchingReads(of, log, ShownBy(s, earlier), ShownBy(s, later));
  }
}
