/**
 The web console as its code keeps it: fields that handlers and operations update.
 Each method does what one step of the step system says, so whatever is proved of
 every run of steps holds of every run of the class.
 */
module Console {
  import opened Option
  import opened Timeline
  import opened ConsoleReader
  import opened Authority
  import opened ConsoleSteps

  class OperatorConsole {
    const authorityOf: AuthorityOf
    var entries: seq<Entry>
    var cursor: Cursor
    var head: Cursor
    var identity: Option<Identity>
    var target: Option<string>
    var refreshInFlight: Option<nat>
    var refreshInFlightIsFresh: bool
    var operations: seq<Operation>
    var calls: seq<Call>
    var reviews: seq<Review>
    var revocations: seq<Revocation>
    var posts: seq<Post>

    constructor (authorityOf: AuthorityOf)
      ensures Valid([]) && Now() == INITIAL
      ensures this.authorityOf == authorityOf
    {
      this.authorityOf := authorityOf;
      entries, cursor, head, identity, target := [], ORIGIN, ORIGIN, None, None;
      refreshInFlight, refreshInFlightIsFresh, operations, calls := None, false, [], [];
      reviews, revocations, posts := [], [], [];
      new;
      hide Consistent;
      InitialConsistent(authorityOf);
    }

    /** The fields as one state of the step system. */
    function Now(): State
      reads this
    {
      State(
        entries, cursor, head, identity, target, refreshInFlight, refreshInFlightIsFresh,
        operations, calls, reviews, revocations, posts)
    }

    ghost predicate Valid(log: seq<Entry>)
      reads this
    {
      Consistent(authorityOf, Now(), log)
    }

    /** One call of `refresh`, up to its first await. */
    method Refresh(isFresh: bool, ghost log: seq<Entry>) returns (call: nat)
      requires Valid(log)
      modifies this`calls, this`operations, this`refreshInFlight, this`refreshInFlightIsFresh
      ensures Valid(log) && Now() == Called(old(Now()), isFresh) && call == |old(calls)|
      ensures match old(refreshInFlight)
              case None =>
                && operations == old(operations) + [Operation(isFresh, None)]
                && refreshInFlight == Some(|old(operations)|) && refreshInFlightIsFresh == isFresh
                && calls == old(calls) + [Joined(isFresh, |old(operations)|)]
              case Some(i) =>
                && operations == old(operations) && refreshInFlight == Some(i)
                && calls
                   == old(calls) + [if isFresh && !old(refreshInFlightIsFresh) then Awaiting(i) else Joined(isFresh, i)]
    {
      hide Consistent;
      CalledKeeps(authorityOf, Now(), isFresh, log);
      call := |calls|;
      var next := Enter(isFresh);
      calls := calls + [next];
    }

    /** Join the operation in flight, wait for it to end, or start one. */
    method Enter(isFresh: bool) returns (next: Call)
      modifies this`operations, this`refreshInFlight, this`refreshInFlightIsFresh
      ensures Now() == Entered(old(Now()), isFresh) && next == Entering(old(Now()), isFresh)
    {
      if refreshInFlight.Some? {
        var existing := refreshInFlight.value;
        if !isFresh || refreshInFlightIsFresh {
          return Joined(isFresh, existing);
        }
        return Awaiting(existing);
      }
      refreshInFlight := Some(|operations|);
      refreshInFlightIsFresh := isFresh;
      next := Joined(isFresh, |operations|);
      operations := operations + [Operation(isFresh, None)];
    }

    /** A call that waited for a stale operation tries again, still fresh. */
    method Resume(call: nat, ghost log: seq<Entry>)
      requires Valid(log)
      requires call < |calls| && calls[call].Awaiting? && calls[call].operation < Now().Over()
      modifies this`calls, this`operations, this`refreshInFlight, this`refreshInFlightIsFresh
      ensures Valid(log) && Now() == Resumed(old(Now()), call)
    {
      hide Consistent;
      ResumedKeeps(authorityOf, Now(), call, log);
      var next := Enter(true);
      calls := calls[call := next];
    }

    /** The operation in flight fails; the view keeps what it shows. */
    method HandleError(ghost log: seq<Entry>)
      requires Valid(log) && Now().Running()
      modifies this`operations
      ensures Valid(log) && Now() == Settled(old(Now()), Error)
    {
      hide Consistent;
      SettledKeeps(authorityOf, Now(), Error, log);
      var i := refreshInFlight.value;
      operations := operations[i := operations[i].(settled := Some(Error))];
    }

    /** What was read is added to the view, and the operation in flight answers with what it shows. */
    method CommitBatch(batch: Batch, session: Session, ghost log: seq<Entry>)
      requires Valid(log) && Now().Running() && Readable(session, log) && target in {None, session.target}
      requires batch.cursor == batch.head == Head(log) && entries <= log && batch.entries == log[|entries|..]
      modifies this`entries, this`cursor, this`head, this`identity, this`target, this`operations
      ensures Valid(log) && Now() == Finished(authorityOf, old(Now()), session, log)
    {
      hide Consistent;
      FinishedKeeps(authorityOf, Now(), session, log);
      var i := refreshInFlight.value;
      entries := entries + batch.entries;
      assert entries == log;
      cursor, head, identity, target := batch.cursor, batch.head, session.identity, session.target;
      var answer := Answer(DeriveAuthority(authorityOf, entries), |entries|);
      operations := operations[i := operations[i].(settled := Some(answer))];
    }

    /**
     The operation in flight: authenticate, read on from the view's cursor, and
     add what was read to the view, unless it is another target's. It settles as
     the log at its last read decides.
     */
    method RunOperation(server: Server, firstRead: nat, session: Session, ghost logs: nat -> seq<Entry>)
      returns (ghost lastRead: nat)
      requires Valid(logs(firstRead)) && Now().Running() && Honest(server, logs)
      modifies this`entries, this`cursor, this`head, this`identity, this`target, this`operations
      ensures firstRead <= lastRead < firstRead + MAX_PAGE_READS && Valid(logs(lastRead))
      ensures Now() == Finished(authorityOf, old(Now()), session, logs(lastRead))
      ensures var log, i := logs(lastRead), old(refreshInFlight).value;
              var shown :=
                && session.identity.Some? && session.target.Some? && |log| <= 2_500
                && (old(target) == None || old(target) == session.target);
              && (shown ==>
                    && entries == log && cursor == head == Head(log)
                    && identity == session.identity && target == session.target
                    && operations[i].settled == Some(Answer(DeriveAuthority(authorityOf, log), |log|)))
              && (!shown ==>
                    && entries == old(entries) && cursor == old(cursor) && head == old(head)
                    && identity == old(identity) && target == old(target)
                    && operations[i].settled == Some(Error))
    {
      lastRead := firstRead;
      if session.identity == None {
        HandleError(logs(firstRead));
        return;
      }
      StartsHonest(server, logs, firstRead);
      var read;
      ghost var pages;
      read, lastRead, pages := ReadToHead(server, firstRead, cursor, head, |entries|, logs);
      Grown(logs, firstRead, lastRead);
      LogGrows(authorityOf, Now(), logs(firstRead), logs(lastRead));
      if read.Failed? || session.target == None || (target.Some? && target != session.target) {
        HandleError(logs(lastRead));
        return;
      }
      CommitBatch(read.batch, session, logs(lastRead));
    }

    /** A reading from the view's cursor is honest. */
    lemma StartsHonest(server: Server, logs: nat -> seq<Entry>, firstRead: nat)
      requires Shows(Now(), logs(firstRead)) && Honest(server, logs)
      ensures HonestReading(server, logs, firstRead, cursor, head) && cursor.sequence == |entries|
    {
      PositionSequence(logs(firstRead), |entries|);
    }

    /** The starter of an operation clears it once it has settled. */
    method Clear(ghost log: seq<Entry>)
      requires Valid(log) && !Now().Running()
      modifies this`refreshInFlight, this`refreshInFlightIsFresh
      ensures Valid(log) && Now() == old(Now()).(inFlight := None, inFlightIsFresh := false)
    {
      hide Consistent;
      ClearedKeeps(authorityOf, Now(), log);
      refreshInFlight, refreshInFlightIsFresh := None, false;
    }

    /** A full load, while no refresh is running: the view again shows the whole log, or is left alone. */
    method ReloadFromStart(server: Server, firstRead: nat, session: Session, ghost logs: nat -> seq<Entry>)
      returns (ghost lastRead: nat)
      requires Valid(logs(firstRead)) && !Now().Running() && Honest(server, logs)
      modifies this`entries, this`cursor, this`head, this`identity, this`target
      ensures firstRead <= lastRead < firstRead + MAX_PAGE_READS && Valid(logs(lastRead))
      ensures Now() == Reloaded(old(Now()), session, logs(lastRead))
      ensures var log := logs(lastRead);
              if session.identity.Some? && session.target.Some? && |log| <= 2_500
              then && entries == log && cursor == head == Head(log)
                   && identity == session.identity && target == session.target
              else && entries == old(entries) && cursor == old(cursor) && head == old(head)
                   && identity == old(identity) && target == old(target)
    {
      lastRead := firstRead;
      if session.identity == None {
        return;
      }
      assert IsLog(logs(firstRead));
      var read;
      ghost var pages;
      read, lastRead, pages := ReadToHead(server, firstRead, ORIGIN, ORIGIN, 0, logs);
      Grown(logs, firstRead, lastRead);
      LogGrows(authorityOf, Now(), logs(firstRead), logs(lastRead));
      if read.Failed? || session.target == None {
        return;
      }
      Replace(read.batch, session, logs(lastRead));
    }

    /** A full load's entries take the place of those shown. */
    method Replace(batch: Batch, session: Session, ghost log: seq<Entry>)
      requires Valid(log) && Readable(session, log)
      requires batch.cursor == batch.head == Head(log) && batch.entries == log
      modifies this`entries, this`cursor, this`head, this`identity, this`target
      ensures Valid(log) && Now() == Viewing(old(Now()), session, log)
    {
      hide Consistent;
      ViewingKeeps(authorityOf, Now(), session, log);
      entries, cursor, head := batch.entries, batch.cursor, batch.head;
      identity, target := session.identity, session.target;
    }

    /** What a call of `refresh` returns, once the operation it joined is over. */
    method Returned(call: nat, ghost log: seq<Entry>) returns (r: Option<Outcome>)
      requires Valid(log) && call < |calls|
      ensures r.Some? <==> Now().CallOver(call)
      ensures r.Some? ==>
                && operations[calls[call].operation].settled == r
                && (calls[call].isFresh ==> operations[calls[call].operation].isFresh)
      ensures r.Some? && r.value.Answer? ==>
                && r.value.shown <= |log|
                && r.value.authority == DeriveAuthority(authorityOf, log[..r.value.shown])
    {
      if !Now().CallOver(call) {
        return None;
      }
      r := operations[calls[call].operation].settled;
      if r.Some? && r.value.Answer? {
        assert Answered(operations, calls[call].operation);
        assert log[..r.value.shown] == entries[..r.value.shown];
      }
    }

    /** What the operation a fresh call joined showed, with the view's target and operator. */
    method ReviewAuthority(call: nat, ghost log: seq<Entry>) returns (read: Option<FreshRead>)
      requires Valid(log) && call < |calls|
      ensures read == CurrentReview(Now(), call)
    {
      var returned := Returned(call, log);
      if returned == None || returned.value.Error? || returned.value.authority == None
        || identity == None || target == None
      {
        return None;
      }
      return Some(FreshRead(
        calls[call].operation, Reviewed(returned.value.authority.value, target.value, identity.value)));
    }

    /** A review begins: a fresh call of `refresh`. */
    method BeginReview(ghost log: seq<Entry>) returns (review: nat)
      requires Valid(log)
      modifies this`calls, this`operations, this`refreshInFlight, this`refreshInFlightIsFresh, this`reviews
      ensures Valid(log) && Now() == ReviewBegun(old(Now())) && review == |old(reviews)|
    {
      hide Consistent;
      ReviewBegunKeeps(authorityOf, Now(), log);
      review := |reviews|;
      var call := Refresh(true, log);
      reviews := reviews + [Review(call, false, None)];
    }

    /** A review ends: it returns what its own operation answered, or fails. */
    method EndReview(review: nat, ghost log: seq<Entry>) returns (read: Option<FreshRead>)
      requires Valid(log) && ReviewCanEnd(Now(), review)
      modifies this`reviews
      ensures Valid(log) && Now() == ReviewEnded(old(Now()), review)
      ensures read == old(CurrentReview(Now(), reviews[review].call))
    {
      ReviewEndedKeeps(authorityOf, Now(), review, log);
      read := ReviewAuthority(reviews[review].call, log);
      hide Consistent;
      reviews := reviews[review := reviews[review].(ended := true, result := read)];
    }

    /** A revocation begins: another fresh call of `refresh`, whatever was read for the review. */
    method BeginRevocation(reviewed: Reviewed, requestId: nat, ghost log: seq<Entry>) returns (revocation: nat)
      requires Valid(log)
      modifies this`calls, this`operations, this`refreshInFlight, this`refreshInFlightIsFresh, this`revocations
      ensures Valid(log) && Now() == RevocationBegun(old(Now()), reviewed, requestId)
      ensures revocation == |old(revocations)|
    {
      hide Consistent;
      RevocationBegunKeeps(authorityOf, Now(), reviewed, requestId, log);
      revocation := |revocations|;
      var over := Now().Over();
      var call := Refresh(true, log);
      revocations := revocations + [Revocation(call, reviewed, requestId, over, false)];
    }

    /**
     A revocation ends: it is posted exactly when its own fresh read shows the
     root, epoch, target and operator that were reviewed.
     */
    method EndRevocation(revocation: nat, ghost log: seq<Entry>) returns (posted: bool)
      requires Valid(log) && RevocationCanEnd(Now(), revocation)
      modifies this`revocations, this`posts
      ensures Valid(log) && Now() == RevocationEnded(old(Now()), revocation)
      ensures posted <==> old(LetsGo(Now(), revocation))
      ensures var pending := old(revocations)[revocation];
              var shown := operations[calls[pending.call].operation].settled;
              && revocations == old(revocations)[revocation := pending.(ended := true)]
              && (posted <==>
                    && shown.Some? && shown.value.Answer? && shown.value.authority.Some?
                    && shown.value.authority.value.rootId == pending.reviewed.authority.rootId
                    && shown.value.authority.value.rootSha256 == pending.reviewed.authority.rootSha256
                    && shown.value.authority.value.epoch == pending.reviewed.authority.epoch
                    && target == Some(pending.reviewed.target)
                    && identity == Some(pending.reviewed.identity))
              && (!posted ==> posts == old(posts))
              && (posted ==>
                    posts == old(posts) + [Post(
                      revocation,
                      FreshRead(
                        calls[pending.call].operation,
                        Reviewed(shown.value.authority.value, target.value, identity.value)))])
    {
      RevocationEndedKeeps(authorityOf, Now(), revocation, log);
      var pending := revocations[revocation];
      var read := ReviewAuthority(pending.call, log);
      hide Consistent;
      revocations := revocations[revocation := pending.(ended := true)];
      posted := read.Some? && Matches(read.value.reviewed, pending.reviewed);
      if posted {
        posts := posts + [Post(revocation, read.value)];
      }
    }

    /** One happening, if it can take place now, is one step with the log as its last read found it. */
    method TakePlace(h: Happening, server: Server, read: nat, ghost logs: nat -> seq<Entry>)
      returns (ghost lastRead: nat)
      requires Honest(server, logs) && Valid(logs(read))
      modifies this
      ensures read <= lastRead < read + MAX_PAGE_READS && Valid(logs(lastRead))
      ensures Now() == Step(authorityOf, old(Now()), h, logs(lastRead))
    {
      hide Consistent, DeriveAuthority, LetsGo, CurrentReview;
      lastRead := read;
      match h {
        case CallBegins(isFresh) =>
          var _ := Refresh(isFresh, logs(read));
        case CallResumes(call) =>
          if call < |calls| && calls[call].Awaiting? && calls[call].operation < Now().Over() {
            Resume(call, logs(read));
          }
        case OperationEnds(session) =>
          if Now().Running() {
            lastRead := RunOperation(server, read, session, logs);
          }
        case OperationCleared =>
          if !Now().Running() {
            Clear(logs(read));
          }
        case FullLoad(session) =>
          if !Now().Running() {
            lastRead := ReloadFromStart(server, read, session, logs);
          }
        case ReviewBegins =>
          var _ := BeginReview(logs(read));
        case ReviewEnds(k) =>
          if ReviewCanEnd(Now(), k) {
            var _ := EndReview(k, logs(read));
          }
        case RevocationBegins(reviewed, requestId) =>
          var _ := BeginRevocation(reviewed, requestId, logs(read));
        case RevocationEnds(k) =>
          if RevocationCanEnd(Now(), k) {
            var _ := EndRevocation(k, logs(read));
          }
      }
    }
  }

  // ---- Whole runs

  lemma Grown(logs: nat -> seq<Entry>, m: nat, n: nat)
    requires Growing(logs) && m <= n
    ensures IsLog(logs(n)) && logs(m) <= logs(n)
  {
    assert Later(m, n);
  }

  /** `seen[n]` is the log as the last read of happening `n`, read number `readAt[n]`, found it. */
  ghost predicate SeenAt(seen: seq<seq<Entry>>, logs: nat -> seq<Entry>, readAt: seq<nat>) {
    && |seen| == |readAt|
    && (forall n :: 0 <= n < |readAt| ==> seen[n] == logs(readAt[n]))
    && forall i, j :: 0 <= i < j < |readAt| ==> readAt[i] <= readAt[j]
  }

  ghost predicate Before(readAt: seq<nat>, read: nat) {
    forall i :: 0 <= i < |readAt| ==> readAt[i] <= read
  }

  lemma SeenSnoc(seen: seq<seq<Entry>>, logs: nat -> seq<Entry>, readAt: seq<nat>, read: nat, last: nat, next: nat)
    requires SeenAt(seen, logs, readAt) && Before(readAt, read) && read <= last <= next
    ensures SeenAt(seen + [logs(last)], logs, readAt + [last]) && Before(readAt + [last], next)
  {
  }

  lemma SeenGrows(seen: seq<seq<Entry>>, logs: nat -> seq<Entry>, readAt: seq<nat>)
    requires Growing(logs) && SeenAt(seen, logs, readAt)
    ensures Grows(seen)
  {
    forall i, j | 0 <= i <= j < |seen|
      ensures IsLog(seen[i]) && seen[i] <= seen[j]
    {
      Grown(logs, readAt[i], readAt[j]);
    }
  }

  /** One happening, and the log known to grow until the next one's first read. */
  method Advance(console: OperatorConsole, h: Happening, server: Server, read: nat, ghost logs: nat -> seq<Entry>)
    returns (ghost lastRead: nat)
    requires Honest(server, logs) && console.Valid(logs(read))
    modifies console
    ensures read <= lastRead < read + MAX_PAGE_READS
    ensures console.Now() == Step(console.authorityOf, old(console.Now()), h, logs(lastRead))
    ensures console.Valid(logs(read + MAX_PAGE_READS))
  {
    hide Consistent, Step;
    lastRead := console.TakePlace(h, server, read, logs);
    Grown(logs, lastRead, read + MAX_PAGE_READS);
    LogGrows(console.authorityOf, console.Now(), logs(lastRead), logs(read + MAX_PAGE_READS));
  }

  /** The steps of a run in order over a growing log, as some reads of it found it; and every state is sound. */
  ghost predicate RunOf(trace: seq<State>, of: AuthorityOf, run: seq<Happening>, logs: nat -> seq<Entry>) {
    exists seen, readAt ::
      && SeenAt(seen, logs, readAt) && |seen| == |run|
      && trace == Trace(of, run, seen) && Sound(of, trace, seen)
  }

  /**
   A whole run, anything in any order, but for a full load during a refresh,
   against an honest server whose log grows as it likes. The states it passes
   through are exactly the run's steps, from the first; so they are all sound.
   */
  method RunConsole(server: Server, authorityOf: AuthorityOf, run: seq<Happening>, ghost logs: nat -> seq<Entry>)
    returns (trace: seq<State>)
    requires Honest(server, logs)
    ensures RunOf(trace, authorityOf, run, logs)
  {
    hide Consistent, Step, SeenAt, Before, Growing, Sound;
    ghost var seen: seq<seq<Entry>>, readAt: seq<nat>;
    var console := new OperatorConsole(authorityOf);
    trace, seen, readAt := [console.Now()], [], [];
    var read: nat := 0;
    RunStarts(server, authorityOf, logs);
    for n := 0 to |run|
      invariant |seen| == n && SeenAt(seen, logs, readAt) && Before(readAt, read)
      invariant trace == Trace(authorityOf, run[..n], seen)
      invariant console.Now() == trace[n] && console.authorityOf == authorityOf && console.Valid(logs(read))
    {
      ghost var last := Advance(console, run[n], server, read, logs);
      trace := trace + [console.Now()];
      TraceSnoc(authorityOf, run, n, seen, logs(last));
      SeenSnoc(seen, logs, readAt, read, last, read + MAX_PAGE_READS);
      seen, readAt := seen + [logs(last)], readAt + [last];
      read := read + MAX_PAGE_READS;
    }
    assert run[..|run|] == run;
    SeenGrows(seen, logs, readAt);
    RunIsSound(authorityOf, run, seen);
  }

  lemma RunStarts(server: Server, of: AuthorityOf, logs: nat -> seq<Entry>)
    requires Honest(server, logs)
    ensures Growing(logs) && IsLog(logs(0)) && Consistent(of, INITIAL, logs(0))
    ensures SeenAt([], logs, []) && Before([], 0)
  {
    hide Consistent;
    InitialConsistent(of);
    Grown(logs, 0, 0);
    LogGrows(of, INITIAL, [], logs(0));
  }

  lemma TraceSnoc(of: AuthorityOf, run: seq<Happening>, n: nat, seen: seq<seq<Entry>>, log: seq<Entry>)
    requires n < |run| && |seen| == n
    ensures Trace(of, run[..n + 1], seen + [log])
         == Trace(of, run[..n], seen) + [Step(of, Trace(of, run[..n], seen)[n], run[n], log)]
  {
    assert run[..n + 1][..n] == run[..n] && (seen + [log])[..n] == seen;
  }

  // ---- A run that posts although the authority was recorded anew

  /** Two entries, the second of which records the first one's root and epoch again. */
  function RepeatingLog(a: Snapshot, b: Snapshot): seq<Entry> {
    [Entry(1, None, "a", a.rootId), Entry(2, Some("a"), "b", b.rootId)]
  }

  /** The second entry is logged after the first hundred reads. */
  function LogAt(a: Snapshot, b: Snapshot, read: nat): seq<Entry> {
    if read < MAX_PAGE_READS then RepeatingLog(a, b)[..1] else RepeatingLog(a, b)
  }

  function ServerOf(a: Snapshot, b: Snapshot): Server {
    (read: nat, q: Query) =>
      if q.after.sequence <= |LogAt(a, b, read)| then Some(PageAt(LogAt(a, b, read), q.after.sequence, q.limit))
      else None
  }

  lemma RepeatingIsHonest(a: Snapshot, b: Snapshot)
    ensures Honest(ServerOf(a, b), (read: nat) => LogAt(a, b, read))
  {
    var log, logs := RepeatingLog(a, b), (read: nat) => LogAt(a, b, read);
    assert LinkedAt(ORIGIN, log, 0) && LinkedAt(ORIGIN, log, 1);
    assert LinkedAt(ORIGIN, log[..1], 0);
    forall read: nat, n: nat, limit: nat | n <= |logs(read)| && limit >= 1
      ensures ServerOf(a, b)(read, Query(Position(logs(read), n), limit)) == Some(PageAt(logs(read), n, limit))
    {
      PositionSequence(logs(read), n);
    }
  }

  lemma DerivedInTurn(of: AuthorityOf, a: Snapshot, b: Snapshot)
    requires of(RepeatingLog(a, b)[0]) == Some(a) && of(RepeatingLog(a, b)[1]) == Some(b)
    ensures DeriveAuthority(of, RepeatingLog(a, b)[..1]) == Some(a)
    ensures DeriveAuthority(of, RepeatingLog(a, b)) == Some(b)
  {
  }

  function Cleared(s: State): State {
    s.(inFlight := None, inFlightIsFresh := false)
  }

  /** One fresh operation over, that showed the first entry, and the review that waited for it. */
  function AfterReview(a: Snapshot, operator: Identity, target: string): State {
    var head := Cursor(1, Some("a"));
    State(
      [Entry(1, None, "a", a.rootId)], head, head, Some(operator), Some(target), None, false,
      [Operation(true, Some(Answer(Some(a), 1)))], [Joined(true, 0)],
      [Review(0, true, Some(FreshRead(0, Reviewed(a, target, operator))))], [], [])
  }

  lemma ReviewSteps(of: AuthorityOf, a: Snapshot, b: Snapshot, operator: Identity, target: string)
    requires of(RepeatingLog(a, b)[0]) == Some(a) && of(RepeatingLog(a, b)[1]) == Some(b)
    ensures var s := ReviewBegun(INITIAL);
            && s.Running()
            && var t := Finished(of, s, Session(Some(operator), Some(target)), RepeatingLog(a, b)[..1]);
            && !t.Running()
            && ReviewCanEnd(Cleared(t), 0)
            && CurrentReview(Cleared(t), Cleared(t).reviews[0].call)
               == Some(FreshRead(0, Reviewed(a, target, operator)))
            && ReviewEnded(Cleared(t), 0) == AfterReview(a, operator, target)
  {
    DerivedInTurn(of, a, b);
    assert RepeatingLog(a, b)[..1] == [Entry(1, None, "a", a.rootId)];
  }

  /** The review's state with a second operation over, that showed both entries, for a revocation. */
  lemma RevocationSteps(
    of: AuthorityOf, a: Snapshot, b: Snapshot, operator: Identity, target: string, requestId: nat)
    requires of(RepeatingLog(a, b)[0]) == Some(a) && of(RepeatingLog(a, b)[1]) == Some(b) && SameAuthority(a, b)
    ensures var s := RevocationBegun(AfterReview(a, operator, target), Reviewed(a, target, operator), requestId);
            && s.Running()
            && var t := Finished(of, s, Session(Some(operator), Some(target)), RepeatingLog(a, b));
            && !t.Running()
            && RevocationCanEnd(Cleared(t), 0)
            && RevocationEnded(Cleared(t), 0).posts
               == [Post(0, FreshRead(1, Reviewed(b, target, operator)))]
  {
    DerivedInTurn(of, a, b);
  }

  function Repeating(a: Snapshot, b: Snapshot): AuthorityOf {
    (e: Entry) => if e.sequence == 1 then Some(a) else Some(b)
  }

  /** The review: it shows the first entry's authority. */
  method ReviewOnce(a: Snapshot, b: Snapshot, operator: Identity, target: string)
    returns (console: OperatorConsole, reviewed: Reviewed, ghost at: nat)
    ensures fresh(console) && console.authorityOf == Repeating(a, b) && at < MAX_PAGE_READS
    ensures console.Now() == AfterReview(a, operator, target) && console.Valid(LogAt(a, b, at))
    ensures reviewed == Reviewed(a, target, operator)
  {
    hide Consistent, Finished, ReviewEnded, ReviewBegun, CurrentReview;
    RepeatingIsHonest(a, b);
    ReviewSteps(Repeating(a, b), a, b, operator, target);
    ghost var logs := (read: nat) => LogAt(a, b, read);
    console := new OperatorConsole(Repeating(a, b));
    LogGrows(console.authorityOf, INITIAL, [], logs(0));
    var review := console.BeginReview(logs(0));
    at := console.RunOperation(ServerOf(a, b), 0, Session(Some(operator), Some(target)), logs);
    console.Clear(logs(at));
    var read := console.EndReview(review, logs(at));
    reviewed := read.value.reviewed;
  }

  /**
   A run of the console on an honest, growing log that posts a revocation of what
   was reviewed although another authority event was logged in between: one that
   repeats the root and the epoch.
   */
  method PostPastRepeatedEpoch(a: Snapshot, b: Snapshot, operator: Identity, target: string, requestId: nat)
    returns (posts: seq<Post>, reviewed: Reviewed)
    requires SameAuthority(a, b)
    ensures Repeating(a, b)(RepeatingLog(a, b)[0]) == Some(a) && Repeating(a, b)(RepeatingLog(a, b)[1]) == Some(b)
    ensures reviewed == Reviewed(a, target, operator)
    ensures posts == [Post(0, FreshRead(1, Reviewed(b, target, operator)))]
  {
    hide Consistent, Finished, RevocationBegun, RevocationEnded, CurrentReview, LetsGo;
    var console;
    ghost var at;
    console, reviewed, at := ReviewOnce(a, b, operator, target);
    RepeatingIsHonest(a, b);
    RevocationSteps(Repeating(a, b), a, b, operator, target, requestId);
    ghost var logs := (read: nat) => LogAt(a, b, read);
    var revocation := console.BeginRevocation(reviewed, requestId, logs(at));
    Grown(logs, at, MAX_PAGE_READS);
    LogGrows(console.authorityOf, console.Now(), logs(at), logs(MAX_PAGE_READS));
    at := console.RunOperation(ServerOf(a, b), MAX_PAGE_READS, Session(Some(operator), Some(target)), logs);
    console.Clear(logs(at));
    var _ := console.EndRevocation(revocation, logs(at));
    posts := console.posts;
  }
}
