/**
 The runner's hold / promote / revoke / release scripts, against a cloud that
 acts between any two calls and whose calls may fail before, after or long
 before they take effect. Nobody but the runner pauses or resumes the queue.
 */
module RunnerScripts {
  import opened Option
  import opened EpochFence

  const EXECUTION_QUEUE: string := "execution-queue"

  datatype Fault = Confirmed | FailedAfterEffect | FailedBeforeEffect | FailedLate

  /** Actions of the cloud alone; only the runner issues commands. */
  type CloudActions = s: seq<Action> | forall i :: 0 <= i < |s| ==> !s[i].Issue? witness []

  /** How the cloud behaves around one call of the runner. */
  datatype CallPlan = CallPlan(before: CloudActions, fault: Fault, after: CloudActions, revokeFirst: bool)

  /** Every world passed through, from `w` to `Run(w, actions)`. */
  function Trace(w: World, actions: seq<Action>): seq<World>
    decreases |actions|
  {
    [w] + if actions == [] then [] else Trace(Step(w, actions[0]), actions[1..])
  }

  /** The world right after the call has taken effect, failed, or been left pending. */
  function Answered(w: World, c: Command, fault: Fault): World {
    match fault
    case Confirmed => Step(w, Issue(c))
    case FailedAfterEffect => Step(w, Issue(c))
    case FailedBeforeEffect => w
    case FailedLate => w.(late := w.late + {c})
  }

  function AfterCall(w: World, c: Command, p: CallPlan): World {
    Run(Answered(Run(w, p.before), c, p.fault), p.after)
  }

  /** Whether the runner sees the call succeed: a revocation must match the current epoch. */
  predicate Confirms(w: World, c: Command, p: CallPlan) {
    p.fault == Confirmed && (c == Revoke ==> Run(w, p.before).Epoch() == w.signed)
  }

  // ---- The fence every script but the race keeps

  /**
   Until the epoch has moved past the signed one, a queued promotion sits in a
   paused queue that nothing pending can resume; so it is only ever delivered,
   claimed and read at a later epoch, and never changes traffic.
   */
  ghost predicate Fenced(w: World) {
    && Inv(w)
    && w.signed >= 1
    && ((w.queued || Enqueue in w.late) && w.Epoch() <= w.signed ==> w.paused && Release !in w.late)
    && (w.inflight > 0 ==> w.Epoch() > w.signed)
    && (w.receipt.Some? ==> w.Epoch() > w.signed && w.commits[w.signed - 1] < w.receipt.value.createdAt)
    && (w.lastRead.Some? ==> w.lastRead.value.epoch > w.signed)
    && w.changes == 0
    && !w.owner.Permitted? && !w.owner.Called?
  }

  lemma CloudStepKeepsFenced(w: World, a: Action)
    requires Fenced(w) && !a.Issue?
    ensures Fenced(Step(w, a))
  {
    if a.TakeEffect? {
      LateStepKeepsFenced(w, a.command);
    } else if a.Gate? || a.Call? || a.Persist? || a.Readback? || a.Crash? {
      ExecutorStepKeepsFenced(w, a);
    } else {
      hide CurrentAt, ReceiptConsistent, GateStep, CallStep, PersistStep, ReadbackStep, Ascending;
      StepKeepsInv(w, a);
      StepAdvances(w, a);
    }
  }

  lemma ExecutorStepKeepsFenced(w: World, a: Action)
    requires Fenced(w) && (a.Gate? || a.Call? || a.Persist? || a.Readback? || a.Crash?)
    ensures Fenced(Step(w, a))
  {
    hide CurrentAt, ReceiptConsistent, Ascending;
    StepKeepsInv(w, a);
    StepAdvances(w, a);
  }

  lemma LateStepKeepsFenced(w: World, c: Command)
    requires Fenced(w)
    ensures Fenced(Step(w, TakeEffect(c)))
  {
    hide CurrentAt, ReceiptConsistent;
    StepKeepsInv(w, TakeEffect(c));
    StepAdvances(w, TakeEffect(c));
    TakeEffectShape(w, c);
  }

  lemma {:induction false} CloudRunKeepsFenced(w: World, actions: CloudActions)
    requires Fenced(w)
    ensures Fenced(Run(w, actions))
    ensures forall x :: x in Trace(w, actions) ==> Fenced(x)
    decreases |actions|
  {
    if actions != [] {
      CloudStepKeepsFenced(w, actions[0]);
      var rest: CloudActions := actions[1..];
      CloudRunKeepsFenced(Step(w, actions[0]), rest);
    }
  }

  /** The queue is paused and nothing pending will resume it. */
  predicate Held(w: World) {
    w.paused && Release !in w.late
  }

  /** The queue is running and nothing pending will pause it. */
  predicate Running(w: World) {
    !w.paused && Hold !in w.late
  }

  lemma {:induction false} CloudRunKeepsQueue(w: World, actions: CloudActions)
    ensures var x := Run(w, actions);
            && x.signed == w.signed && x.late <= w.late && w.commits <= x.commits
            && (Held(w) ==> Held(x))
            && (Running(w) ==> Running(x))
    decreases |actions|
  {
    if actions != [] {
      CloudStepKeepsQueue(w, actions[0]);
      var rest: CloudActions := actions[1..];
      CloudRunKeepsQueue(Step(w, actions[0]), rest);
    }
  }

  lemma CloudStepKeepsQueue(w: World, a: Action)
    requires !a.Issue?
    ensures var x := Step(w, a);
            && x.signed == w.signed && x.late <= w.late && w.commits <= x.commits
            && (Held(w) ==> Held(x))
            && (Running(w) ==> Running(x))
  {
  }

  /** When a command may be sent without opening the fence. */
  predicate Safe(w: World, c: Command) {
    match c
    case Hold => true
    case Revoke => true
    case Enqueue => Held(w) || w.Epoch() > w.signed
    case Release => w.Epoch() > w.signed
  }

  lemma {:induction false} CloudRunKeepsSafe(w: World, c: Command, actions: CloudActions)
    requires Safe(w, c)
    ensures Safe(Run(w, actions), c)
  {
    CloudRunKeepsQueue(w, actions);
  }

  lemma AnsweredKeepsFenced(w: World, c: Command, fault: Fault)
    requires Fenced(w) && Safe(w, c)
    ensures Fenced(Answered(w, c, fault))
  {
    StepKeepsInv(w, Issue(c));
    StepAdvances(w, Issue(c));
  }

  /** A call of the runner keeps the fence in every world it passes through. */
  lemma CallKeepsFenced(w: World, c: Command, p: CallPlan)
    requires Fenced(w) && Safe(w, c)
    ensures Fenced(AfterCall(w, c, p))
    ensures forall x :: x in CallTrace(w, c, p) ==> Fenced(x)
  {
    CloudRunKeepsFenced(w, p.before);
    CloudRunKeepsSafe(w, c, p.before);
    AnsweredKeepsFenced(Run(w, p.before), c, p.fault);
    CloudRunKeepsFenced(Answered(Run(w, p.before), c, p.fault), p.after);
  }

  function CallTrace(w: World, c: Command, p: CallPlan): seq<World> {
    Trace(w, p.before) + Trace(Answered(Run(w, p.before), c, p.fault), p.after)
  }

  /** What a confirmed call leaves behind, whatever the cloud does around it. */
  lemma ConfirmedCall(w: World, c: Command, p: CallPlan)
    requires Confirms(w, c, p)
    ensures var x := AfterCall(w, c, p);
            && x.late <= w.late && x.signed == w.signed && w.commits <= x.commits
            && (c == Hold && Release !in w.late ==> Held(x))
            && (c == Release && Hold !in w.late ==> Running(x))
            && (c == Revoke ==> x.Epoch() > x.signed)
            && (c == Enqueue && Held(w) ==> Held(x))
            && (c == Revoke && Held(w) ==> Held(x))
  {
    CloudRunKeepsQueue(w, p.before);
    var y := Run(w, p.before);
    CloudRunKeepsQueue(Step(y, Issue(c)), p.after);
  }

  /** What any call, confirmed or not, leaves of the queue and the pending commands. */
  lemma AnyCall(w: World, c: Command, p: CallPlan)
    ensures var x := AfterCall(w, c, p);
            && x.late <= w.late + {c} && x.signed == w.signed && w.commits <= x.commits
            && (c in {Enqueue, Revoke} && Held(w) ==> Held(x))
  {
    hide Run, Answered;
    CloudRunKeepsQueue(w, p.before);
    var y := Run(w, p.before);
    AnsweredKeepsQueue(y, c, p.fault);
    CloudRunKeepsQueue(Answered(y, c, p.fault), p.after);
  }

  lemma AnsweredKeepsQueue(w: World, c: Command, fault: Fault)
    ensures var x := Answered(w, c, fault);
            && x.late <= w.late + {c} && x.signed == w.signed && w.commits <= x.commits
            && (c in {Enqueue, Revoke} && Held(w) ==> Held(x))
  {
    assert fault.Confirmed? || fault.FailedAfterEffect? || fault.FailedBeforeEffect? || fault.FailedLate?;
  }

  // ---- What was passed through

  /** One world comes from the other by an action, by a call left pending, or is the same. */
  ghost predicate Follows(x: World, y: World) {
    || y == x
    || (exists a :: y == Step(x, a))
    || exists c :: y == LeftPending(x, c)
  }

  function LeftPending(w: World, c: Command): World {
    w.(late := w.late + {c})
  }

  /** A history of a world: step by step, and up to it. */
  ghost predicate HistoryOf(history: seq<World>, w: World) {
    && history != [] && history[|history| - 1] == w
    && forall i :: 0 < i < |history| ==> Follows(history[i - 1], history[i])
  }

  lemma {:induction false} TraceIsHistory(w: World, actions: seq<Action>)
    ensures HistoryOf(Trace(w, actions), Run(w, actions)) && Trace(w, actions)[0] == w
    decreases |actions|
  {
    if actions != [] {
      TraceIsHistory(Step(w, actions[0]), actions[1..]);
      var rest := Trace(Step(w, actions[0]), actions[1..]);
      assert Trace(w, actions) == [w] + rest;
      assert Follows(w, rest[0]);
    }
  }

  lemma HistoriesJoin(a: seq<World>, w: World, b: seq<World>, x: World)
    requires HistoryOf(a, w) && HistoryOf(b, x) && Follows(w, b[0])
    ensures HistoryOf(a + b, x)
  {
    hide Follows;
    forall i | 0 < i < |a + b|
      ensures Follows((a + b)[i - 1], (a + b)[i])
    {
      if i > |a| {
        assert Follows(b[i - |a| - 1], b[i - |a|]);
      }
    }
  }

  lemma CallIsHistory(w: World, c: Command, p: CallPlan)
    ensures HistoryOf(CallTrace(w, c, p), AfterCall(w, c, p)) && CallTrace(w, c, p)[0] == w
  {
    var u := Run(w, p.before);
    TraceIsHistory(w, p.before);
    TraceIsHistory(Answered(u, c, p.fault), p.after);
    assert Answered(u, c, p.fault) in {u, Step(u, Issue(c)), LeftPending(u, c)};
    assert Follows(u, Answered(u, c, p.fault));
    HistoriesJoin(
      Trace(w, p.before), u, Trace(Answered(u, c, p.fault), p.after), AfterCall(w, c, p));
  }

  // ---- The runner

  datatype ScriptResult = Raised | Finished(receipt: Receipt)

  /** Receipts the poll keeps waiting on. */
  predicate Pending(r: Receipt) {
    r.outcome in {CLAIMED, APPLIED, AMBIGUOUS}
  }

  /** The calls of both scripts, in the order they are made. */
  const SCRIPT: seq<Command> := [Hold, Enqueue, Revoke, Release]

  /** Where a script's calls stop: the world they leave, the calls made by then, and how many were confirmed. */
  datatype Progress = Progress(world: World, calls: nat, confirmed: nat)

  /** The calls from the `i`-th on, until one is not confirmed or `stop` are. */
  function CallsFrom(w: World, cloud: nat -> CallPlan, calls: nat, i: nat, stop: nat): Progress
    requires i <= stop <= 4
    decreases stop - i
  {
    if i == stop then Progress(w, calls, stop)
    else
      var x := AfterCall(w, SCRIPT[i], cloud(calls));
      if Confirms(w, SCRIPT[i], cloud(calls)) then CallsFrom(x, cloud, calls + 1, i + 1, stop)
      else Progress(x, calls + 1, i)
  }

  /** How a script ends: its result, the world, and whether the queue is marked for cleanup. */
  datatype End = End(result: ScriptResult, world: World, flagged: bool)

  function Terminal(w: World): Option<Receipt> {
    if w.receipt.Some? && !Pending(w.receipt.value) then w.receipt else None
  }

  /**
   The delayed task: its calls; then, if the release was not confirmed, another
   release, and if all were, the poll for the receipt.
   */
  function DelayedTaskEnd(w: World, cloud: nat -> CallPlan, calls: nat): End {
    var p := CallsFrom(w, cloud, calls, 0, 4);
    if p.confirmed == 4 then
      var x := Run(p.world, cloud(p.calls).before);
      End(if Terminal(x).Some? then Finished(Terminal(x).value) else Raised, x, false)
    else if p.confirmed == 3 then
      End(Raised, AfterCall(p.world, Release, cloud(p.calls)), !Confirms(p.world, Release, cloud(p.calls)))
    else End(Raised, p.world, p.confirmed > 0)
  }

  predicate DeniedAtNext(r: Receipt, signed: nat) {
    r.outcome == DENIED && r.reason == EpochMismatch && r.observedEpoch == Some(signed + 1)
  }

  /** The revocation case: no more than the hold if the evaluation fails; the receipt must be the stale denial. */
  function RevocationCaseEnd(w: World, cloud: nat -> CallPlan, calls: nat, evaluated: bool): End {
    var p := CallsFrom(w, cloud, calls, 0, if evaluated then 4 else 1);
    if p.confirmed == 4 then
      var x := Run(p.world, cloud(p.calls).before);
      End(
        if Terminal(x).Some? && DeniedAtNext(Terminal(x).value, x.signed) then Finished(Terminal(x).value) else Raised,
        x, false)
    else End(Raised, p.world, p.confirmed > 0)
  }

  // ---- What the result is, call by call

  /** The hold, the promotion and the revocation were each confirmed. */
  ghost predicate Revoked(w: World, cloud: nat -> CallPlan, calls: nat) {
    var held := AfterCall(w, Hold, cloud(calls));
    var promoted := AfterCall(held, Enqueue, cloud(calls + 1));
    && Confirms(w, Hold, cloud(calls))
    && Confirms(held, Enqueue, cloud(calls + 1))
    && Confirms(promoted, Revoke, cloud(calls + 2))
  }

  ghost function AfterRevocation(w: World, cloud: nat -> CallPlan, calls: nat): World {
    AfterCall(AfterCall(AfterCall(w, Hold, cloud(calls)), Enqueue, cloud(calls + 1)), Revoke, cloud(calls + 2))
  }

  /** And so was the release. */
  ghost predicate Released(w: World, cloud: nat -> CallPlan, calls: nat) {
    Revoked(w, cloud, calls) && Confirms(AfterRevocation(w, cloud, calls), Release, cloud(calls + 3))
  }

  /** The release was asked for once more, and then confirmed. */
  ghost predicate ReleasedAgain(w: World, cloud: nat -> CallPlan, calls: nat) {
    && Revoked(w, cloud, calls)
    && Confirms(AfterCall(AfterRevocation(w, cloud, calls), Release, cloud(calls + 3)), Release, cloud(calls + 4))
  }

  /** The receipt in the world once the poll after the release has waited. */
  ghost function Awaited(w: World, cloud: nat -> CallPlan, calls: nat): Option<Receipt> {
    Run(AfterCall(AfterRevocation(w, cloud, calls), Release, cloud(calls + 3)), cloud(calls + 4).before).receipt
  }

  lemma SettledOutcomes(w: World)
    ensures Terminal(w)
         == if w.receipt.Some? && w.receipt.value.outcome in {DENIED, FAILED_SAFE, VERIFIED} then w.receipt else None
  {
    if w.receipt.Some? {
      var outcome := w.receipt.value.outcome;
      assert outcome.DENIED? || outcome.FAILED_SAFE? || outcome.VERIFIED? || Pending(w.receipt.value);
    }
  }

  /** The delayed task finishes exactly when every call is confirmed and the receipt is terminal. */
  lemma DelayedTaskAnswer(w: World, cloud: nat -> CallPlan, calls: nat)
    ensures DelayedTaskEnd(w, cloud, calls).result
         == var r := Awaited(w, cloud, calls);
            if Released(w, cloud, calls) && r.Some? && r.value.outcome in {DENIED, FAILED_SAFE, VERIFIED}
            then Finished(r.value) else Raised
    ensures DelayedTaskEnd(w, cloud, calls).flagged
       <==> && Confirms(w, Hold, cloud(calls))
            && !Released(w, cloud, calls) && !ReleasedAgain(w, cloud, calls)
  {
    hide AfterCall, Confirms, Run, AfterRevocation, Revoked;
    Unrolled(w, cloud, calls);
    var p := CallsFrom(w, cloud, calls, 0, 4);
    if p.confirmed == 3 {
      assert ReleasedAgain(w, cloud, calls) <==> Confirms(p.world, Release, cloud(p.calls));
    } else if p.confirmed == 4 {
      SettledOutcomes(Run(p.world, cloud(p.calls).before));
    }
  }

  /** The revocation case finishes exactly when, too, the evaluation succeeds and the receipt is the stale denial. */
  lemma RevocationCaseAnswer(w: World, cloud: nat -> CallPlan, calls: nat, evaluated: bool)
    ensures RevocationCaseEnd(w, cloud, calls, evaluated).result
         == var r := Awaited(w, cloud, calls);
            if && evaluated && Released(w, cloud, calls) && r.Some?
               && r.value.outcome == DENIED && r.value.reason == EpochMismatch
               && r.value.observedEpoch == Some(w.signed + 1)
            then Finished(r.value) else Raised
    ensures RevocationCaseEnd(w, cloud, calls, evaluated).flagged
       <==> Confirms(w, Hold, cloud(calls)) && !(evaluated && Released(w, cloud, calls))
  {
    SignedStays(w, cloud, calls);
    hide AfterCall, Confirms, Run, AfterRevocation, Revoked, Released;
    Unrolled(w, cloud, calls);
  }

  lemma SignedStays(w: World, cloud: nat -> CallPlan, calls: nat)
    ensures Run(AfterCall(AfterRevocation(w, cloud, calls), Release, cloud(calls + 3)), cloud(calls + 4).before).signed
         == w.signed
  {
    var held := AfterCall(w, Hold, cloud(calls));
    var promoted := AfterCall(held, Enqueue, cloud(calls + 1));
    var revoked := AfterCall(promoted, Revoke, cloud(calls + 2));
    AnyCall(w, Hold, cloud(calls));
    AnyCall(held, Enqueue, cloud(calls + 1));
    AnyCall(promoted, Revoke, cloud(calls + 2));
    AnyCall(revoked, Release, cloud(calls + 3));
    CloudRunKeepsQueue(AfterCall(revoked, Release, cloud(calls + 3)), cloud(calls + 4).before);
  }

  /** The calls, one after the other. */
  lemma Unrolled(w: World, cloud: nat -> CallPlan, calls: nat)
    ensures var p := CallsFrom(w, cloud, calls, 0, 4);
            var x := AfterRevocation(w, cloud, calls);
            && (p.confirmed == 0 <==> !Confirms(w, Hold, cloud(calls)))
            && (p.confirmed >= 3 <==> Revoked(w, cloud, calls))
            && (p.confirmed == 4 <==> Released(w, cloud, calls))
            && p.confirmed <= 4
            && (p.confirmed >= 3 ==> p.calls == calls + 4 && p.world == AfterCall(x, Release, cloud(calls + 3)))
    ensures CallsFrom(w, cloud, calls, 0, 1).confirmed == if Confirms(w, Hold, cloud(calls)) then 1 else 0
  {
    hide AfterCall, Confirms;
    var held := AfterCall(w, Hold, cloud(calls));
    var promoted := AfterCall(held, Enqueue, cloud(calls + 1));
    var revoked := AfterCall(promoted, Revoke, cloud(calls + 2));
    assert SCRIPT[0] == Hold && SCRIPT[1] == Enqueue && SCRIPT[2] == Revoke && SCRIPT[3] == Release;
    if Confirms(w, Hold, cloud(calls)) {
      assert CallsFrom(w, cloud, calls, 0, 4) == CallsFrom(held, cloud, calls + 1, 1, 4);
      if Confirms(held, Enqueue, cloud(calls + 1)) {
        assert CallsFrom(held, cloud, calls + 1, 1, 4) == CallsFrom(promoted, cloud, calls + 2, 2, 4);
        if Confirms(promoted, Revoke, cloud(calls + 2)) {
          assert CallsFrom(promoted, cloud, calls + 2, 2, 4) == CallsFrom(revoked, cloud, calls + 3, 3, 4);
        }
      }
    }
  }

  // ---- What a race attempt is, call by call

  /** The hold and the promotion were confirmed, and so were both commands sent at once, in either order. */
  ghost predicate RaceRan(w: World, cloud: nat -> CallPlan, calls: nat) {
    var held := AfterCall(w, Hold, cloud(calls));
    var promoted := AfterCall(held, Enqueue, cloud(calls + 1));
    var plan, second := cloud(calls + 2), cloud(calls + 3);
    && Confirms(w, Hold, cloud(calls))
    && Confirms(held, Enqueue, cloud(calls + 1))
    && (if plan.revokeFirst
        then Confirms(promoted, Revoke, plan) && Confirms(AfterCall(promoted, Revoke, plan), Release, second)
        else Confirms(promoted, Release, plan) && Confirms(AfterCall(promoted, Release, plan), Revoke, second))
  }

  /** The world once the poll after both has waited. */
  ghost function RaceAwaited(w: World, cloud: nat -> CallPlan, calls: nat): World {
    var promoted := AfterCall(AfterCall(w, Hold, cloud(calls)), Enqueue, cloud(calls + 1));
    var plan, second := cloud(calls + 2), cloud(calls + 3);
    Run(
      if plan.revokeFirst then AfterCall(AfterCall(promoted, Revoke, plan), Release, second)
      else AfterCall(AfterCall(promoted, Release, plan), Revoke, second),
      cloud(calls + 4).before)
  }

  /** A mismatch denial whose claim, revocation and update come in this order of whole seconds. */
  ghost predicate RecordedAsRace(w: World) {
    && w.receipt.Some? && w.receipt.value.outcome == DENIED && w.receipt.value.reason == EpochMismatch
    && 1 <= w.signed <= |w.commits|
    && w.receipt.value.createdAt / 1000 <= w.commits[w.signed - 1] / 1000 <= w.receipt.value.updatedAt / 1000
  }

  /** Nothing has been issued, the queue runs, and the first epoch is current. */
  function Start(signed: nat): World {
    World(signed, 0, false, false, 0, [], None, Nobody, None, 0, {})
  }

  class Runner {
    const cloud: nat -> CallPlan
    var calls: nat
    var world: World
    var cleanupRequired: set<string>
    var queueCleanupRequired: bool
    ghost var history: seq<World>

    constructor (signed: nat, cloud: nat -> CallPlan)
      requires signed >= 1
      ensures this.cloud == cloud && calls == 0 && cleanupRequired == {} && !queueCleanupRequired
      ensures world == Start(signed) && history == [world] && AlwaysFenced()
    {
      this.cloud := cloud;
      calls := 0;
      world := Start(signed);
      cleanupRequired := {};
      queueCleanupRequired := false;
      history := [Start(signed)];
      new;
      FreshFenced(world);
    }

    /** The history leads step by step to the world, and never out of the fence. */
    ghost predicate AlwaysFenced()
      reads this
    {
      Fenced(world) && HistoryOf(history, world) && forall x :: x in history ==> Fenced(x)
    }

    method Send(c: Command) returns (ok: bool)
      modifies this`world, this`calls, this`history
      ensures calls == old(calls) + 1
      ensures world == AfterCall(old(world), c, cloud(old(calls)))
      ensures ok == Confirms(old(world), c, cloud(old(calls)))
      ensures history == old(history) + CallTrace(old(world), c, cloud(old(calls)))
      ensures old(AlwaysFenced()) && Safe(old(world), c) ==> AlwaysFenced()
    {
      var plan := cloud(calls);
      calls := calls + 1;
      ok := Confirms(world, c, plan);
      if AlwaysFenced() && Safe(world, c) {
        CallKeepsFenced(world, c, plan);
        CallIsHistory(world, c, plan);
        HistoriesJoin(history, world, CallTrace(world, c, plan), AfterCall(world, c, plan));
      }
      history := history + CallTrace(world, c, plan);
      world := AfterCall(world, c, plan);
    }

    /** Pause the queue and check that the answer says it is paused. */
    method HoldQueue() returns (ok: bool)
      requires AlwaysFenced() && world.late == {}
      modifies this`world, this`calls, this`history
      ensures AlwaysFenced() && old(history) <= history && calls == old(calls) + 1
      ensures world == AfterCall(old(world), Hold, cloud(old(calls)))
      ensures ok == Confirms(old(world), Hold, cloud(old(calls)))
      ensures world.signed == old(world.signed) && (ok ==> Held(world) && world.late == {})
    {
      ghost var w := world;
      ok := Send(Hold);
      AnyCall(w, Hold, cloud(calls - 1));
      if ok {
        ConfirmedCall(w, Hold, cloud(calls - 1));
      }
    }

    /** Issue the promotion, which is put on the paused queue. */
    method Promote() returns (ok: bool)
      requires AlwaysFenced() && Held(world) && world.late == {}
      modifies this`world, this`calls, this`history
      ensures AlwaysFenced() && old(history) <= history
      ensures calls == old(calls) + 1 && world == AfterCall(old(world), Enqueue, cloud(old(calls)))
      ensures ok == Confirms(old(world), Enqueue, cloud(old(calls)))
      ensures Held(world) && world.late <= {Enqueue} && world.signed == old(world.signed)
      ensures ok ==> world.late == {}
    {
      ghost var w := world;
      ok := Send(Enqueue);
      AnyCall(w, Enqueue, cloud(calls - 1));
      if ok {
        ConfirmedCall(w, Enqueue, cloud(calls - 1));
      }
    }

    /** Advance the epoch; a confirmed revocation has moved it past the signed one. */
    method RevokeEpoch() returns (ok: bool)
      requires AlwaysFenced() && Held(world) && world.late == {}
      modifies this`world, this`calls, this`history
      ensures AlwaysFenced() && old(history) <= history
      ensures calls == old(calls) + 1 && world == AfterCall(old(world), Revoke, cloud(old(calls)))
      ensures ok == Confirms(old(world), Revoke, cloud(old(calls)))
      ensures Held(world) && world.late <= {Revoke} && world.signed == old(world.signed)
      ensures ok ==> world.late == {} && world.Epoch() > world.signed
    {
      ghost var w := world;
      ok := Send(Revoke);
      AnyCall(w, Revoke, cloud(calls - 1));
      if ok {
        ConfirmedCall(w, Revoke, cloud(calls - 1));
      }
    }

    /** Resume the queue, which is only asked for once the epoch has moved on. */
    method ReleaseQueue() returns (ok: bool)
      requires AlwaysFenced() && world.late <= {Release} && world.Epoch() > world.signed
      modifies this`world, this`calls, this`history
      ensures AlwaysFenced() && old(history) <= history
      ensures calls == old(calls) + 1 && world == AfterCall(old(world), Release, cloud(old(calls)))
      ensures ok == Confirms(old(world), Release, cloud(old(calls)))
      ensures world.late <= {Release} && world.signed == old(world.signed) && world.Epoch() > world.signed
      ensures ok ==> Running(world)
    {
      ghost var w := world;
      ok := Send(Release);
      AnyCall(w, Release, cloud(calls - 1));
      if ok {
        ConfirmedCall(w, Release, cloud(calls - 1));
      }
    }

    /** Wait for the receipt to become terminal; none if it does not in time. */
    method PollReceipt() returns (receipt: Option<Receipt>)
      requires AlwaysFenced() && Running(world)
      modifies this`world, this`calls, this`history
      ensures AlwaysFenced() && old(history) <= history && Running(world)
      ensures world == Run(old(world), cloud(old(calls)).before) && receipt == Terminal(world)
      ensures receipt.Some? ==> DeniedInOrder(world)
    {
      var plan := cloud(calls);
      calls := calls + 1;
      CloudRunKeepsFenced(world, plan.before);
      CloudRunKeepsQueue(world, plan.before);
      TraceIsHistory(world, plan.before);
      HistoriesJoin(history, world, Trace(world, plan.before), Run(world, plan.before));
      history := history + Trace(world, plan.before);
      world := Run(world, plan.before);
      receipt := None;
      if world.receipt.Some? && !Pending(world.receipt.value) {
        FencedReceiptDenied(world);
        receipt := world.receipt;
      }
    }

    /** The delayed-task fault case, with its `finally` block after the calls. */
    method ExecuteDelayedTask() returns (r: ScriptResult)
      requires world.late == {} && AlwaysFenced()
      modifies this`world, this`calls, this`history, this`cleanupRequired
      ensures AlwaysFenced() && old(history) <= history
      ensures Confirms(old(world), Hold, cloud(old(calls))) ==>
                Running(world) || EXECUTION_QUEUE in cleanupRequired
      ensures !Confirms(old(world), Hold, cloud(old(calls))) ==>
                && r.Raised? && world == AfterCall(old(world), Hold, cloud(old(calls)))
                && cleanupRequired == old(cleanupRequired)
      ensures var end := DelayedTaskEnd(old(world), cloud, old(calls));
              && r == end.result && world == end.world
              && cleanupRequired == old(cleanupRequired) + if end.flagged then {EXECUTION_QUEUE} else {}
      ensures var receipt := Awaited(old(world), cloud, old(calls));
              r == if && Released(old(world), cloud, old(calls))
                      && receipt.Some? && receipt.value.outcome in {DENIED, FAILED_SAFE, VERIFIED}
                   then Finished(receipt.value) else Raised
      ensures EXECUTION_QUEUE !in old(cleanupRequired) ==>
                (EXECUTION_QUEUE in cleanupRequired
                 <==> && Confirms(old(world), Hold, cloud(old(calls)))
                      && !Released(old(world), cloud, old(calls)) && !ReleasedAgain(old(world), cloud, old(calls)))
      ensures r.Finished? ==>
                && Running(world) && cleanupRequired == old(cleanupRequired)
                && world.receipt == Some(r.receipt) && DeniedInOrder(world)
    {
      DelayedTaskAnswer(world, cloud, calls);
      hide HistoryOf, DeniedInOrder, Follows, Fenced, AfterCall, Confirms, Run, StaleDenial, Pending, DeniedAtNext;
      hide Released, ReleasedAgain, Awaited;
      r := Raised;
      ghost var progress := CallsFrom(world, cloud, calls, 0, 4);
      var revoked := false;
      var held := HoldQueue();
      if held {
        assert progress == CallsFrom(world, cloud, calls, 1, 4);
        var promoted := Promote();
        if promoted {
          assert progress == CallsFrom(world, cloud, calls, 2, 4);
          revoked := RevokeEpoch();
          if revoked {
            assert progress == CallsFrom(world, cloud, calls, 3, 4);
            var released := ReleaseQueue();
            if released {
              assert progress == CallsFrom(world, cloud, calls, 4, 4);
              held := false;
              var stale := PollReceipt();
              if stale.Some? {
                r := Finished(stale.value);
              }
            }
          }
        }
      }
      if held {
        if !revoked {
          cleanupRequired := cleanupRequired + {EXECUTION_QUEUE};
        } else {
          var released := ReleaseQueue();
          if released {
            held := false;
          } else {
            cleanupRequired := cleanupRequired + {EXECUTION_QUEUE};
          }
        }
      }
    }

    /**
     The revocation case of the acceptance run, up to its check of the stale
     receipt; `evaluated` says whether the health evaluation between the hold
     and the promotion succeeds.
     */
    method RunRevocationCase(evaluated: bool) returns (r: ScriptResult)
      requires world.late == {} && AlwaysFenced() && !queueCleanupRequired
      modifies this`world, this`calls, this`history, this`queueCleanupRequired
      ensures AlwaysFenced() && old(history) <= history
      ensures Confirms(old(world), Hold, cloud(old(calls))) ==> Running(world) || queueCleanupRequired
      ensures !Confirms(old(world), Hold, cloud(old(calls))) ==>
                r.Raised? && world == AfterCall(old(world), Hold, cloud(old(calls))) && !queueCleanupRequired
      ensures End(r, world, queueCleanupRequired) == RevocationCaseEnd(old(world), cloud, old(calls), evaluated)
      ensures var receipt := Awaited(old(world), cloud, old(calls));
              r == if && evaluated && Released(old(world), cloud, old(calls)) && receipt.Some?
                      && receipt.value.outcome == DENIED && receipt.value.reason == EpochMismatch
                      && receipt.value.observedEpoch == Some(old(world.signed) + 1)
                   then Finished(receipt.value) else Raised
      ensures queueCleanupRequired
         <==> && Confirms(old(world), Hold, cloud(old(calls)))
              && !(evaluated && Released(old(world), cloud, old(calls)))
      ensures r.Finished? ==>
                && Running(world) && !queueCleanupRequired && world.receipt == Some(r.receipt)
                && StaleDenial(world) && DeniedInOrder(world)
    {
      RevocationCaseAnswer(world, cloud, calls, evaluated);
      hide HistoryOf, DeniedInOrder, Follows, Fenced, AfterCall, Confirms, Run, StaleDenial, Pending, DeniedAtNext;
      hide Released, Awaited;
      r := Raised;
      ghost var progress := CallsFrom(world, cloud, calls, 0, if evaluated then 4 else 1);
      var held := HoldQueue();
      if !held {
        return;
      }
      queueCleanupRequired := true;
      assert progress == CallsFrom(world, cloud, calls, 1, if evaluated then 4 else 1);
      if !evaluated {
        return;
      }
      var promoted := Promote();
      if !promoted {
        return;
      }
      assert progress == CallsFrom(world, cloud, calls, 2, 4);
      var revoked := RevokeEpoch();
      if !revoked {
        return;
      }
      assert progress == CallsFrom(world, cloud, calls, 3, 4);
      var released := ReleaseQueue();
      if !released {
        return;
      }
      assert progress == CallsFrom(world, cloud, calls, 4, 4);
      queueCleanupRequired := false;
      r := AwaitStaleDenial();
    }

    /** Poll for the receipt and insist on a denial at the epoch after the signed one. */
    method AwaitStaleDenial() returns (r: ScriptResult)
      requires AlwaysFenced() && Running(world)
      modifies this`world, this`calls, this`history
      ensures AlwaysFenced() && old(history) <= history && Running(world)
      ensures r.Finished? ==> world.receipt == Some(r.receipt) && StaleDenial(world) && DeniedInOrder(world)
      ensures world == Run(old(world), cloud(old(calls)).before)
      ensures r == if Terminal(world).Some? && DeniedAtNext(Terminal(world).value, world.signed)
                   then Finished(Terminal(world).value) else Raised
    {
      var stale := PollReceipt();
      if stale.None?
         || stale.value.outcome != DENIED
         || stale.value.reason != EpochMismatch
         || stale.value.observedEpoch != Some(world.signed + 1)
      {
        return Raised;
      }
      return Finished(stale.value);
    }

    // ---- The race, which opens the fence on purpose

    /** Send two commands at once; the cloud decides which takes effect first. */
    method SendBoth(c: Command, d: Command) returns (okC: bool, okD: bool)
      requires Inv(world)
      modifies this`world, this`calls
      ensures Inv(world) && world.signed == old(world.signed) && world.late <= old(world.late) + {c, d}
      ensures calls == old(calls) + 2
      ensures var plan, second := cloud(old(calls)), cloud(old(calls) + 1);
              if plan.revokeFirst == (c == Revoke) then
                var mid := AfterCall(old(world), c, plan);
                && okC == Confirms(old(world), c, plan) && okD == Confirms(mid, d, second)
                && world == AfterCall(mid, d, second)
              else
                var mid := AfterCall(old(world), d, plan);
                && okD == Confirms(old(world), d, plan) && okC == Confirms(mid, c, second)
                && world == AfterCall(mid, c, second)
      ensures {c, d} == {Release, Revoke} && okC && okD && Hold !in old(world.late) ==> Running(world)
      ensures (c == Revoke && okC) || (d == Revoke && okD) ==> world.Epoch() > world.signed
    {
      var plan, second := cloud(calls), cloud(calls + 1);
      calls := calls + 2;
      var w := world;
      if plan.revokeFirst == (c == Revoke) {
        okC, okD := Confirms(w, c, plan), Confirms(AfterCall(w, c, plan), d, second);
        TwoCalls(w, c, plan, d, second);
        world := AfterCall(AfterCall(w, c, plan), d, second);
      } else {
        okD, okC := Confirms(w, d, plan), Confirms(AfterCall(w, d, plan), c, second);
        TwoCalls(w, d, plan, c, second);
        world := AfterCall(AfterCall(w, d, plan), c, second);
      }
    }

    /**
     One attempt of the revocation race: the queue is resumed while the epoch
     advances, so the promotion may win or lose.
     */
    method RaceAttempt() returns (r: ScriptResult, isRace: bool)
      requires Inv(world) && world.late == {} && 1 <= world.signed
      modifies this`world, this`calls, this`cleanupRequired
      ensures Inv(world)
      ensures var receipt := RaceAwaited(old(world), cloud, old(calls)).receipt;
              && r == (if && RaceRan(old(world), cloud, old(calls))
                          && receipt.Some? && receipt.value.outcome in {DENIED, VERIFIED}
                       then Finished(receipt.value) else Raised)
              && isRace == (RaceRan(old(world), cloud, old(calls))
                            && RecordedAsRace(RaceAwaited(old(world), cloud, old(calls))))
      ensures cleanupRequired - {EXECUTION_QUEUE} == old(cleanupRequired) - {EXECUTION_QUEUE}
      ensures EXECUTION_QUEUE in cleanupRequired
         <==> if Confirms(old(world), Hold, cloud(old(calls))) then !RaceRan(old(world), cloud, old(calls))
              else EXECUTION_QUEUE in old(cleanupRequired)
      ensures Confirms(old(world), Hold, cloud(old(calls))) ==>
                Running(world) || EXECUTION_QUEUE in cleanupRequired
      ensures !Confirms(old(world), Hold, cloud(old(calls))) ==>
                && r.Raised? && world == AfterCall(old(world), Hold, cloud(old(calls)))
                && cleanupRequired == old(cleanupRequired)
      ensures r.Finished? ==>
                && Running(world) && cleanupRequired == old(cleanupRequired) - {EXECUTION_QUEUE}
                && world.receipt == Some(r.receipt) && RaceDecided(world, isRace)
    {
      hide RecordedAsRace, AfterCall, Confirms, Run, Inv, RaceDecided;
      r, isRace := Raised, false;
      ghost var w0 := world;
      var held := SendOne(Hold);
      if !held {
        return;
      }
      ConfirmedCall(w0, Hold, cloud(calls - 1));
      cleanupRequired := cleanupRequired + {EXECUTION_QUEUE};
      ghost var w1 := world;
      var promoted := SendOne(Enqueue);
      if !promoted {
        return;
      }
      ConfirmedCall(w1, Enqueue, cloud(calls - 1));
      var released, revoked := SendBoth(Release, Revoke);
      if !released || !revoked {
        cleanupRequired := cleanupRequired + {EXECUTION_QUEUE};
        return;
      }
      cleanupRequired := cleanupRequired - {EXECUTION_QUEUE};
      r, isRace := AwaitTerminal();
    }

    /** A call outside the fence, of which only the general invariant is known. */
    method SendOne(c: Command) returns (ok: bool)
      requires Inv(world)
      modifies this`world, this`calls
      ensures Inv(world) && calls == old(calls) + 1
      ensures world == AfterCall(old(world), c, cloud(old(calls))) && ok == Confirms(old(world), c, cloud(old(calls)))
    {
      AfterCallKeepsInv(world, c, cloud(calls));
      ok := Confirms(world, c, cloud(calls));
      world := AfterCall(world, c, cloud(calls));
      calls := calls + 1;
    }

    /** Poll, and judge from the recorded times whether this attempt was a race. */
    method AwaitTerminal() returns (r: ScriptResult, isRace: bool)
      requires Inv(world) && Running(world) && 1 <= world.signed <= |world.commits|
      modifies this`world, this`calls
      ensures Inv(world) && Running(world)
      ensures world == Run(old(world), cloud(old(calls)).before)
      ensures r == if world.receipt.Some? && world.receipt.value.outcome in {DENIED, VERIFIED}
                   then Finished(world.receipt.value) else Raised
      ensures isRace == RecordedAsRace(world)
      ensures r.Finished? ==> world.receipt == Some(r.receipt) && RaceDecided(world, isRace)
    {
      hide Inv, RaceDecided, Run, Held, Running;
      var plan := cloud(calls);
      calls := calls + 1;
      RunKeepsInv(world, plan.before);
      CloudRunKeepsQueue(world, plan.before);
      world := Run(world, plan.before);
      RaceReceipt(world);
      if world.receipt.None? || Pending(world.receipt.value) {
        return Raised, false;
      }
      var receipt := world.receipt.value;
      var committedAt := world.commits[world.signed - 1];
      isRace := receipt.outcome == DENIED && receipt.reason == EpochMismatch && Ordered(receipt, committedAt, true);
      r := if receipt.outcome in {DENIED, VERIFIED} then Finished(receipt) else Raised;
    }
  }

  /** The scripts that keep the fence; an acceptance run's health evaluation may fail. */
  datatype Script = DelayedTask | RevocationCase(evaluated: bool)

  /**
   A script from its start to its end, whatever the cloud does. Its end is the one
   its calls lead to; no world passed through on the way, step by step, has changed
   traffic or is outside the fence; a confirmed hold ends with the queue running or
   flagged, and a script that finishes has an ordered denial.
   */
  method RunScript(script: Script, signed: nat, cloud: nat -> CallPlan)
    returns (r: ScriptResult, world: World, flagged: bool, ghost history: seq<World>)
    requires signed >= 1
    ensures HistoryOf(history, world) && history[0] == Start(signed)
    ensures End(r, world, flagged)
         == match script
            case DelayedTask => DelayedTaskEnd(Start(signed), cloud, 0)
            case RevocationCase(evaluated) => RevocationCaseEnd(Start(signed), cloud, 0, evaluated)
    ensures var receipt := Awaited(Start(signed), cloud, 0);
            r == if && Released(Start(signed), cloud, 0) && receipt.Some?
                    && match script
                       case DelayedTask => receipt.value.outcome in {DENIED, FAILED_SAFE, VERIFIED}
                       case RevocationCase(evaluated) =>
                         && evaluated && receipt.value.outcome == DENIED && receipt.value.reason == EpochMismatch
                         && receipt.value.observedEpoch == Some(signed + 1)
                 then Finished(receipt.value) else Raised
    ensures flagged
       <==> && Confirms(Start(signed), Hold, cloud(0))
            && match script
               case DelayedTask => !Released(Start(signed), cloud, 0) && !ReleasedAgain(Start(signed), cloud, 0)
               case RevocationCase(evaluated) => !(evaluated && Released(Start(signed), cloud, 0))
    ensures forall x :: x in history ==> Fenced(x) && x.changes == 0
    ensures Confirms(Start(signed), Hold, cloud(0)) ==> Running(world) || flagged
    ensures !Confirms(Start(signed), Hold, cloud(0)) ==>
              r.Raised? && !flagged && world == AfterCall(Start(signed), Hold, cloud(0))
    ensures r.Finished? ==>
              && Running(world) && !flagged && world.receipt == Some(r.receipt) && DeniedInOrder(world)
              && (script.RevocationCase? ==> StaleDenial(world))
  {
    hide Released, ReleasedAgain, Awaited, DelayedTaskEnd, RevocationCaseEnd, AfterCall, Confirms, Run, HistoryOf;
    hide Held, StaleDenial, DeniedInOrder;
    var runner := new Runner(signed, cloud);
    match script {
      case DelayedTask => r := runner.ExecuteDelayedTask();
      case RevocationCase(evaluated) => r := runner.RunRevocationCase(evaluated);
    }
    world, flagged := runner.world, EXECUTION_QUEUE in runner.cleanupRequired || runner.queueCleanupRequired;
    history := runner.history;
  }

  /** A cloud that delivers, claims, reads and persists while the runner polls, and does all it is asked. */
  function PunctualCloud(): nat -> CallPlan {
    call =>
      var actions: CloudActions := if call == 4 then [Deliver, Claim, Gate(true, false, false), Persist] else [];
      CallPlan(actions, Confirmed, [], false)
  }

  lemma PunctualCalls(call: nat)
    ensures PunctualCloud()(call).fault == Confirmed && PunctualCloud()(call).after == []
    ensures PunctualCloud()(call).before
         == if call == 4 then [Deliver, Claim, Gate(true, false, false), Persist] else []
  {
  }

  lemma QuietCall(w: World, c: Command, call: nat)
    requires call != 4 && (c == Revoke ==> w.Epoch() == w.signed)
    ensures Confirms(w, c, PunctualCloud()(call))
    ensures AfterCall(w, c, PunctualCloud()(call)) == Step(w, Issue(c))
  {
    PunctualCalls(call);
  }

  /** In that cloud the task arrives after the revocation and is denied at the next epoch. */
  lemma StaleTaskAwaited()
    ensures Released(Start(1), PunctualCloud(), 0)
    ensures Awaited(Start(1), PunctualCloud(), 0) == Some(Receipt(5, 7, DENIED, EpochMismatch, Some(2)))
  {
    hide PunctualCloud, Run, AfterCall, Confirms, PersistStep, Step;
    var cloud, w := PunctualCloud(), Start(1);
    IssuedInTurn();
    var held := w.(paused := true, now := 1);
    var promoted := held.(queued := true, now := 2);
    var revoked := promoted.(commits := [2], now := 3);
    QuietCall(w, Hold, 0);
    QuietCall(held, Enqueue, 1);
    QuietCall(promoted, Revoke, 2);
    QuietCall(revoked, Release, 3);
    PunctualCalls(4);
    PolledInTurn(revoked.(paused := false, now := 4));
  }

  lemma IssuedInTurn()
    ensures var w := Start(1);
            var held := w.(paused := true, now := 1);
            var promoted := held.(queued := true, now := 2);
            var revoked := promoted.(commits := [2], now := 3);
            && Step(w, Issue(Hold)) == held && Step(held, Issue(Enqueue)) == promoted
            && Step(promoted, Issue(Revoke)) == revoked
            && Step(revoked, Issue(Release)) == revoked.(paused := false, now := 4)
  {
  }

  lemma PolledInTurn(w: World)
    requires w == World(1, 4, false, true, 0, [2], None, Nobody, None, 0, {})
    ensures Run(w, [Deliver, Claim, Gate(true, false, false), Persist]).receipt
         == Some(Receipt(5, 7, DENIED, EpochMismatch, Some(2)))
  {
    var gate := Gate(true, false, false);
    RunCons(w, Deliver, [Claim, gate, Persist]);
    RunCons(Step(w, Deliver), Claim, [gate, Persist]);
    RunCons(Step(Step(w, Deliver), Claim), gate, [Persist]);
    RunCons(Step(Step(Step(w, Deliver), Claim), gate), Persist, []);
    assert [Deliver] + [Claim, gate, Persist] == [Deliver, Claim, gate, Persist];
    assert [Claim] + [gate, Persist] == [Claim, gate, Persist];
    assert [gate] + [Persist] == [gate, Persist];
    assert [Persist] + [] == [Persist];
    DeliveredAndClaimed(w);
    var claimed := Receipt(5, 5, CLAIMED, NoReason, None);
    ReadAndDenied(w.(now := 6, inflight := 0, receipt := Some(claimed), owner := Holding), claimed);
  }

  lemma DeliveredAndClaimed(w: World)
    requires w == World(1, 4, false, true, 0, [2], None, Nobody, None, 0, {})
    ensures Step(Step(w, Deliver), Claim)
         == w.(now := 6, inflight := 0, receipt := Some(Receipt(5, 5, CLAIMED, NoReason, None)), owner := Holding)
  {
    assert Step(w, Deliver) == w.(inflight := 1, now := 5);
  }

  lemma ReadAndDenied(w: World, claimed: Receipt)
    requires w.receipt == Some(claimed) && claimed == Receipt(5, 5, CLAIMED, NoReason, None)
    requires w.owner == Holding && w.now == 6 && w.signed == 1 && w.commits == [2]
    ensures Step(Step(w, Gate(true, false, false)), Persist).receipt
         == Some(Receipt(5, 7, DENIED, EpochMismatch, Some(2)))
  {
    assert Step(w, Gate(true, false, false))
        == w.(now := 7, lastRead := Some(FinalRead(6, 2)), owner := Refused(EpochMismatch, Some(2)));
  }

  /** A fault-free script, either of the two, finishes with the denial at the epoch after the signed one. */
  method StaleTaskDenied(script: Script) returns (r: ScriptResult, flagged: bool)
    requires script != RevocationCase(false)
    ensures r == Finished(Receipt(5, 7, DENIED, EpochMismatch, Some(2))) && !flagged
  {
    StaleTaskAwaited();
    hide Released, Awaited, PunctualCloud;
    var world;
    ghost var history;
    r, world, flagged, history := RunScript(script, 1, PunctualCloud());
  }

  /** A terminal denial that left traffic alone, claimed no earlier than the revocation's second. */
  ghost predicate DeniedInOrder(w: World) {
    && w.receipt.Some? && w.receipt.value.outcome == DENIED
    && w.changes == 0
    && 1 <= w.signed <= |w.commits|
    && w.commits[w.signed - 1] < w.receipt.value.createdAt
    && Ordered(w.receipt.value, w.commits[w.signed - 1], false)
  }

  /**
   The outcome of a race attempt: traffic moved exactly when the receipt is
   verified, and then the final read came before the revocation; a recorded race
   is a denial that left traffic alone, with the revocation committed before the
   final read and not in a second before the claim's.
   */
  ghost predicate RaceDecided(w: World, isRace: bool) {
    && w.receipt.Some? && w.receipt.value.outcome in {DENIED, VERIFIED}
    && 1 <= w.signed <= |w.commits|
    && (w.receipt.value.outcome == VERIFIED <==> w.changes == 1)
    && (w.changes == 1 ==> w.lastRead.Some? && w.lastRead.value.at <= w.commits[w.signed - 1])
    && (isRace ==>
          && w.receipt.value.outcome == DENIED && w.receipt.value.reason == EpochMismatch && w.lastRead.Some?
          && Second(w.receipt.value.createdAt) <= Second(w.commits[w.signed - 1])
          && (w.lastRead.value.epoch > w.signed ==> w.commits[w.signed - 1] < w.lastRead.value.at))
  }

  /** A terminal denied or verified receipt decides an attempt as a race or not. */
  lemma RaceReceipt(w: World)
    requires Inv(w) && 1 <= w.signed <= |w.commits|
    ensures w.receipt.Some? && w.receipt.value.outcome in {DENIED, VERIFIED} ==> RaceDecided(w, RecordedAsRace(w))
  {
  }

  lemma AfterCallKeepsInv(w: World, c: Command, p: CallPlan)
    requires Inv(w)
    ensures Inv(AfterCall(w, c, p))
  {
    RunKeepsInv(w, p.before);
    AnsweredKeepsInv(Run(w, p.before), c, p.fault);
    RunKeepsInv(Answered(Run(w, p.before), c, p.fault), p.after);
  }

  lemma AnsweredKeepsInv(w: World, c: Command, fault: Fault)
    requires Inv(w)
    ensures Inv(Answered(w, c, fault))
  {
    StepKeepsInv(w, Issue(c));
  }

  lemma TwoCalls(w: World, c: Command, p: CallPlan, d: Command, q: CallPlan)
    requires Inv(w)
    ensures var x := AfterCall(AfterCall(w, c, p), d, q);
            && Inv(x) && x.signed == w.signed && x.late <= w.late + {c, d}
            && ((&& {c, d} == {Release, Revoke}
                 && Confirms(w, c, p) && Confirms(AfterCall(w, c, p), d, q)
                 && Hold !in w.late) ==> Running(x))
            && ((c == Revoke && Confirms(w, c, p)) || (d == Revoke && Confirms(AfterCall(w, c, p), d, q))
                ==> x.Epoch() > x.signed)
  {
    var y := AfterCall(w, c, p);
    AfterCallKeepsInv(w, c, p);
    AfterCallKeepsInv(y, d, q);
    AnyCall(w, c, p);
    AnyCall(y, d, q);
    if Confirms(w, c, p) {
      ConfirmedCall(w, c, p);
    }
    if Confirms(y, d, q) {
      ConfirmedCall(y, d, q);
    }
    if c == Release && d != Hold {
      KeepRunning(y, d, q);
    }
  }

  /** A call other than a hold keeps a running queue running. */
  lemma KeepRunning(w: World, c: Command, p: CallPlan)
    requires c != Hold
    ensures Running(w) ==> Running(AfterCall(w, c, p))
  {
    CloudRunKeepsQueue(w, p.before);
    CloudRunKeepsQueue(Answered(Run(w, p.before), c, p.fault), p.after);
  }

  /** Behind the fence a terminal receipt is a denial, claimed after the revocation. */
  lemma FencedReceiptDenied(w: World)
    requires Fenced(w) && w.receipt.Some? && !Pending(w.receipt.value)
    ensures DeniedInOrder(w)
  {
    SecondMonotone(w.commits[w.signed - 1], w.receipt.value.createdAt);
  }

  /** A fresh world with a running queue is behind the fence. */
  lemma FreshFenced(w: World)
    requires Fresh(w) && w.signed >= 1
    ensures Fenced(w)
  {
    FreshKeepsInv(w);
  }

  /**
   A hold that takes effect but is reported as failed: the script stops with
   the queue paused and nothing marked for cleanup.
   */
  lemma UnconfirmedHoldLeavesQueuePaused(w: World)
    requires Fresh(w) && !w.paused
    ensures var p := CallPlan([], FailedAfterEffect, [], false);
            !Confirms(w, Hold, p) && AfterCall(w, Hold, p).paused
  {
  }

  /** An unconfirmed hold leaves the queue running exactly when it has not taken effect by then. */
  lemma UnconfirmedHold(w: World, p: CallPlan)
    requires Fresh(w) && !w.paused && !Confirms(w, Hold, p)
    ensures AfterCall(w, Hold, p).paused
       <==> p.fault == FailedAfterEffect || (p.fault == FailedLate && TakeEffect(Hold) in p.after)
  {
    CloudRunKeepsQueue(w, p.before);
    var y := Answered(Run(w, p.before), Hold, p.fault);
    assert Run(w, p.before).late == {};
    if p.fault == FailedAfterEffect {
      CloudRunKeepsQueue(y, p.after);
    } else if p.fault == FailedBeforeEffect {
      CloudRunKeepsQueue(y, p.after);
    } else {
      LateHold(y, p.after);
    }
  }

  lemma {:induction false} LateHold(w: World, actions: CloudActions)
    requires !w.paused && w.late == {Hold}
    ensures Run(w, actions).paused <==> TakeEffect(Hold) in actions
    decreases |actions|
  {
    if actions != [] {
      var rest: CloudActions := actions[1..];
      assert actions == [actions[0]] + rest;
      if actions[0] == TakeEffect(Hold) {
        CloudRunKeepsQueue(Step(w, actions[0]), rest);
      } else {
        LateHold(Step(w, actions[0]), rest);
      }
    }
  }
}
