/**
 The epoch fence: one queued promotion, the pausable queue that delivers it,
 the executor that claims a receipt and re-reads the authority epoch before it
 calls the provider, and the store whose epoch only moves forward.

 A `World` changes one atomic action at a time; a run is any sequence of
 actions, so a lemma about `Run` speaks of every interleaving.
 */
module EpochFence {
  import opened Option

  datatype Outcome = CLAIMED | DENIED | APPLIED | FAILED_SAFE | AMBIGUOUS | VERIFIED

  datatype Reason = NoReason | EpochMismatch | OtherDenial | ProviderReason

  datatype Receipt = Receipt(
    createdAt: nat, updatedAt: nat, outcome: Outcome, reason: Reason, observedEpoch: Option<nat>)

  /** What the one holder of the fresh receipt claim is about to do. */
  datatype Owner =
    | Nobody
    | Holding
    | Refused(reason: Reason, seen: Option<nat>)
    | Permitted(seenEpoch: nat)
    | Called(reply: Outcome, epochRead: nat)
    | Done

  /** Calls of the acceptance runner that change the cloud. */
  datatype Command = Hold | Enqueue | Revoke | Release

  /** The final authority read: the epoch, and when it was read. */
  datatype FinalRead = FinalRead(at: nat, epoch: nat)

  datatype World = World(
    signed: nat,
    now: nat,
    paused: bool,
    queued: bool,
    inflight: nat,
    commits: seq<nat>,
    receipt: Option<Receipt>,
    owner: Owner,
    lastRead: Option<FinalRead>,
    changes: nat,
    late: set<Command>)
  {
    /** The current authority epoch: one more than the number of commits. */
    function Epoch(): nat {
      1 + |commits|
    }
  }

  /** What the provider did with an admitted call, and what it told the executor. */
  datatype ProviderReply = AppliedReply | FailedSafeReply | AmbiguousApplied | AmbiguousNotApplied

  datatype Action =
    | Deliver
    | Drop
    | Claim
    | Gate(readable: bool, deniedBefore: bool, deniedAfter: bool)
    | Call(outcome: ProviderReply)
    | Persist
    | Readback
    | Crash
    | Advance
    | Issue(command: Command)
    | TakeEffect(command: Command)
    | Wait(ticks: nat)

  // ---- One action

  /** A runner command taking effect; a revocation names the epoch it expects. */
  function Effect(w: World, c: Command): World {
    match c
    case Hold => w.(paused := true)
    case Release => w.(paused := false)
    case Enqueue => w.(queued := true)
    case Revoke => if w.Epoch() == w.signed then w.(commits := w.commits + [w.now]) else w
  }

  /** The final gate: read the epoch, and admit the call only if it is the signed one. */
  function GateStep(w: World, readable: bool, deniedBefore: bool, deniedAfter: bool): World {
    if !readable then w.(owner := Refused(OtherDenial, None))
    else
      var r := w.(lastRead := Some(FinalRead(w.now, w.Epoch())));
      if deniedBefore then r.(owner := Refused(OtherDenial, Some(w.Epoch())))
      else if w.Epoch() != w.signed then r.(owner := Refused(EpochMismatch, Some(w.Epoch())))
      else if deniedAfter then r.(owner := Refused(OtherDenial, Some(w.Epoch())))
      else r.(owner := Permitted(w.Epoch()))
  }

  function CallStep(w: World, reply: ProviderReply): World
    requires w.owner.Permitted?
  {
    var told := match reply
      case AppliedReply => APPLIED
      case FailedSafeReply => FAILED_SAFE
      case _ => AMBIGUOUS;
    var made := if reply in {AppliedReply, AmbiguousApplied} then 1 else 0;
    w.(owner := Called(told, w.owner.seenEpoch), changes := w.changes + made)
  }

  /** The owner's compare-and-set of its receipt, which fails if another resolved it first. */
  function PersistStep(w: World): World
    requires w.receipt.Some?
  {
    var r := w.receipt.value;
    var done := w.(owner := Done);
    if r.outcome != CLAIMED then done
    else
      match w.owner
      case Refused(reason, seen) =>
        done.(receipt := Some(r.(updatedAt := w.now, outcome := DENIED, reason := reason, observedEpoch := seen)))
      case Called(reply, epoch) =>
        var reason := if reply == APPLIED then NoReason else ProviderReason;
        done.(receipt := Some(r.(updatedAt := w.now, outcome := reply, reason := reason, observedEpoch := Some(epoch))))
      case _ => w
  }

  /** A duplicate delivery classifies by reading back, and never calls the provider. */
  function ReadbackStep(w: World): World
    requires w.receipt.Some?
  {
    var r := w.receipt.value;
    if r.outcome in {DENIED, FAILED_SAFE, VERIFIED} then w
    else if w.changes > 0 && r.outcome != CLAIMED then
      w.(receipt := Some(r.(updatedAt := w.now, outcome := VERIFIED, reason := NoReason)))
    else
      w.(receipt := Some(r.(updatedAt := w.now, outcome := AMBIGUOUS, reason := ProviderReason)))
  }

  /** An action that is not enabled changes nothing but the time. */
  function Step(w: World, a: Action): World {
    var w1 := match a
      case Deliver => if w.queued && !w.paused then w.(inflight := w.inflight + 1) else w
      case Drop => if w.inflight > 0 then w.(inflight := w.inflight - 1) else w
      case Claim =>
        if w.inflight == 0 then w
        else if w.receipt.None? then
          w.(inflight := w.inflight - 1, owner := Holding,
             receipt := Some(Receipt(w.now, w.now, CLAIMED, NoReason, None)))
        else w.(inflight := w.inflight - 1)
      case Gate(readable, before, after) => if w.owner.Holding? then GateStep(w, readable, before, after) else w
      case Call(reply) => if w.owner.Permitted? then CallStep(w, reply) else w
      case Persist => if w.receipt.Some? && (w.owner.Refused? || w.owner.Called?) then PersistStep(w) else w
      case Readback => if w.receipt.Some? then ReadbackStep(w) else w
      case Crash => if w.owner.Nobody? then w else w.(owner := Done)
      case Advance => w.(commits := w.commits + [w.now])
      case Issue(c) => Effect(w, c)
      case TakeEffect(c) => if c in w.late then Effect(w, c).(late := w.late - {c}) else w
      case Wait(ticks) => w.(now := w.now + ticks);
    w1.(now := w1.now + 1)
  }

  function Run(w: World, actions: seq<Action>): World
    decreases |actions|
  {
    if actions == [] then w else Run(Step(w, actions[0]), actions[1..])
  }

  /** A world in which the promotion has not been issued and nothing is late. */
  predicate Fresh(w: World) {
    && !w.queued && w.inflight == 0 && w.commits == [] && w.receipt == None
    && w.owner == Nobody && w.lastRead == None && w.changes == 0 && w.late == {}
  }

  // ---- The invariant of every run

  /** `epoch` was current at time `at`: exactly the first `epoch - 1` commits came before. */
  ghost predicate CurrentAt(commits: seq<nat>, epoch: nat, at: nat) {
    && 1 <= epoch <= 1 + |commits|
    && forall i :: 0 <= i < |commits| ==> (i < epoch - 1 <==> commits[i] < at)
  }

  ghost predicate Ascending(commits: seq<nat>, now: nat) {
    && (forall i, j :: 0 <= i < j < |commits| ==> commits[i] < commits[j])
    && forall i :: 0 <= i < |commits| ==> commits[i] < now
  }

  ghost predicate OwnerConsistent(w: World) {
    match w.owner
    case Nobody => w.receipt == None && w.lastRead == None && w.changes == 0
    case Holding => w.lastRead == None && w.changes == 0
    case Refused(reason, seen) =>
      && w.changes == 0
      && (reason == EpochMismatch ==>
            w.lastRead.Some? && seen == Some(w.lastRead.value.epoch) && seen != Some(w.signed))
    case Permitted(seen) => w.changes == 0 && w.lastRead.Some? && w.lastRead.value.epoch == w.signed == seen
    case Called(reply, seen) =>
      && w.lastRead.Some? && w.lastRead.value.epoch == w.signed == seen
      && reply in {APPLIED, FAILED_SAFE, AMBIGUOUS}
      && (reply == APPLIED ==> w.changes == 1)
      && (reply == FAILED_SAFE ==> w.changes == 0)
    case Done => true
  }

  ghost predicate ReceiptConsistent(w: World, r: Receipt) {
    && r.createdAt <= r.updatedAt < w.now
    && (w.lastRead.Some? ==> r.createdAt < w.lastRead.value.at)
    && (r.outcome == VERIFIED ==> w.changes == 1)
    && (r.outcome in {DENIED, FAILED_SAFE} ==> w.changes == 0 && w.owner == Done)
    && (r.outcome == APPLIED ==> w.changes == 1)
    && (r.outcome == FAILED_SAFE ==> w.lastRead.Some? && w.lastRead.value.epoch == w.signed)
    && (r.reason == EpochMismatch ==> r.outcome == DENIED)
    && (r.outcome == DENIED && r.reason == EpochMismatch ==>
          && w.lastRead.Some?
          && w.lastRead.value.at < r.updatedAt
          && r.observedEpoch == Some(w.lastRead.value.epoch)
          && w.lastRead.value.epoch != w.signed)
  }

  ghost predicate Inv(w: World) {
    && Ascending(w.commits, w.now)
    && (w.lastRead.Some? ==>
          w.lastRead.value.at < w.now && CurrentAt(w.commits, w.lastRead.value.epoch, w.lastRead.value.at))
    && w.changes <= 1
    && (w.changes == 1 ==> w.lastRead.Some? && w.lastRead.value.epoch == w.signed)
    && (w.receipt == None ==> w.owner == Nobody)
    && (w.receipt.Some? ==> w.owner != Nobody)
    && OwnerConsistent(w)
    && (w.receipt.Some? ==> ReceiptConsistent(w, w.receipt.value))
  }

  lemma TimeKeepsInv(w: World, ticks: nat)
    requires Inv(w)
    ensures Inv(w.(now := w.now + ticks))
  {
  }

  lemma CommitKeepsInv(w: World)
    requires Inv(w)
    ensures Inv(w.(commits := w.commits + [w.now], now := w.now + 1))
  {
    var after := w.(commits := w.commits + [w.now], now := w.now + 1);
    if w.lastRead.Some? {
      CommitKeepsCurrentAt(w.commits, w.now, w.lastRead.value.epoch, w.lastRead.value.at);
    }
    assert Ascending(after.commits, after.now);
  }

  lemma CommitKeepsCurrentAt(commits: seq<nat>, now: nat, epoch: nat, at: nat)
    requires CurrentAt(commits, epoch, at) && at < now
    ensures CurrentAt(commits + [now], epoch, at)
  {
  }

  lemma GateKeepsInv(w: World, readable: bool, before: bool, after: bool)
    requires Inv(w)
    ensures Inv(Step(w, Gate(readable, before, after)))
  {
    assert CurrentAt(w.commits, w.Epoch(), w.now);
    hide CurrentAt, Ascending;
    TimeKeepsInv(w, 1);
  }

  lemma CallKeepsInv(w: World, reply: ProviderReply)
    requires Inv(w)
    ensures Inv(Step(w, Call(reply)))
  {
    TimeKeepsInv(w, 1);
  }

  lemma PersistKeepsInv(w: World)
    requires Inv(w)
    ensures Inv(Step(w, Persist))
  {
    if w.receipt.Some? && (w.owner.Refused? || w.owner.Called?) {
      PersistStepKeepsInv(w);
      TimeKeepsInv(w, 1);
    } else {
      TimeKeepsInv(w, 1);
    }
  }

  lemma PersistStepKeepsInv(w: World)
    requires Inv(w) && w.receipt.Some? && (w.owner.Refused? || w.owner.Called?)
    ensures Inv(PersistStep(w).(now := w.now + 1))
  {
    TimeKeepsInv(w, 1);
    if w.receipt.value.outcome != CLAIMED {
      SettledKeepsInv(w);
    } else if w.owner.Refused? {
      DenialKeepsInv(w);
    } else {
      ReplyKeepsInv(w);
    }
  }

  lemma SettledKeepsInv(w: World)
    requires Inv(w) && w.receipt.Some? && w.owner != Nobody && w.receipt.value.outcome != CLAIMED
    ensures Inv(w.(owner := Done, now := w.now + 1))
  {
  }

  lemma DenialKeepsInv(w: World)
    requires Inv(w) && w.receipt.Some? && w.owner.Refused? && w.receipt.value.outcome == CLAIMED
    ensures Inv(PersistStep(w).(now := w.now + 1))
  {
  }

  lemma ReplyKeepsInv(w: World)
    requires Inv(w) && w.receipt.Some? && w.owner.Called? && w.receipt.value.outcome == CLAIMED
    ensures Inv(PersistStep(w).(now := w.now + 1))
  {
  }

  lemma ReadbackKeepsInv(w: World)
    requires Inv(w)
    ensures Inv(Step(w, Readback))
  {
    hide CurrentAt, Ascending;
    TimeKeepsInv(w, 1);
  }

  lemma EffectKeepsInv(w: World, c: Command, late: set<Command>)
    requires Inv(w)
    ensures Inv(Effect(w, c).(late := late, now := w.now + 1))
  {
    TimeKeepsInv(w, 1);
    if c == Revoke {
      CommitKeepsInv(w);
    }
  }

  lemma TakeEffectKeepsInv(w: World, c: Command)
    requires Inv(w)
    ensures Inv(Step(w, TakeEffect(c)))
  {
    TimeKeepsInv(w, 1);
    EffectKeepsInv(w, c, w.late - {c});
    TakeEffectShape(w, c);
  }

  lemma TakeEffectShape(w: World, c: Command)
    ensures Step(w, TakeEffect(c))
         == if c in w.late then Effect(w, c).(late := w.late - {c}, now := w.now + 1) else w.(now := w.now + 1)
  {
  }

  lemma ClaimKeepsInv(w: World)
    requires Inv(w)
    ensures Inv(Step(w, Claim))
  {
  }

  lemma QueueKeepsInv(w: World, a: Action)
    requires Inv(w) && (a.Deliver? || a.Drop? || a.Crash?)
    ensures Inv(Step(w, a))
  {
  }

  /** Every atomic action keeps the invariant. */
  lemma StepKeepsInv(w: World, a: Action)
    requires Inv(w)
    ensures Inv(Step(w, a))
  {
    match a
    case Deliver => QueueKeepsInv(w, a);
    case Drop => QueueKeepsInv(w, a);
    case Claim => ClaimKeepsInv(w);
    case Gate(readable, before, after) => GateKeepsInv(w, readable, before, after);
    case Call(reply) => CallKeepsInv(w, reply);
    case Persist => PersistKeepsInv(w);
    case Readback => ReadbackKeepsInv(w);
    case Crash => QueueKeepsInv(w, a);
    case Advance => CommitKeepsInv(w);
    case Issue(c) => IssueKeepsInv(w, c);
    case TakeEffect(c) => TakeEffectKeepsInv(w, c);
    case Wait(ticks) => TimeKeepsInv(w, ticks + 1);
  }

  lemma IssueKeepsInv(w: World, c: Command)
    requires Inv(w)
    ensures Inv(Step(w, Issue(c)))
  {
    EffectKeepsInv(w, c, w.late);
    assert Step(w, Issue(c)) == Effect(w, c).(late := w.late, now := w.now + 1);
  }

  /** Authority only moves forward, and time with it. */
  lemma StepAdvances(w: World, a: Action)
    ensures Step(w, a).signed == w.signed && Step(w, a).now > w.now
    ensures w.commits <= Step(w, a).commits
  {
  }

  lemma {:induction false} RunKeepsInv(w: World, actions: seq<Action>)
    requires Inv(w)
    ensures Inv(Run(w, actions))
    ensures Run(w, actions).signed == w.signed && Run(w, actions).now >= w.now
    ensures w.commits <= Run(w, actions).commits
    decreases |actions|
  {
    if actions != [] {
      StepKeepsInv(w, actions[0]);
      StepAdvances(w, actions[0]);
      RunKeepsInv(Step(w, actions[0]), actions[1..]);
    }
  }

  lemma FreshKeepsInv(w: World)
    requires Fresh(w)
    ensures Inv(w)
  {
  }

  lemma {:induction false} RunConcat(w: World, a: seq<Action>, b: seq<Action>)
    ensures Run(w, a + b) == Run(Run(w, a), b)
    decreases |a|
  {
    if a == [] {
      assert a + b == b;
    } else {
      assert (a + b)[1..] == a[1..] + b;
      RunConcat(Step(w, a[0]), a[1..], b);
    }
  }

  // ---- What the final read decides

  /** In every run the provider changes traffic at most once, and only after reading the signed epoch. */
  lemma ChangedOnlyWhenCurrent(w: World, actions: seq<Action>)
    requires Fresh(w)
    ensures var x := Run(w, actions);
            && x.changes <= 1
            && (x.changes == 1 ==>
                  && x.lastRead.Some? && x.lastRead.value.epoch == x.signed
                  && CurrentAt(x.commits, x.signed, x.lastRead.value.at))
  {
    FreshKeepsInv(w);
    RunKeepsInv(w, actions);
  }

  /** A stale denial and a traffic change never occur in one run. */
  lemma DeniedNeverChanged(w: World, actions: seq<Action>)
    requires Fresh(w)
    ensures var x := Run(w, actions);
            x.receipt.Some? && x.receipt.value.outcome == DENIED && x.receipt.value.reason == EpochMismatch ==>
              && x.changes == 0 && x.lastRead.Some?
              && x.receipt.value.observedEpoch.Some?
              && x.receipt.value.observedEpoch.value != x.signed
              && x.receipt.value.createdAt < x.lastRead.value.at < x.receipt.value.updatedAt
              && CurrentAt(x.commits, x.receipt.value.observedEpoch.value, x.lastRead.value.at)
  {
    FreshKeepsInv(w);
    RunKeepsInv(w, actions);
  }

  lemma ReadIsFinal(w: World, a: Action)
    requires Inv(w) && w.lastRead.Some?
    ensures Step(w, a).lastRead == w.lastRead
  {
  }

  /** Once the final read has seen another epoch, no continuation changes traffic. */
  lemma {:induction false} StaleReadIsHarmless(w: World, actions: seq<Action>)
    requires Inv(w) && w.lastRead.Some? && w.lastRead.value.epoch != w.signed
    ensures Run(w, actions).changes == 0 && Run(w, actions).lastRead == w.lastRead
    decreases |actions|
  {
    if actions != [] {
      ReadIsFinal(w, actions[0]);
      StepKeepsInv(w, actions[0]);
      StepAdvances(w, actions[0]);
      StaleReadIsHarmless(Step(w, actions[0]), actions[1..]);
    }
  }

  /** Actions of everyone else: the queue, duplicates, revocations, late effects, time. */
  predicate Foreign(a: Action) {
    a.Deliver? || a.Drop? || a.Claim? || a.Advance? || a.Issue? || a.TakeEffect? || a.Wait?
  }

  lemma {:induction false} ForeignRun(w: World, actions: seq<Action>)
    requires w.receipt.Some? && forall i :: 0 <= i < |actions| ==> Foreign(actions[i])
    ensures var x := Run(w, actions);
            && x.owner == w.owner && x.receipt == w.receipt && x.lastRead == w.lastRead
            && x.changes == w.changes && x.signed == w.signed
    decreases |actions|
  {
    if actions != [] {
      ForeignStep(w, actions[0]);
      ForeignRun(Step(w, actions[0]), actions[1..]);
    }
  }

  lemma ForeignStep(w: World, a: Action)
    requires w.receipt.Some? && Foreign(a)
    ensures var x := Step(w, a);
            && x.owner == w.owner && x.receipt == w.receipt && x.lastRead == w.lastRead
            && x.changes == w.changes && x.signed == w.signed
  {
  }

  /** The executor's own actions, with foreign actions before, between and after them. */
  function Interleaved(a: seq<Action>, b: seq<Action>, c: seq<Action>): seq<Action> {
    a + ([Gate(true, false, false)] + (b + ([Call(AppliedReply)] + (c + [Persist]))))
  }

  lemma InterleavedRun(w: World, a: seq<Action>, b: seq<Action>, c: seq<Action>)
    ensures Run(w, Interleaved(a, b, c))
         == Step(Run(Step(Run(Step(Run(w, a), Gate(true, false, false)), b), Call(AppliedReply)), c), Persist)
  {
    var gate, call := Gate(true, false, false), Call(AppliedReply);
    var tail3 := c + [Persist];
    var tail2 := b + ([call] + tail3);
    RunConcat(w, a, [gate] + tail2);
    RunCons(Run(w, a), gate, tail2);
    var x := Step(Run(w, a), gate);
    RunConcat(x, b, [call] + tail3);
    RunCons(Run(x, b), call, tail3);
    var y := Step(Run(x, b), call);
    RunConcat(y, c, [Persist]);
    RunCons(Run(y, c), Persist, []);
    assert [Persist] + [] == [Persist];
  }

  lemma RunCons(w: World, a: Action, rest: seq<Action>)
    ensures Run(w, [a] + rest) == Run(Step(w, a), rest)
  {
    assert ([a] + rest)[1..] == rest;
  }

  /**
   For every interleaving of a fault-free executor with the queue, duplicate
   deliveries, revocations and time: the promotion changes traffic exactly when
   the epoch at its final read is the signed one, and is denied for an epoch
   mismatch exactly when it is not.
   */
  lemma FinalReadDecides(w: World, a: seq<Action>, b: seq<Action>, c: seq<Action>)
    requires Inv(w) && w.owner == Holding && w.receipt.value.outcome == CLAIMED
    requires forall i :: 0 <= i < |a| ==> Foreign(a[i])
    requires forall i :: 0 <= i < |b| ==> Foreign(b[i])
    requires forall i :: 0 <= i < |c| ==> Foreign(c[i])
    ensures var seen := Run(w, a).Epoch();
            var x := Run(w, Interleaved(a, b, c));
            && x.receipt.Some?
            && (x.changes == 1 <==> seen == w.signed)
            && (x.receipt.value.outcome == DENIED && x.receipt.value.reason == EpochMismatch <==> seen != w.signed)
            && (x.receipt.value.outcome == APPLIED <==> seen == w.signed)
            && x.receipt.value.observedEpoch == Some(seen)
  {
    InterleavedRun(w, a, b, c);
    ForeignRun(w, a);
    var x1 := Run(w, a);
    var x2 := Step(x1, Gate(true, false, false));
    ForeignRun(x2, b);
    var x3 := Run(x2, b);
    var x4 := Step(x3, Call(AppliedReply));
    ForeignRun(x4, c);
    var x5 := Run(x4, c);
    if x1.Epoch() == w.signed {
      assert x4.owner == Called(APPLIED, w.signed);
    } else {
      assert x4.owner == Refused(EpochMismatch, Some(x1.Epoch()));
    }
  }

  // ---- What becomes of the receipt

  /** A receipt stays, with the time of its claim; once terminal it is final, and nobody holds the claim twice. */
  lemma ReceiptStays(w: World, a: Action)
    requires Inv(w) && w.receipt.Some?
    ensures var x := Step(w, a);
            && x.receipt.Some? && x.receipt.value.createdAt == w.receipt.value.createdAt
            && (w.receipt.value.outcome in {DENIED, FAILED_SAFE, VERIFIED} ==> x.receipt == w.receipt)
            && (x.owner.Holding? ==> w.owner.Holding?)
  {
    hide CurrentAt, Ascending;
  }

  lemma {:induction false} ClaimedOnce(w: World, actions: seq<Action>)
    requires Inv(w) && w.receipt.Some?
    ensures var x := Run(w, actions);
            && x.receipt.Some? && x.receipt.value.createdAt == w.receipt.value.createdAt
            && (w.receipt.value.outcome in {DENIED, FAILED_SAFE, VERIFIED} ==> x.receipt == w.receipt)
            && (x.owner.Holding? ==> w.owner.Holding?)
    decreases |actions|
  {
    hide Inv, Step;
    if actions != [] {
      StepKeepsInv(w, actions[0]);
      ReceiptStays(w, actions[0]);
      ClaimedOnce(Step(w, actions[0]), actions[1..]);
    }
  }

  /** The gate lets the call through exactly when nothing denies it and the epoch is the signed one. */
  lemma GateAdmits(w: World, readable: bool, before: bool, after: bool)
    requires w.owner.Holding?
    ensures Step(w, Gate(readable, before, after)).owner.Permitted?
       <==> readable && !before && !after && 1 + |w.commits| == w.signed
    ensures readable && !before && 1 + |w.commits| != w.signed ==>
              Step(w, Gate(readable, before, after)).owner == Refused(EpochMismatch, Some(1 + |w.commits|))
    ensures (!readable || before || (after && 1 + |w.commits| == w.signed)) ==>
              && Step(w, Gate(readable, before, after)).owner.Refused?
              && Step(w, Gate(readable, before, after)).owner.reason == OtherDenial
  {
  }

  /** What the provider does and says decides what is recorded, and what a later readback makes of it. */
  lemma ReplyDecides(w: World, reply: ProviderReply, between: seq<Action>)
    requires Inv(w) && w.owner.Permitted? && w.receipt.value.outcome == CLAIMED
    requires forall i :: 0 <= i < |between| ==> Foreign(between[i])
    ensures var x := Step(Step(w, Call(reply)), Persist);
            var y := Step(Run(x, between), Readback);
            && x.changes == y.changes == (if reply in {AppliedReply, AmbiguousApplied} then 1 else 0)
            && x.receipt.Some? && y.receipt.Some? && x.receipt.value.observedEpoch == Some(w.signed)
            && x.receipt.value.outcome == (match reply
                 case AppliedReply => APPLIED
                 case FailedSafeReply => FAILED_SAFE
                 case _ => AMBIGUOUS)
            && y.receipt.value.outcome == (match reply
                 case AppliedReply => VERIFIED
                 case AmbiguousApplied => VERIFIED
                 case FailedSafeReply => FAILED_SAFE
                 case AmbiguousNotApplied => AMBIGUOUS)
  {
    var called := Step(w, Call(reply));
    assert called.receipt == w.receipt && called.owner.Called?;
    var x := Step(called, Persist);
    ForeignRun(x, between);
  }

  /**
   An executor that crashes with the claim open leaves it to a duplicate: the
   readback first records the claim as ambiguous, and then as verified exactly if
   traffic was changed.
   */
  lemma CrashIsReadBack(w: World, between: seq<Action>)
    requires Inv(w) && w.receipt.Some? && w.receipt.value.outcome == CLAIMED
    requires forall i :: 0 <= i < |between| ==> Foreign(between[i])
    ensures var y := Step(Run(Step(w, Crash), between), Readback);
            && y.receipt.Some? && y.receipt.value.outcome == AMBIGUOUS && y.changes == w.changes && y.owner == Done
            && var z := Step(y, Readback);
               z.receipt.Some? && z.receipt.value.outcome == if w.changes > 0 then VERIFIED else AMBIGUOUS
  {
    var x := Step(w, Crash);
    assert x.owner == Done && x.receipt == w.receipt && x.changes == w.changes;
    ForeignRun(x, between);
  }

  /** A task is delivered exactly while it is queued and the queue runs; a revocation commits exactly once. */
  lemma DeliveryAndCommit(w: World)
    ensures Step(w, Deliver).inflight == w.inflight + (if w.queued && !w.paused then 1 else 0)
    ensures Step(w, Issue(Revoke)).commits == w.commits + (if 1 + |w.commits| == w.signed then [w.now] else [])
    ensures Step(Step(w, Issue(Revoke)), Issue(Revoke)).commits == Step(w, Issue(Revoke)).commits
  {
  }

  // ---- The order test on recorded timestamps

  /** Timestamps in receipts and proofs are whole seconds. */
  function Second(t: nat): nat {
    t / 1000
  }

  /** The order required of a stale denial, in the race and in the delayed case. */
  predicate Ordered(r: Receipt, committedAt: nat, race: bool) {
    if race then Second(r.createdAt) <= Second(committedAt) <= Second(r.updatedAt)
    else Second(committedAt) <= Second(r.createdAt)
  }

  ghost predicate StaleDenial(w: World) {
    && w.signed >= 1
    && w.receipt.Some?
    && w.receipt.value.outcome == DENIED && w.receipt.value.reason == EpochMismatch
    && w.receipt.value.observedEpoch == Some(w.signed + 1)
  }

  /** The commit a stale denial observed came before its final read. */
  lemma DenialAfterCommit(w: World)
    requires Inv(w) && StaleDenial(w)
    ensures w.signed <= |w.commits|
    ensures w.commits[w.signed - 1] < w.lastRead.value.at < w.receipt.value.updatedAt
  {
  }

  /** A commit between the claim and the final read always passes the race order test. */
  lemma RacePassesOrderTest(w: World)
    requires Inv(w) && StaleDenial(w) && w.receipt.value.createdAt < w.commits[w.signed - 1]
    ensures Ordered(w.receipt.value, w.commits[w.signed - 1], true)
  {
    DenialAfterCommit(w);
    SecondMonotone(w.receipt.value.createdAt, w.commits[w.signed - 1]);
    SecondMonotone(w.commits[w.signed - 1], w.receipt.value.updatedAt);
  }

  lemma SecondMonotone(s: nat, t: nat)
    requires s <= t
    ensures Second(s) <= Second(t)
  {
  }

  /**
   The converse fails only within one second: a stale denial passes the race
   test exactly when the commit is not in an earlier second than the claim.
   */
  lemma OrderTestExact(w: World)
    requires Inv(w) && StaleDenial(w)
    ensures w.signed <= |w.commits|
    ensures Ordered(w.receipt.value, w.commits[w.signed - 1], true)
       <==> Second(w.commits[w.signed - 1]) >= Second(w.receipt.value.createdAt)
    ensures w.commits[w.signed - 1] < w.receipt.value.createdAt ==>
              Ordered(w.receipt.value, w.commits[w.signed - 1], false)
  {
    DenialAfterCommit(w);
    SecondMonotone(w.commits[w.signed - 1], w.receipt.value.updatedAt);
    if w.commits[w.signed - 1] < w.receipt.value.createdAt {
      SecondMonotone(w.commits[w.signed - 1], w.receipt.value.createdAt);
    }
  }

  /** Runs that pass the race test although the commit came before the claim, at any time early in a second. */
  lemma SameSecondPasses(start: nat) returns (w: World, actions: seq<Action>)
    requires start % 1000 < 990
    ensures Fresh(w) && w.now == start
    ensures var x := Run(w, actions);
            && StaleDenial(x) && x.signed <= |x.commits|
            && x.commits[x.signed - 1] < x.receipt.value.createdAt
            && Ordered(x.receipt.value, x.commits[x.signed - 1], true)
  {
    w := World(1, start, false, false, 0, [], None, Nobody, None, 0, {});
    var gate := Gate(true, false, false);
    actions := [Issue(Enqueue), Deliver, Issue(Revoke), Claim, gate, Persist];
    RunSix(w, Issue(Enqueue), Deliver, Issue(Revoke), Claim, gate, Persist);
    var w3 := Step(Step(Step(w, Issue(Enqueue)), Deliver), Issue(Revoke));
    RevokedBeforeClaim(w);
    var w6 := ClaimedInCommitSecond(w3, start);
    SameSecond(start, 2, 3);
    SameSecond(start, 3, 5);
  }

  lemma SameSecond(start: nat, i: nat, j: nat)
    requires start % 1000 < 990 && i <= j <= 9
    ensures Second(start + i) == Second(start + j)
  {
  }

  lemma RevokedBeforeClaim(w: World)
    requires Fresh(w) && w.signed == 1 && !w.paused
    ensures Step(Step(Step(w, Issue(Enqueue)), Deliver), Issue(Revoke))
         == World(1, w.now + 3, false, true, 1, [w.now + 2], None, Nobody, None, 0, {})
  {
    var w1 := Step(w, Issue(Enqueue));
    assert w1 == w.(queued := true, now := w.now + 1);
    var w2 := Step(w1, Deliver);
    assert w2 == w.(queued := true, inflight := 1, now := w.now + 2);
  }

  lemma ClaimedInCommitSecond(w3: World, start: nat) returns (w6: World)
    requires w3 == World(1, start + 3, false, true, 1, [start + 2], None, Nobody, None, 0, {})
    ensures w6 == Step(Step(Step(w3, Claim), Gate(true, false, false)), Persist)
    ensures w6.receipt == Some(Receipt(start + 3, start + 5, DENIED, EpochMismatch, Some(2)))
    ensures w6.commits == [start + 2] && w6.signed == 1
  {
    var w4 := Step(w3, Claim);
    var claimed := Receipt(start + 3, start + 3, CLAIMED, NoReason, None);
    assert w4 == w3.(now := start + 4, inflight := 0, receipt := Some(claimed), owner := Holding);
    var w5 := Step(w4, Gate(true, false, false));
    assert w5
        == w4.(now := start + 5, lastRead := Some(FinalRead(start + 4, 2)), owner := Refused(EpochMismatch, Some(2)));
    w6 := Step(w5, Persist);
  }

  lemma RunSix(w: World, a: Action, b: Action, c: Action, d: Action, e: Action, f: Action)
    ensures Run(w, [a, b, c, d, e, f]) == Step(Step(Step(Step(Step(Step(w, a), b), c), d), e), f)
  {
    RunCons(w, a, [b, c, d, e, f]);
    RunCons(Step(w, a), b, [c, d, e, f]);
    RunCons(Step(Step(w, a), b), c, [d, e, f]);
    RunCons(Step(Step(Step(w, a), b), c), d, [e, f]);
    RunCons(Step(Step(Step(Step(w, a), b), c), d), e, [f]);
    RunCons(Step(Step(Step(Step(Step(w, a), b), c), d), e), f, []);
    assert [a] + [b, c, d, e, f] == [a, b, c, d, e, f];
    assert [b] + [c, d, e, f] == [b, c, d, e, f];
    assert [c] + [d, e, f] == [c, d, e, f];
    assert [d] + [e, f] == [d, e, f];
    assert [e] + [f] == [e, f];
    assert [f] + [] == [f];
  }
}
