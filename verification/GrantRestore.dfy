/**
 The fault suite's temporary changes to the cloud, each restored before the
 scenario ends: the coordinator grant around one token, the traffic drift, and
 the removed probe invoker. Any cloud call may fail, before or after it took
 effect; nobody else writes, and no effect comes late.
 */
module GrantRestore {
  import opened Option
  import opened IamPolicy

  /** How one changing call goes: it succeeds, or it fails without or with its effect. */
  datatype Fault = Fine | FailedBefore | FailedAfter

  const OIDC_ROLE := "roles/iam.serviceAccountOpenIdTokenCreator"
  const INVOKER_ROLE := "roles/run.invoker"
  const OIDC_CLEANUP := "coordinator-openid-token-creator"
  const INVOKER_CLEANUP := "reference-target-run-invoker"
  const TRAFFIC_CLEANUP := "reference-target-traffic"

  /** How the calls around one coordinator token go, in the order they are made. */
  datatype TokenPlan = TokenPlan(
    readBefore: bool, add: Fault, readGranted: bool, token: bool,
    readCurrent: bool, remove: Fault, readAfter: bool, claims: bool)

  /** How a provider applies a binding change that takes effect: repeating one changes nothing. */
  function Granted(p: Policy, role: string, member: string): Policy {
    if HasMember(p, role, member) then p else AddMember(p, role, member).value
  }

  function Removed(p: Policy, role: string, member: string): Policy {
    if HasMember(p, role, member) then RemoveMember(p, role, member).value else p
  }

  lemma GrantedNormal(p: Policy, role: string, member: string)
    requires Normal(p)
    ensures Normal(Granted(p, role, member)) && HasMember(Granted(p, role, member), role, member)
  {
    if !HasMember(p, role, member) {
      AddKeepsNormal(p, role, member);
    }
  }

  lemma RemovedNormal(p: Policy, role: string, member: string)
    requires Normal(p)
    ensures Normal(Removed(p, role, member)) && !HasMember(Removed(p, role, member), role, member)
  {
    if HasMember(p, role, member) {
      RemoveKeepsNormal(p, role, member);
    }
  }

  /** Calls around the traffic drift: reads, the drift, the verifier and the restoring change. */
  datatype DriftPlan = DriftPlan(
    readBefore: bool, drift: Fault, readDrifted: bool, token: TokenPlan, verified: bool,
    restore: Fault, readAfter: bool, finished: bool)

  /** Calls around the probe failure. */
  datatype ProbePlan = ProbePlan(
    readBefore: bool, remove: Fault, readDenied: bool, token: TokenPlan, verified: bool,
    add: Fault, readAfter: bool, finished: bool)

  /** One scenario: the drift, the probe failure, or one that touches none of this state. */
  datatype Scenario =
    | Drift(drift: DriftPlan)
    | Probe(probe: ProbePlan)
    | Other(flags: set<string>, finished: bool)

  // ---- When a scenario works, and what it leaves

  /** A token is taken exactly when the grant is not there yet and every call around it works. */
  predicate TokenTaken(coordinator: Policy, member: string, plan: TokenPlan) {
    && plan.readBefore && !HasMember(coordinator, "roles/iam.serviceAccountOpenIdTokenCreator", member)
    && plan.add == Fine && plan.readGranted && plan.token
    && plan.remove != FailedBefore && plan.readAfter && plan.claims
  }

  /** The grant was added and its removal had no effect. */
  predicate GrantStays(coordinator: Policy, member: string, plan: TokenPlan) {
    && plan.readBefore && !HasMember(coordinator, "roles/iam.serviceAccountOpenIdTokenCreator", member)
    && plan.add != FailedBefore && plan.remove == FailedBefore
  }

  /** The coordinator's policy after a token was asked for. */
  function AfterToken(coordinator: Policy, member: string, plan: TokenPlan): Policy {
    if GrantStays(coordinator, member, plan) then AddMember(coordinator, OIDC_ROLE, member).value else coordinator
  }

  /** The token was asked for at all: the drift was made and seen. */
  predicate DriftSeen(percent: int, plan: DriftPlan) {
    plan.readBefore && percent == 10 && plan.drift == Fine && plan.readDrifted
  }

  predicate DriftWorks(percent: int, coordinator: Policy, member: string, plan: DriftPlan) {
    && DriftSeen(percent, plan) && TokenTaken(coordinator, member, plan.token) && plan.verified
    && plan.restore == Fine && plan.readAfter && plan.finished
  }

  /** The probe's invoker was there, and its removal succeeded. */
  predicate ProbeRemoved(target: Policy, verifier: string, plan: ProbePlan) {
    plan.readBefore && HasMember(target, "roles/run.invoker", verifier) && plan.remove == Fine
  }

  predicate ProbeWorks(
    target: Policy, verifier: string, coordinator: Policy, member: string, plan: ProbePlan)
  {
    && ProbeRemoved(target, verifier, plan) && plan.readDenied
    && TokenTaken(coordinator, member, plan.token) && plan.verified
    && plan.add == Fine && plan.readAfter && Occurrences(target, INVOKER_ROLE, verifier) == 1 && plan.finished
  }

  predicate Works(
    s: Scenario, target: Policy, verifier: string, coordinator: Policy, member: string, percent: int)
  {
    match s
    case Drift(plan) => DriftWorks(percent, coordinator, member, plan)
    case Probe(plan) => ProbeWorks(target, verifier, coordinator, member, plan)
    case Other(_, finished) => finished
  }

  /** A flag that one of the first `n` scenarios raised and no later token of theirs cleared. */
  ghost predicate FlagLeft(scenarios: seq<Scenario>, n: nat, flag: string)
    requires n <= |scenarios|
  {
    exists i :: 0 <= i < n && scenarios[i].Other? && flag in scenarios[i].flags
                && !(flag == "coordinator-openid-token-creator" && exists j :: i < j < n && !scenarios[j].Other?)
  }

  lemma FlagsOfNext(scenarios: seq<Scenario>, n: nat, flag: string)
    requires n < |scenarios|
    ensures FlagLeft(scenarios, n + 1, flag)
       <==> match scenarios[n]
            case Other(flags, _) => flag in flags || FlagLeft(scenarios, n, flag)
            case _ => flag != "coordinator-openid-token-creator" && FlagLeft(scenarios, n, flag)
  {
    if FlagLeft(scenarios, n, flag) {
      var i :| 0 <= i < n && scenarios[i].Other? && flag in scenarios[i].flags
               && !(flag == "coordinator-openid-token-creator" && exists j :: i < j < n && !scenarios[j].Other?);
      if scenarios[n].Other? || flag != "coordinator-openid-token-creator" {
        assert FlagLeft(scenarios, n + 1, flag);
      }
    }
    if FlagLeft(scenarios, n + 1, flag) {
      var i :| 0 <= i < n + 1 && scenarios[i].Other? && flag in scenarios[i].flags
               && !(flag == "coordinator-openid-token-creator" && exists j :: i < j < n + 1 && !scenarios[j].Other?);
      assert i < n ==> FlagLeft(scenarios, n, flag);
    }
  }

  lemma FlagsDiffer()
    ensures OIDC_CLEANUP != INVOKER_CLEANUP && OIDC_CLEANUP != TRAFFIC_CLEANUP
    ensures INVOKER_CLEANUP != TRAFFIC_CLEANUP && OIDC_ROLE != INVOKER_ROLE
  {
    assert |OIDC_CLEANUP| != |INVOKER_CLEANUP| && |OIDC_CLEANUP| != |TRAFFIC_CLEANUP|;
    assert |INVOKER_CLEANUP| != |TRAFFIC_CLEANUP| && |OIDC_ROLE| != |INVOKER_ROLE|;
  }

  lemma InvokerFacts(p: Policy, verifier: string)
    requires Normal(p)
    ensures RemoveMember(p, INVOKER_ROLE, verifier).Some? <==> HasMember(p, INVOKER_ROLE, verifier)
    ensures HasMember(p, INVOKER_ROLE, verifier) ==>
              && RemoveMember(p, INVOKER_ROLE, verifier) == Some(Removed(p, INVOKER_ROLE, verifier))
              && Removed(p, INVOKER_ROLE, verifier) != p
              && (Granted(Removed(p, INVOKER_ROLE, verifier), INVOKER_ROLE, verifier) == p
                  <==> Occurrences(p, INVOKER_ROLE, verifier) == 1)
  {
    if HasMember(p, INVOKER_ROLE, verifier) {
      InvokerRestorable(p, verifier);
      RemovedNormal(p, INVOKER_ROLE, verifier);
    }
  }

  class FaultRun {
    const member: string
    const verifier: string
    var coordinator: Policy
    var target: Policy
    var candidatePercent: int
    var cleanup: set<string>

    ghost predicate Valid()
      reads this
    {
      Normal(coordinator) && Normal(target)
    }

    constructor (member: string, verifier: string, coordinator: Policy, target: Policy, candidatePercent: int)
      requires Normal(coordinator) && Normal(target)
      ensures Valid() && this.coordinator == coordinator && this.target == target
      ensures this.candidatePercent == candidatePercent && cleanup == {}
      ensures this.member == member && this.verifier == verifier
    {
      this.member, this.verifier := member, verifier;
      this.coordinator, this.target, this.candidatePercent := coordinator, target, candidatePercent;
      cleanup := {};
    }

    method ChangeCoordinatorGrant(add: bool, fault: Fault) returns (ok: bool)
      requires Valid()
      modifies this`coordinator
      ensures Valid() && (ok <==> fault == Fine)
      ensures coordinator ==
              if fault == FailedBefore then old(coordinator)
              else if add then Granted(old(coordinator), OIDC_ROLE, member)
              else Removed(old(coordinator), OIDC_ROLE, member)
    {
      if fault != FailedBefore {
        GrantedNormal(coordinator, OIDC_ROLE, member);
        RemovedNormal(coordinator, OIDC_ROLE, member);
        coordinator :=
          if add then Granted(coordinator, OIDC_ROLE, member) else Removed(coordinator, OIDC_ROLE, member);
      }
      return fault == Fine;
    }

    /** Bring the coordinator's policy back to `before`, or leave the cleanup flag set. */
    method RestoreCoordinatorGrant(before: Policy, plan: TokenPlan) returns (restored: bool)
      requires Valid()
      requires coordinator == before || coordinator == Granted(before, OIDC_ROLE, member)
      requires Normal(before) && !HasMember(before, OIDC_ROLE, member)
      modifies this`coordinator, this`cleanup
      ensures Valid()
      ensures coordinator ==
              if plan.remove == FailedBefore then old(coordinator) else before
      ensures restored <==> plan.readAfter && coordinator == before
      ensures cleanup == if restored then old(cleanup) - {OIDC_CLEANUP} else old(cleanup) + {OIDC_CLEANUP}
    {
      RemoveUndoesAdd(before, OIDC_ROLE, member);
      GrantedNormal(before, OIDC_ROLE, member);
      var current := if plan.readCurrent then Some(coordinator) else None;
      if current == None || HasMember(current.value, OIDC_ROLE, member) {
        var _ := ChangeCoordinatorGrant(false, plan.remove);
      }
      if !plan.readAfter || coordinator != before {
        cleanup := cleanup + {OIDC_CLEANUP};
        return false;
      }
      cleanup := cleanup - {OIDC_CLEANUP};
      return true;
    }

    /**
     Grant, take one token, restore. A token is returned only with the policy back
     as it was; a policy left changed leaves the flag set.
     */
    method CoordinatorToken(plan: TokenPlan) returns (token: bool)
      requires Valid()
      modifies this`coordinator, this`cleanup
      ensures Valid()
      ensures token ==> coordinator == old(coordinator) && OIDC_CLEANUP !in cleanup
      ensures coordinator != old(coordinator) ==>
                OIDC_CLEANUP in cleanup && Some(coordinator) == AddMember(old(coordinator), OIDC_ROLE, member)
      ensures cleanup
           == if OIDC_CLEANUP in cleanup then old(cleanup) + {OIDC_CLEANUP} else old(cleanup) - {OIDC_CLEANUP}
      ensures TRAFFIC_CLEANUP in cleanup <==> TRAFFIC_CLEANUP in old(cleanup)
      ensures INVOKER_CLEANUP in cleanup <==> INVOKER_CLEANUP in old(cleanup)
      ensures token <==> TokenTaken(old(coordinator), member, plan)
      ensures coordinator == AfterToken(old(coordinator), member, plan)
      ensures OIDC_CLEANUP in cleanup
         <==> if plan.readBefore && !HasMember(old(coordinator), OIDC_ROLE, member)
              then !plan.readAfter || GrantStays(old(coordinator), member, plan)
              else OIDC_CLEANUP in old(cleanup)
    {
      FlagsDiffer();
      if !plan.readBefore {
        return false;
      }
      var before := coordinator;
      var expected := AddMember(before, OIDC_ROLE, member);
      if expected == None {
        return false;
      }
      AddKeepsNormal(before, OIDC_ROLE, member);
      cleanup := cleanup + {OIDC_CLEANUP};
      var added := ChangeCoordinatorGrant(true, plan.add);
      var taken := added && plan.readGranted && coordinator == expected.value && plan.token;
      var restored := RestoreCoordinatorGrant(before, plan);
      return taken && restored && plan.claims;
    }

    /** Drift the traffic, verify, restore: it ends as it was or with the flag set. */
    method ExecuteConfigurationDrift(plan: DriftPlan) returns (ok: bool)
      requires Valid()
      modifies this`coordinator, this`cleanup, this`candidatePercent
      ensures Valid()
      ensures candidatePercent != old(candidatePercent) ==> TRAFFIC_CLEANUP in cleanup
      ensures coordinator != old(coordinator) ==> OIDC_CLEANUP in cleanup
      ensures old(cleanup) - {OIDC_CLEANUP} <= cleanup
      ensures ok ==>
                && candidatePercent == old(candidatePercent) == 10 && coordinator == old(coordinator)
                && cleanup == old(cleanup) - {OIDC_CLEANUP}
      ensures ok <==> DriftWorks(old(candidatePercent), old(coordinator), member, plan)
      ensures var started := plan.readBefore && old(candidatePercent) == 10;
              && candidatePercent
                 == (if started && plan.drift != FailedBefore && plan.restore == FailedBefore then 0
                     else old(candidatePercent))
              && (TRAFFIC_CLEANUP in cleanup
                  <==> TRAFFIC_CLEANUP in old(cleanup) || (started && !(plan.restore == Fine && plan.readAfter)))
      ensures coordinator
           == if DriftSeen(old(candidatePercent), plan) then AfterToken(old(coordinator), member, plan.token)
              else old(coordinator)
    {
      FlagsDiffer();
      if !plan.readBefore || candidatePercent != 10 {
        return false;
      }
      var before := candidatePercent;
      var verified := false;
      if plan.drift != FailedBefore {
        candidatePercent := 0;
      }
      if plan.drift == Fine && plan.readDrifted && candidatePercent == 0 {
        var token := CoordinatorToken(plan.token);
        verified := token && plan.verified;
      }
      if plan.restore != FailedBefore {
        candidatePercent := 10;
      }
      if plan.restore != Fine || !plan.readAfter || candidatePercent != before {
        cleanup := cleanup + {TRAFFIC_CLEANUP};
        return false;
      }
      return verified && plan.finished;
    }

    method ChangeVerifierInvoker(add: bool, fault: Fault) returns (ok: bool)
      requires Valid()
      modifies this`target
      ensures Valid() && (ok <==> fault == Fine)
      ensures target ==
              if fault == FailedBefore then old(target)
              else if add then Granted(old(target), INVOKER_ROLE, verifier)
              else Removed(old(target), INVOKER_ROLE, verifier)
    {
      if fault != FailedBefore {
        GrantedNormal(target, INVOKER_ROLE, verifier);
        RemovedNormal(target, INVOKER_ROLE, verifier);
        target := if add then Granted(target, INVOKER_ROLE, verifier) else Removed(target, INVOKER_ROLE, verifier);
      }
      return fault == Fine;
    }

    /** The removal took effect although its call failed: the one way out that restores nothing. */
    ghost predicate LostRemoval(plan: ProbePlan)
      reads this
    {
      plan.readBefore && HasMember(target, INVOKER_ROLE, verifier) && plan.remove == FailedAfter
    }

    /** With the invoker taken away: verify, then give it back or leave the flag set. */
    method VerifyAndRestore(before: Policy, plan: ProbePlan) returns (ok: bool)
      requires Valid() && Normal(before) && HasMember(before, INVOKER_ROLE, verifier)
      requires target == Removed(before, INVOKER_ROLE, verifier)
      modifies this`coordinator, this`cleanup, this`target
      ensures Valid()
      ensures ok <==>
              && plan.readDenied && TokenTaken(old(coordinator), member, plan.token) && plan.verified
              && plan.add == Fine && plan.readAfter && Occurrences(before, INVOKER_ROLE, verifier) == 1
              && plan.finished
      ensures coordinator
           == if plan.readDenied then AfterToken(old(coordinator), member, plan.token) else old(coordinator)
      ensures coordinator != old(coordinator) ==> OIDC_CLEANUP in cleanup
      ensures target == if plan.add == FailedBefore then old(target) else Granted(old(target), INVOKER_ROLE, verifier)
      ensures INVOKER_CLEANUP in cleanup
         <==> || INVOKER_CLEANUP in old(cleanup)
              || !(plan.add == Fine && plan.readAfter && Occurrences(before, INVOKER_ROLE, verifier) == 1)
      ensures target != before ==> INVOKER_CLEANUP in cleanup
      ensures old(cleanup) - {OIDC_CLEANUP} <= cleanup
      ensures ok ==>
                && target == before && coordinator == old(coordinator)
                && cleanup == old(cleanup) - {OIDC_CLEANUP}
    {
      InvokerFacts(before, verifier);
      FlagsDiffer();
      hide AfterToken, TokenTaken, Occurrences, Normal, AddMember, HasMember, RemoveMember, Granted, Removed;
      var verified := false;
      if plan.readDenied && Some(target) == RemoveMember(before, INVOKER_ROLE, verifier) {
        var token := CoordinatorToken(plan.token);
        verified := token && plan.verified;
      }
      var added := ChangeVerifierInvoker(true, plan.add);
      assert target == before <==> plan.add != FailedBefore && Occurrences(before, INVOKER_ROLE, verifier) == 1;
      if !added || !plan.readAfter || target != before {
        cleanup := cleanup + {INVOKER_CLEANUP};
        return false;
      }
      return verified && plan.finished;
    }

    /**
     Take the verifier's invoker away, verify, give it back. The policy left
     changed without a flag is exactly the lost removal.
     */
    method ExecuteProbeFailure(plan: ProbePlan) returns (ok: bool)
      requires Valid()
      modifies this`coordinator, this`cleanup, this`target
      ensures Valid()
      ensures coordinator != old(coordinator) ==> OIDC_CLEANUP in cleanup
      ensures old(cleanup) - {OIDC_CLEANUP} <= cleanup
      ensures old(LostRemoval(plan)) ==>
                && !ok && target == RemoveMember(old(target), INVOKER_ROLE, verifier).value
                && cleanup == old(cleanup)
      ensures INVOKER_CLEANUP !in old(cleanup) ==>
                (target != old(target) && INVOKER_CLEANUP !in cleanup <==> old(LostRemoval(plan)))
      ensures ok ==>
                && target == old(target) && coordinator == old(coordinator)
                && cleanup == old(cleanup) - {OIDC_CLEANUP}
      ensures ok <==> ProbeWorks(old(target), verifier, old(coordinator), member, plan)
      ensures var removed := ProbeRemoved(old(target), verifier, plan);
              && (INVOKER_CLEANUP in cleanup
                  <==> || INVOKER_CLEANUP in old(cleanup)
                       || (removed && !(&& plan.add == Fine && plan.readAfter
                                        && Occurrences(old(target), INVOKER_ROLE, verifier) == 1)))
              && (removed && plan.add != FailedBefore ==>
                    target == Granted(Removed(old(target), INVOKER_ROLE, verifier), INVOKER_ROLE, verifier))
              && (removed && plan.add == FailedBefore ==> target == Removed(old(target), INVOKER_ROLE, verifier))
              && (!removed && !old(LostRemoval(plan)) ==> target == old(target))
              && coordinator
                 == if removed && plan.readDenied then AfterToken(old(coordinator), member, plan.token)
                    else old(coordinator)
    {
      if !plan.readBefore {
        return false;
      }
      InvokerFacts(target, verifier);
      FlagsDiffer();
      hide AfterToken, TokenTaken, Occurrences, Normal, AddMember, HasMember, RemoveMember, Granted, Removed;
      var before := target;
      var denied := RemoveMember(before, INVOKER_ROLE, verifier);
      if denied == None {
        return false;
      }
      var removed := ChangeVerifierInvoker(false, plan.remove);
      if !removed {
        return false;
      }
      ok := VerifyAndRestore(before, plan);
    }

    /**
     Run the scenarios in order, stop at the first that fails, and publish only
     with no cleanup flag left. What is published, then, is published with every
     policy and the traffic as they were; what is left changed is flagged, but for
     a lost removal.
     */
    method ExecuteFaultSuite(scenarios: seq<Scenario>) returns (published: bool)
      requires Valid() && cleanup == {}
      modifies this`coordinator, this`cleanup, this`target, this`candidatePercent
      ensures Valid()
      ensures published ==>
                && cleanup == {}
                && coordinator == old(coordinator) && target == old(target)
                && candidatePercent == old(candidatePercent)
      ensures published
         <==> && (forall i :: 0 <= i < |scenarios| ==>
                    Works(scenarios[i], old(target), verifier, old(coordinator), member, old(candidatePercent)))
              && forall flag :: !FlagLeft(scenarios, |scenarios|, flag)
      ensures coordinator != old(coordinator) ==> OIDC_CLEANUP in cleanup
      ensures candidatePercent != old(candidatePercent) ==> TRAFFIC_CLEANUP in cleanup
      ensures target != old(target) && INVOKER_CLEANUP !in cleanup ==>
                exists i :: 0 <= i < |scenarios| && scenarios[i].Probe? && scenarios[i].probe.remove == FailedAfter
    {
      for i := 0 to |scenarios|
        invariant Valid()
        invariant coordinator == old(coordinator) && target == old(target)
        invariant candidatePercent == old(candidatePercent)
        invariant forall j :: 0 <= j < i ==>
          Works(scenarios[j], old(target), verifier, old(coordinator), member, old(candidatePercent))
        invariant forall flag :: flag in cleanup <==> FlagLeft(scenarios, i, flag)
      {
        hide DriftWorks, ProbeWorks, FlagLeft;
        ghost var flagsBefore := cleanup;
        var ok;
        match scenarios[i] {
          case Drift(plan) => ok := ExecuteConfigurationDrift(plan);
          case Probe(plan) => ok := ExecuteProbeFailure(plan);
          case Other(flags, finished) =>
            cleanup := cleanup + flags;
            ok := finished;
        }
        if !ok {
          return false;
        }
        forall flag
          ensures flag in cleanup <==> FlagLeft(scenarios, i + 1, flag)
        {
          FlagsOfNext(scenarios, i, flag);
        }
      }
      return cleanup == {};
    }
  }

  const NO_FAULTS := TokenPlan(true, Fine, true, true, true, Fine, true, true)
  const NO_DRIFT_FAULTS := DriftPlan(true, Fine, true, NO_FAULTS, true, Fine, true, true)
  const NO_PROBE_FAULTS := ProbePlan(true, Fine, true, NO_FAULTS, true, Fine, true, true)

  /** Drift and probe work, and the flag one scenario leaves is cleared by the next token. */
  const GOOD_SUITE: seq<Scenario> :=
    [Drift(NO_DRIFT_FAULTS), Other({"coordinator-openid-token-creator"}, true), Probe(NO_PROBE_FAULTS), Other({}, true)]

  lemma GoodSuiteWorks(member: string, verifier: string)
    ensures var coordinator, target := Policy(1, []), Policy(1, [Grant(INVOKER_ROLE, [verifier])]);
            && Normal(coordinator) && Normal(target)
            && forall i :: 0 <= i < |GOOD_SUITE| ==> Works(GOOD_SUITE[i], target, verifier, coordinator, member, 10)
  {
    hide OIDC_CLEANUP;
    OnlyInvoker(verifier);
    assert !HasMember(Policy(1, []), OIDC_ROLE, member);
  }

  lemma GoodSuiteClean()
    ensures forall flag :: !FlagLeft(GOOD_SUITE, |GOOD_SUITE|, flag)
  {
    assert !GOOD_SUITE[2].Other? && GOOD_SUITE[3].flags == {};
  }

  /** A concrete suite that is published. */
  method PublishSuite(member: string, verifier: string) returns (published: bool)
    ensures published
  {
    GoodSuiteWorks(member, verifier);
    GoodSuiteClean();
    hide GOOD_SUITE, FlagLeft, Normal, Works;
    var run := new FaultRun(member, verifier, Policy(1, []), Policy(1, [Grant(INVOKER_ROLE, [verifier])]), 10);
    published := run.ExecuteFaultSuite(GOOD_SUITE);
  }

  /** Concrete suites that are not: a scenario fails, or one leaves a flag that no token clears. */
  method RefuseSuites(member: string, verifier: string) returns (failed: bool, flagged: bool)
    ensures !failed && !flagged
  {
    hide DriftWorks, ProbeWorks;
    var bad: seq<Scenario> := [Other({}, false)];
    assert bad[0] == Other({}, false);
    var run := new FaultRun(member, verifier, Policy(1, []), Policy(1, []), 10);
    failed := run.ExecuteFaultSuite(bad);
    var left: seq<Scenario> := [Other({"coordinator-openid-token-creator"}, true)];
    assert FlagLeft(left, 1, "coordinator-openid-token-creator") by {
      assert left[0].Other?;
    }
    run := new FaultRun(member, verifier, Policy(1, []), Policy(1, []), 10);
    flagged := run.ExecuteFaultSuite(left);
  }

  /**
   A concrete lost removal, wherever the verifier is the one invoker: the call is
   reported as failed, the invoker is gone, and no flag says so.
   */
  method LoseInvoker(member: string, verifier: string)
    returns (before: Policy, after: Policy, ok: bool, cleanup: set<string>)
    ensures before == Policy(1, [Grant(INVOKER_ROLE, [verifier])]) && Normal(before)
    ensures after == Policy(1, []) && !ok && INVOKER_CLEANUP !in cleanup
  {
    before := Policy(1, [Grant(INVOKER_ROLE, [verifier])]);
    OnlyInvoker(verifier);
    var run := new FaultRun(member, verifier, Policy(1, []), before, 10);
    var unused := TokenPlan(true, Fine, true, true, true, Fine, true, true);
    ok := run.ExecuteProbeFailure(ProbePlan(true, FailedAfter, true, unused, true, Fine, true, true));
    after, cleanup := run.target, run.cleanup;
  }

  lemma OnlyInvoker(verifier: string)
    ensures var p := Policy(1, [Grant(INVOKER_ROLE, [verifier])]);
            && Normal(p) && HasMember(p, INVOKER_ROLE, verifier)
            && RemoveMember(p, INVOKER_ROLE, verifier) == Some(Policy(1, []))
            && Occurrences(p, INVOKER_ROLE, verifier) == 1
  {
    var g := Grant(INVOKER_ROLE, [verifier]);
    assert g.members[..0] == [] && [g][..0] == [];
    assert Retained(g.members, verifier) == [];
    assert RemoveFrom([g], INVOKER_ROLE, verifier) == [];
    assert verifier in g.members;
    assert Count([], INVOKER_ROLE, verifier) == 0 && multiset(g.members)[verifier] == 1;
    assert Count([g], INVOKER_ROLE, verifier) == 1;
  }

  /** A verifier listed twice: the restore that succeeds leaves another policy than it found. */
  lemma InvokerListedTwice(verifier: string)
    ensures var p := Policy(1, [Grant(INVOKER_ROLE, [verifier, verifier])]);
            && Normal(p) && HasMember(p, INVOKER_ROLE, verifier)
            && Granted(Removed(p, INVOKER_ROLE, verifier), INVOKER_ROLE, verifier)
               == Policy(1, [Grant(INVOKER_ROLE, [verifier])])
  {
    ListedTwice(INVOKER_ROLE, verifier);
  }

  /** Whether restoring the probe's invoker can give the policy back: only if it was listed once. */
  lemma InvokerRestorable(p: Policy, verifier: string)
    requires Normal(p) && HasMember(p, INVOKER_ROLE, verifier)
    ensures Granted(Removed(p, INVOKER_ROLE, verifier), INVOKER_ROLE, verifier) == p
       <==> Occurrences(p, INVOKER_ROLE, verifier) == 1
  {
    RemoveKeepsNormal(p, INVOKER_ROLE, verifier);
    AddUndoesRemove(p, INVOKER_ROLE, verifier);
  }
}
